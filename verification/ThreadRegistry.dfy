/** The bookkeeping of handler threads both servers share: registration, the list to join, and joining. */
module ThreadRegistry {

  // ------------------------------------------------------------ interleaved steps

  /** A handler is running, has put its id on the list, or is over. */
  datatype Handler = Running | Listed | Over

  /** Where the accept loop stands: `Registered` after the dictionary entry, `Counted` after the id was
      advanced, `Popped` with an id taken off the list, `Joined` when that thread was waited for. */
  datatype Main = Accepting | Registered(id: nat) | Counted(id: nat) | Joining | Popping | Popped(id: nat)
                | Joined(id: nat) | Failed

  /** `threads` is the dictionary's key set; `joined` records the ids waited for, in order. */
  datatype State = State(main: Main, connId: nat, threads: set<nat>, toJoin: seq<nat>,
                         handlers: map<nat, Handler>, joined: seq<nat>)

  const Start: State := State(Accepting, 0, {}, [], map[], [])

  datatype Action = Accept | Count | StartThread | Look | Pop | Join | Forget | List(id: nat) | Exit(id: nat)

  /** `join` blocks until the thread is over; everything else of the accept loop runs when its turn comes. */
  predicate Enabled(s: State, a: Action) {
    match a
    case Accept => s.main.Accepting?
    case Count => s.main.Registered?
    case StartThread => s.main.Counted?
    case Look => s.main.Joining?
    case Pop => s.main.Popping?
    case Join => s.main.Popped? && (s.main.id in s.threads && s.main.id in s.handlers ==> s.handlers[s.main.id].Over?)
    case Forget => s.main.Joined?
    case List(id) => id in s.handlers && s.handlers[id].Running?
    case Exit(id) => id in s.handlers && s.handlers[id].Listed?
  }

  /** Popping an empty list and looking up or deleting a missing key are the errors of the original. */
  function Do(s: State, a: Action): State
    requires Enabled(s, a)
  {
    match a
    case Accept => s.(main := Registered(s.connId), threads := s.threads + {s.connId})
    case Count => s.(main := Counted(s.main.id), connId := s.connId + 1)
    case StartThread => s.(main := Joining, handlers := s.handlers[s.main.id := Running])
    case Look => s.(main := if |s.toJoin| > 0 then Popping else Accepting)
    case Pop =>
      if s.toJoin == [] then s.(main := Failed)
      else s.(main := Popped(s.toJoin[|s.toJoin| - 1]), toJoin := s.toJoin[..|s.toJoin| - 1])
    case Join =>
      if s.main.id !in s.threads || s.main.id !in s.handlers then s.(main := Failed)
      else s.(main := Joined(s.main.id), joined := s.joined + [s.main.id])
    case Forget =>
      if s.main.id !in s.threads then s.(main := Failed)
      else s.(main := Joining, threads := s.threads - {s.main.id})
    case List(id) => s.(toJoin := s.toJoin + [id], handlers := s.handlers[id := Listed])
    case Exit(id) => s.(handlers := s.handlers[id := Over])
  }

  predicate Distinct(ids: seq<nat>) {
    forall i, j :: 0 <= i < j < |ids| ==> ids[i] != ids[j]
  }

  /** The id the accept loop holds between taking it off the list and forgetting it. */
  function InHand(s: State): set<nat> {
    match s.main
    case Popped(id) => {id}
    case Joined(id) => {id}
    case _ => {}
  }

  /** Registered but not yet started, or registered and not yet counted. */
  function Starting(s: State): set<nat> {
    match s.main
    case Registered(id) => {id}
    case Counted(id) => {id}
    case _ => {}
  }

  /** Every id handed out is either registered or was joined and forgotten, never both; what is on the list, in
      the accept loop's hand, or joined is a started handler, in one of these places only. */
  ghost predicate Placed(s: State) {
    && (forall i: nat :: i in s.threads <==> i < Handed(s) && (i in s.joined ==> s.main == Joined(i)))
    && (forall i: nat :: i in s.joined ==> i < s.connId && i !in Starting(s))
    && (forall i: nat :: i in s.handlers <==> i < s.connId && i !in Starting(s))
    && (forall i: nat :: i in s.toJoin ==> i in s.handlers && i !in s.joined && i !in InHand(s))
  }

  /** The number of ids in the dictionary or once in it. */
  function Handed(s: State): nat {
    if s.main.Registered? then s.connId + 1 else s.connId
  }

  /** The accept loop's own position. */
  ghost predicate Positioned(s: State) {
    match s.main
    case Failed => false
    case Popping => s.toJoin != []
    case Registered(id) => id == s.connId
    case Counted(id) => id + 1 == s.connId
    case Popped(id) => id in s.handlers && id !in s.joined && !s.handlers[id].Running?
    case Joined(id) => id in s.handlers && id in s.joined
    case _ => true
  }

  /** Only a handler that has done its last action is joined, and only one that has listed itself is listed. */
  ghost predicate Ordered(s: State) {
    && (forall i: nat :: i in s.joined ==> i in s.handlers && s.handlers[i].Over?)
    && (forall i: nat :: i in s.toJoin ==> i in s.handlers && !s.handlers[i].Running?)
    && (forall i: nat :: i in s.handlers && !s.handlers[i].Running? ==> i in s.toJoin || i in InHand(s) || i in s.joined)
  }

  ghost predicate Inv(s: State) {
    Placed(s) && Positioned(s) && Ordered(s) && Distinct(s.toJoin) && Distinct(s.joined)
  }

  lemma MainKeeps(s: State, a: Action)
    requires Inv(s) && Enabled(s, a) && (a.Accept? || a.Count? || a.StartThread? || a.Look?)
    ensures Inv(Do(s, a))
  {
  }

  lemma ListKeeps(s: State, id: nat)
    requires Inv(s) && Enabled(s, List(id))
    ensures Inv(Do(s, List(id)))
  {
    var t := Do(s, List(id));
    assert forall i :: i in t.toJoin <==> i in s.toJoin || i == id;
  }

  lemma ExitKeeps(s: State, id: nat)
    requires Inv(s) && Enabled(s, Exit(id))
    ensures Inv(Do(s, Exit(id)))
  {
  }

  lemma PopKeeps(s: State)
    requires Inv(s) && Enabled(s, Pop)
    ensures Inv(Do(s, Pop))
  {
    var t := Do(s, Pop);
    var last := s.toJoin[|s.toJoin| - 1];
    assert last in s.toJoin;
    assert forall i :: i in s.toJoin <==> i in t.toJoin || i == last;
    assert last !in t.toJoin;
  }

  lemma JoinKeeps(s: State)
    requires Inv(s) && Enabled(s, Join)
    ensures Inv(Do(s, Join))
  {
    var t := Do(s, Join);
    assert forall i :: i in t.joined <==> i in s.joined || i == s.main.id;
  }

  lemma ForgetKeeps(s: State)
    requires Inv(s) && Enabled(s, Forget)
    ensures Inv(Do(s, Forget))
  {
  }

  function Run(s: State, actions: seq<Action>): (r: State)
    requires Feasible(s, actions)
    decreases |actions|
  {
    if actions == [] then s else Run(Do(s, actions[0]), actions[1..])
  }

  predicate Feasible(s: State, actions: seq<Action>)
    decreases |actions|
  {
    actions != [] ==> Enabled(s, actions[0]) && Feasible(Do(s, actions[0]), actions[1..])
  }

  lemma StepKeeps(s: State, a: Action)
    requires Inv(s) && Enabled(s, a)
    ensures Inv(Do(s, a))
  {
    hide Inv;
    match a
    case Pop => PopKeeps(s);
    case Join => JoinKeeps(s);
    case Forget => ForgetKeeps(s);
    case List(id) => ListKeeps(s, id);
    case Exit(id) => ExitKeeps(s, id);
    case _ => MainKeeps(s, a);
  }

  lemma {:induction false} RunKeeps(s: State, actions: seq<Action>)
    requires Inv(s) && Feasible(s, actions)
    ensures Inv(Run(s, actions))
    decreases |actions|
  {
    hide Inv, Do, Enabled;
    if actions != [] {
      StepKeeps(s, actions[0]);
      RunKeeps(Do(s, actions[0]), actions[1..]);
    }
  }

  /** The record of joined threads only grows, at its end. */
  lemma {:induction false} JoinsAreAppended(s: State, actions: seq<Action>)
    requires Feasible(s, actions)
    ensures s.joined <= Run(s, actions).joined
    decreases |actions|
  {
    if actions != [] {
      JoinsAreAppended(Do(s, actions[0]), actions[1..]);
    }
  }

  function Ids(s: seq<nat>): set<nat> {
    set i | i in s
  }

  /** What holds after every interleaving of the accept loop with any number of handlers. */
  ghost predicate Bookkept(s: State) {
    // no lookup fails and no empty list is popped
    && !s.main.Failed?
    // the list names each registered thread at most once, and the one in hand is registered
    && Distinct(s.toJoin) && Ids(s.toJoin) <= s.threads && InHand(s) <= s.threads
    // each thread is joined at most once, and only after its last action
    && Distinct(s.joined) && (forall i: nat :: i in s.joined ==> i in s.handlers && s.handlers[i].Over?)
    // between two turns, the ids handed out are the registered ones and the joined ones, disjointly
    && (s.main.Accepting? || s.main.Joining? ==>
          (forall i: nat :: i in s.threads + Ids(s.joined) <==> i < s.connId) && s.threads !! Ids(s.joined))
    // a thread that is being waited for can always finish
    && (s.main.Popped? ==> Enabled(s, Join) || Enabled(s, Exit(s.main.id)))
    // when every handler is over and the list is drained, no thread is left registered
    && (s.main.Accepting? && s.toJoin == [] && (forall i: nat :: i in s.handlers ==> s.handlers[i].Over?) ==> s.threads == {})
  }

  lemma StartInv()
    ensures Inv(Start)
  {
    var s := Start;
    assert s.threads == {} && s.connId == 0;
    assert Placed(s);
    assert Positioned(s);
    assert Ordered(s);
  }

  lemma EveryRunIsBookkept(actions: seq<Action>)
    requires Feasible(Start, actions)
    ensures Bookkept(Run(Start, actions))
  {
    hide Run, Feasible;
    StartInv();
    RunKeeps(Start, actions);
    var s := Run(Start, actions);
    forall i | i in InHand(s) || i in s.toJoin
      ensures i in s.threads
    {
      assert i in s.handlers;
    }
    forall i | i in s.threads && s.main.Accepting? && s.toJoin == []
      ensures i in s.handlers && s.handlers[i].Running?
    {
      assert i !in s.toJoin;
    }
  }

  // ------------------------------------------------------------ the join loop on its own

  /** The two globals, as `join_finished_threads` changes them while no handler interferes. */
  class Registry {
    var threads: set<nat>
    var toJoin: seq<nat>
    var joined: seq<nat>

    constructor ()
      ensures threads == {} && toJoin == [] && joined == []
    {
      threads, toJoin, joined := {}, [], [];
    }

    method Register(connId: nat)
      modifies this`threads
      ensures threads == old(threads) + {connId}
    {
      threads := threads + {connId};
    }

    /** Joins the listed threads, the latest first, and forgets them. */
    method JoinFinishedThreads()
      requires Distinct(toJoin) && Ids(toJoin) <= threads
      modifies this
      ensures toJoin == []
      ensures threads == old(threads) - Ids(old(toJoin))
      ensures joined == old(joined) + Reversed(old(toJoin))
    {
      ghost var all := toJoin;
      assert all[..|all|] == all && all[|all|..] == [];
      while |toJoin| > 0
        invariant |toJoin| <= |all| && toJoin == all[..|toJoin|]
        invariant threads == old(threads) - Ids(all[|toJoin|..])
        invariant joined == old(joined) + Reversed(all[|toJoin|..])
      {
        var n := |toJoin| - 1;
        var id := toJoin[n];
        assert id == all[n] && all[n..] == [id] + all[n + 1..];
        assert id in all;
        assert forall i :: i in all[n..] <==> i == id || i in all[n + 1..];
        toJoin := toJoin[..n];
        assert id in threads;
        ReversedMore(id, all[n + 1..]);
        joined := joined + [id];
        threads := threads - {id};
      }
      assert all[0..] == all;
    }
  }

  function Reversed(s: seq<nat>): (r: seq<nat>)
    ensures |r| == |s| && forall i :: 0 <= i < |s| ==> r[i] == s[|s| - 1 - i]
  {
    seq(|s|, i requires 0 <= i < |s| => s[|s| - 1 - i])
  }

  lemma ReversedMore(first: nat, rest: seq<nat>)
    ensures Reversed([first] + rest) == Reversed(rest) + [first]
  {
  }
}
