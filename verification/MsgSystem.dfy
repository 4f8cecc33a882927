/** The waiting Msg client and the Msg server over two byte channels. */
module MsgSystem {
  import opened Text
  import C = MsgClient
  import S = MsgServer

  /** The numbers of bytes the two sides were started with, and the number of requests. */
  datatype Params = Params(clientSize: nat, serverSize: nat, requests: nat)

  /** Where the client stands: about to send, gathering a reply from the chunks so far, finished, or stopped by a wrong
      reply length. */
  datatype Client = Sending | Awaiting(buffer: string, chunks: seq<string>) | Done | Stopped

  /** `heard` records, for each request whose gathering has ended, the chunks received for it. */
  datatype State = State(client: Client, delays: nat, toServer: string, server: S.Session, toClient: string,
                         heard: seq<seq<string>>)

  function Start(p: Params): State {
    State(if p.requests == 0 then Done else Sending, 0, "", S.Fresh, "", [])
  }

  datatype Action = Send(request: string) | ServerRecv(size: nat, reply: string) | ClientRecv(size: nat)

  predicate Enabled(p: Params, s: State, a: Action) {
    match a
    case Send(request) => s.client.Sending? && |request| == p.clientSize
    case ServerRecv(size, reply) => 0 < size <= S.RECV_SIZE && size <= |s.toServer| && |reply| == p.serverSize
    case ClientRecv(size) => s.client.Awaiting? && 0 < size <= C.RECV_SIZE && size <= |s.toClient|
  }

  /** One turn of the server's loop, with times left open. */
  function ServerStep(p: Params, s: State, size: nat, reply: string): State
    requires Enabled(p, s, ServerRecv(size, reply))
  {
    var t := S.Step(p.serverSize, s.server, S.Arrival(s.toServer[..size], 0, 0, reply));
    s.(server := t, toServer := s.toServer[size..],
       toClient := if |t.sent| > |s.server.sent| then s.toClient + reply else s.toClient)
  }

  /** One turn of the gathering loop, and what follows it when the reply is long enough. */
  function ClientStep(p: Params, s: State, size: nat): State
    requires Enabled(p, s, ClientRecv(size))
  {
    var chunk := s.toClient[..size];
    var buffer, chunks := s.client.buffer + chunk, s.client.chunks + [chunk];
    var t := s.(toClient := s.toClient[size..]);
    if |buffer| < p.clientSize then t.(client := Awaiting(buffer, chunks))
    else if |buffer| == p.clientSize then
      t.(client := if s.delays + 1 == p.requests then Done else Sending, delays := s.delays + 1, heard := s.heard + [chunks])
    else t.(client := Stopped, heard := s.heard + [chunks])
  }

  function Do(p: Params, s: State, a: Action): State
    requires Enabled(p, s, a)
  {
    match a
    case Send(request) => s.(client := Awaiting("", []), toServer := s.toServer + request)
    case ServerRecv(size, reply) => ServerStep(p, s, size, reply)
    case ClientRecv(size) => ClientStep(p, s, size)
  }

  function Run(p: Params, s: State, actions: seq<Action>): Option<State>
    decreases |actions|
  {
    if actions == [] then Some(s)
    else if !Enabled(p, s, actions[0]) then None
    else Run(p, Do(p, s, actions[0]), actions[1..])
  }

  ghost predicate Reachable(p: Params, s: State) {
    exists actions: seq<Action> :: Run(p, Start(p), actions) == Some(s)
  }

  /** Some thread can move. */
  ghost predicate CanStep(p: Params, s: State) {
    exists a: Action :: Enabled(p, s, a)
  }

  lemma CanStepWhen(p: Params, s: State)
    ensures CanStep(p, s) <==> s.client.Sending? || s.toServer != "" || (s.client.Awaiting? && s.toClient != "")
  {
    if s.client.Sending? {
      assert Enabled(p, s, Send(Repeat('0', p.clientSize)));
    } else if s.toServer != "" {
      assert Enabled(p, s, ServerRecv(1, Repeat('0', p.serverSize)));
    } else if s.client.Awaiting? && s.toClient != "" {
      assert Enabled(p, s, ClientRecv(1));
    }
  }

  // ------------------------------------------------------------ every run ends

  /** Requests not yet sent. */
  function Unsent(p: Params, s: State): int {
    match s.client
    case Sending => p.requests - s.delays
    case Awaiting(_, _) => p.requests - s.delays - 1
    case _ => 0
  }

  function Weight(p: Params): nat {
    1 + p.serverSize
  }

  function Measure(p: Params, s: State): int {
    Unsent(p, s) * (1 + p.clientSize * Weight(p)) + |s.toServer| * Weight(p) + |s.toClient|
  }

  ghost predicate Counted(p: Params, s: State) {
    && !s.server.closed
    && (s.client.Sending? || s.client.Awaiting? ==> s.delays < p.requests)
    && (s.client.Done? ==> s.delays == p.requests)
  }

  lemma Spread(a: int, b: int, c: int)
    ensures (a + b) * c == a * c + b * c
  {
  }

  lemma ProductNonNegative(a: int, b: int)
    requires a >= 0 && b >= 0
    ensures a * b >= 0
  {
  }

  /** Whatever the two sizes, every step of either side strictly decreases a measure bounded by zero. */
  lemma StepDecreases(p: Params, s: State, a: Action)
    requires Counted(p, s) && Enabled(p, s, a) && p.clientSize > 0
    ensures Counted(p, Do(p, s, a))
    ensures 0 <= Measure(p, Do(p, s, a)) < Measure(p, s)
  {
    var t := Do(p, s, a);
    var w, c := Weight(p), 1 + p.clientSize * Weight(p);
    ProductNonNegative(p.clientSize, w);
    ProductNonNegative(Unsent(p, t), c);
    ProductNonNegative(|t.toServer|, w);
    match a
    case Send(request) =>
      Spread(Unsent(p, t), 1, c);
      Spread(|s.toServer|, p.clientSize, w);
    case ServerRecv(size, reply) =>
      Spread(|t.toServer|, size, w);
      Spread(size - 1, 1, w);
      ProductNonNegative(size - 1, w);
    case ClientRecv(size) =>
      if t.client.Stopped? {
        ProductNonNegative(Unsent(p, s), c);
      }
  }

  lemma {:induction false} RunShortens(p: Params, s: State, actions: seq<Action>)
    requires Counted(p, s) && p.clientSize > 0
    ensures var r := Run(p, s, actions);
            r.Some? ==> Counted(p, r.value) && |actions| + Measure(p, r.value) <= Measure(p, s)
    decreases |actions|
  {
    if actions != [] && Enabled(p, s, actions[0]) {
      hide Do, Measure;
      StepDecreases(p, s, actions[0]);
      RunShortens(p, Do(p, s, actions[0]), actions[1..]);
    }
  }

  lemma MeasureNonNegative(p: Params, s: State)
    requires Counted(p, s)
    ensures Measure(p, s) >= 0
  {
    ProductNonNegative(p.clientSize, Weight(p));
    ProductNonNegative(Unsent(p, s), 1 + p.clientSize * Weight(p));
    ProductNonNegative(|s.toServer|, Weight(p));
  }

  lemma StartMeasure(p: Params)
    ensures Counted(p, Start(p)) && Measure(p, Start(p)) == p.requests * (1 + p.clientSize * Weight(p))
  {
  }

  /** Whatever the two sizes and the chunking, no run has more steps than the measure of the start. */
  lemma EveryRunEnds(p: Params, actions: seq<Action>)
    requires p.clientSize > 0 && Run(p, Start(p), actions).Some?
    ensures |actions| <= p.requests * (1 + p.clientSize * Weight(p))
  {
    hide Measure, Counted, Weight;
    StartMeasure(p);
    RunShortens(p, Start(p), actions);
    MeasureNonNegative(p, Run(p, Start(p), actions).value);
  }

  lemma {:induction false} RunAppend(p: Params, s: State, actions: seq<Action>, a: Action)
    requires Run(p, s, actions).Some? && Enabled(p, Run(p, s, actions).value, a)
    ensures Run(p, s, actions + [a]) == Some(Do(p, Run(p, s, actions).value, a))
    decreases |actions|
  {
    hide Do, Enabled;
    if actions == [] {
      assert actions + [a] == [a];
      assert [a][1..] == [];
    } else {
      assert (actions + [a])[1..] == actions[1..] + [a];
      RunAppend(p, Do(p, s, actions[0]), actions[1..], a);
    }
  }

  lemma ReachNext(p: Params, s: State, a: Action)
    requires Reachable(p, s) && Enabled(p, s, a)
    ensures Reachable(p, Do(p, s, a))
  {
    hide Do, Enabled;
    var actions: seq<Action> :| Run(p, Start(p), actions) == Some(s);
    RunAppend(p, Start(p), actions, a);
  }

  lemma StartReachable(p: Params)
    ensures Reachable(p, Start(p))
  {
    assert Run(p, Start(p), []) == Some(Start(p));
  }

  // ------------------------------------------------------------ conservation

  /** Requests sent so far. */
  function Issued(s: State): nat {
    s.delays + if s.client.Awaiting? || s.client.Stopped? then 1 else 0
  }

  function Gathered(s: State): nat {
    if s.client.Awaiting? then |s.client.buffer| else 0
  }

  /** Bytes are neither lost nor made up on either channel, as long as no reply had the wrong length. */
  ghost predicate Conserved(p: Params, s: State) {
    && p.clientSize * Issued(s) == |s.toServer| + p.serverSize * |s.server.sent| + |s.server.bufferData|
    && (!s.client.Stopped? ==>
          p.serverSize * |s.server.sent| == p.clientSize * s.delays + Gathered(s) + |s.toClient|)
    && (s.client.Awaiting? ==> |s.client.buffer| < p.clientSize)
  }

  lemma StepConserves(p: Params, s: State, a: Action)
    requires Counted(p, s) && Conserved(p, s) && Enabled(p, s, a) && p.clientSize > 0
    ensures Conserved(p, Do(p, s, a))
  {
    Spread(1, s.delays, p.clientSize);
    assert p.serverSize * (|s.server.sent| + 1) == p.serverSize * |s.server.sent| + p.serverSize;
    assert p.clientSize * (s.delays + 1) == p.clientSize * s.delays + p.clientSize;
  }

  // ------------------------------------------------------------ the client is the class's client

  /** What the client of `MsgClient` would do with the chunks heard: gather each answered request to its size, and
      stand, in between, with the buffer of the chunks so far. */
  ghost predicate GathersAsClient(p: Params, s: State) {
    && |s.heard| == s.delays + (if s.client.Stopped? then 1 else 0)
    && (forall i :: 0 <= i < s.delays ==> |C.Gather(p.clientSize, "", s.heard[i])| == p.clientSize)
    && (s.client.Stopped? ==> |C.Gather(p.clientSize, "", s.heard[s.delays])| != p.clientSize)
    && (s.client.Awaiting? ==>
          && C.Arrive(s.client.chunks, |s.client.chunks|) && |s.client.buffer| < p.clientSize
          && s.client.buffer == C.Gather(p.clientSize, "", s.client.chunks))
  }

  lemma StepGathersAsClient(p: Params, s: State, a: Action)
    requires GathersAsClient(p, s) && Enabled(p, s, a) && p.clientSize > 0
    ensures GathersAsClient(p, Do(p, s, a))
  {
    if a.ClientRecv? {
      hide C.Gather;
      C.GatherOneMore(p.clientSize, s.client.chunks, s.toClient[..a.size]);
    }
  }

  lemma {:induction false} RunGathersAsClient(p: Params, s: State, actions: seq<Action>)
    requires GathersAsClient(p, s) && p.clientSize > 0
    ensures var r := Run(p, s, actions); r.Some? ==> GathersAsClient(p, r.value)
    decreases |actions|
  {
    if actions != [] && Enabled(p, s, actions[0]) {
      hide Do, GathersAsClient;
      StepGathersAsClient(p, s, actions[0]);
      RunGathersAsClient(p, Do(p, s, actions[0]), actions[1..]);
    }
  }

  /** The rounds of the request loop, in the client's own terms, behind a reachable state. */
  ghost predicate RoundsOf(s: State, rounds: seq<C.Round>) {
    && |rounds| == |s.heard| + (if s.client.Awaiting? then 1 else 0)
    && (forall i :: 0 <= i < |s.heard| ==> rounds[i].chunks == s.heard[i])
    && (s.client.Awaiting? ==> rounds[|s.heard|].chunks == s.client.chunks)
  }

  /** In every reachable state the client object, run over what was received, has recorded as many delays and sent as
      many requests as the system's client, and holds the same partial reply. */
  lemma SystemRunsTheClient(p: Params, s: State, rounds: seq<C.Round>)
    requires Reachable(p, s) && p.clientSize > 0 && RoundsOf(s, rounds)
    ensures |C.Delays(p.clientSize, false, rounds)| == s.delays
    ensures |C.Requests(p.clientSize, false, rounds)| == Issued(s)
    ensures s.client.Awaiting? ==> s.client.buffer == C.Gather(p.clientSize, "", rounds[|s.heard|].chunks)
  {
    hide C.Gather, C.Delays, C.Requests, C.Answered, Run;
    var actions: seq<Action> :| Run(p, Start(p), actions) == Some(s);
    RunGathersAsClient(p, Start(p), actions);
    var n := C.DelaysOfAnswered(p.clientSize, rounds);
    forall i | 0 <= i < |rounds|
      ensures C.Answered(p.clientSize, rounds[i]) <==> i < s.delays
    {
      C.GathersAnswered(p.clientSize, rounds[i]);
    }
  }
}
