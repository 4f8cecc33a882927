/** When the Msg client and server finish: the exact condition on their two sizes. */
module MsgProgress {
  import opened Text
  import opened MsgSystem
  import S = MsgServer

  predicate Positive(p: Params) {
    p.clientSize > 0 && p.serverSize > 0 && p.requests > 0
  }

  // ------------------------------------------------------------ safety for any two sizes

  ghost predicate Inv(p: Params, s: State) {
    Counted(p, s) && Conserved(p, s) && !s.client.Stopped?
  }

  /** What is underway to the client never exceeds one request's worth of bytes, whatever the two sizes. */
  lemma UnderwayBound(p: Params, s: State)
    requires Inv(p, s)
    ensures Gathered(s) + |s.toClient| + |s.toServer| + |s.server.bufferData|
            == if s.client.Awaiting? then p.clientSize else 0
  {
    assert p.clientSize * (s.delays + 1) == p.clientSize * s.delays + p.clientSize;
  }

  lemma StepKeepsInv(p: Params, s: State, a: Action)
    requires Inv(p, s) && Enabled(p, s, a) && p.clientSize > 0
    ensures Inv(p, Do(p, s, a))
  {
    StepDecreases(p, s, a);
    StepConserves(p, s, a);
    UnderwayBound(p, s);
  }

  lemma StartInv(p: Params)
    ensures Inv(p, Start(p)) || p.clientSize == 0
  {
    assert p.serverSize * 0 == 0 && p.clientSize * 0 == 0;
  }

  lemma {:induction false} RunKeepsInv(p: Params, s: State, actions: seq<Action>)
    requires Inv(p, s) && p.clientSize > 0
    ensures var r := Run(p, s, actions); r.Some? ==> Inv(p, r.value)
    decreases |actions|
  {
    if actions != [] && Enabled(p, s, actions[0]) {
      hide Do, Inv, Enabled;
      StepKeepsInv(p, s, actions[0]);
      RunKeepsInv(p, Do(p, s, actions[0]), actions[1..]);
    }
  }

  /** In every reachable state, whatever the two sizes, the client is never stopped by an overlong reply and all
      bytes in flight belong to the one request it waits for. A finished client has all its delays. */
  lemma ReachableInv(p: Params, s: State)
    requires Reachable(p, s) && p.clientSize > 0
    ensures Inv(p, s)
    ensures Gathered(s) + |s.toClient| + |s.toServer| + |s.server.bufferData|
            == if s.client.Awaiting? then p.clientSize else 0
    ensures s.client.Done? ==> s.delays == p.requests
  {
    var actions: seq<Action> :| Run(p, Start(p), actions) == Some(s);
    StartInv(p);
    RunKeepsInv(p, Start(p), actions);
    UnderwayBound(p, s);
  }

  // ------------------------------------------------------------ progress

  /** Equal sizes, or a client size that is a multiple of a server size the server cannot lag behind. */
  predicate Fits(p: Params) {
    p.clientSize == p.serverSize || (p.serverSize > 0 && p.serverSize >= 2048 && p.clientSize % p.serverSize == 0)
  }

  lemma NoMultipleBetween(d: nat, k: int)
    ensures !(0 < d * k < d)
  {
    if k >= 1 {
      assert d * k == d + d * (k - 1);
      ProductNonNegative(d, k - 1);
    } else {
      ProductNonNegative(d, -k);
      assert d * k == -(d * -k);
    }
  }

  /** With fitting sizes the server never leaves a whole message waiting. */
  lemma StepKeepsShortBuffer(p: Params, s: State, a: Action)
    requires Positive(p) && Fits(p) && Inv(p, s) && Enabled(p, s, a)
    requires |s.server.bufferData| < p.serverSize
    ensures |Do(p, s, a).server.bufferData| < p.serverSize
  {
    UnderwayBound(p, s);
  }

  lemma {:induction false} RunKeepsShortBuffer(p: Params, s: State, actions: seq<Action>)
    requires Positive(p) && Fits(p) && Inv(p, s) && |s.server.bufferData| < p.serverSize
    ensures var r := Run(p, s, actions); r.Some? ==> |r.value.server.bufferData| < p.serverSize
    decreases |actions|
  {
    if actions != [] && Enabled(p, s, actions[0]) {
      hide Do, Inv, Enabled;
      StepKeepsInv(p, s, actions[0]);
      StepKeepsShortBuffer(p, s, actions[0]);
      RunKeepsShortBuffer(p, Do(p, s, actions[0]), actions[1..]);
    }
  }

  lemma ReachableShortBuffer(p: Params, s: State)
    requires Positive(p) && Fits(p) && Reachable(p, s)
    ensures |s.server.bufferData| < p.serverSize
  {
    var actions: seq<Action> :| Run(p, Start(p), actions) == Some(s);
    StartInv(p);
    RunKeepsShortBuffer(p, Start(p), actions);
  }

  lemma WaitingBufferIsMultiple(p: Params, s: State)
    requires Positive(p) && Inv(p, s) && p.clientSize % p.serverSize == 0
    requires s.client.Awaiting? && s.toServer == ""
    ensures exists k: int :: |s.server.bufferData| == p.serverSize * k
  {
    var j := p.clientSize / p.serverSize;
    var n := s.delays + 1;
    assert p.clientSize == p.serverSize * j;
    assert p.clientSize * n == p.serverSize * (j * n);
    assert |s.server.bufferData| == p.serverSize * (j * n - |s.server.sent|);
  }

  lemma ModOfSelf(n: nat)
    requires n > 0
    ensures n % n == 0
  {
  }

  lemma FittingNeverStuck(p: Params, s: State)
    requires Positive(p) && Fits(p) && Reachable(p, s)
    ensures s.client.Done? || CanStep(p, s)
  {
    hide Run;
    ReachableInv(p, s);
    ReachableShortBuffer(p, s);
    CanStepWhen(p, s);
    if s.client.Awaiting? && s.toServer == "" && s.toClient == "" {
      ModOfSelf(p.clientSize);
      WaitingBufferIsMultiple(p, s);
      var k: int :| |s.server.bufferData| == p.serverSize * k;
      NoMultipleBetween(p.serverSize, k);
      assert false;
    }
  }

  // ------------------------------------------------------------ getting stuck

  /** The first request cannot be completed any more. */
  ghost predicate Hopeless(p: Params, s: State)
    requires p.serverSize > 0
  {
    && s.delays == 0 && !s.client.Done?
    && (p.clientSize % p.serverSize != 0
        || (s.client.Awaiting? && s.toServer == "" && p.serverSize * |s.server.sent| < p.clientSize))
  }

  lemma MultipleHasNoRemainder(d: nat, k: nat)
    requires d > 0
    ensures d * k % d == 0
  {
    var n := d * k;
    assert n == d * (n / d) + n % d;
    assert n % d == d * (k - n / d);
    NoMultipleBetween(d, k - n / d);
  }

  lemma StepKeepsHopeless(p: Params, s: State, a: Action)
    requires Positive(p) && Inv(p, s) && Enabled(p, s, a)
    requires Hopeless(p, s)
    ensures Hopeless(p, Do(p, s, a))
  {
    var t := Do(p, s, a);
    StepKeepsInv(p, s, a);
    UnderwayBound(p, s);
    UnderwayBound(p, t);
    assert p.clientSize * 0 == 0 && p.clientSize * 1 == p.clientSize;
    MultipleHasNoRemainder(p.serverSize, |t.server.sent|);
  }

  /** Following any enabled steps from a hopeless state ends in one where nothing can move. */
  lemma {:induction false} HopelessGetsStuck(p: Params, s: State) returns (t: State)
    requires Positive(p) && Reachable(p, s) && Inv(p, s) && Hopeless(p, s)
    ensures Reachable(p, t) && !t.client.Done? && !CanStep(p, t)
    decreases if Measure(p, s) >= 0 then Measure(p, s) else 0
  {
    if CanStep(p, s) {
      hide Do, Enabled, Measure, Reachable, Inv;
      var a: Action :| Enabled(p, s, a);
      MeasureDrops(p, s, a);
      StepKeepsInv(p, s, a);
      StepKeepsHopeless(p, s, a);
      ReachNext(p, s, a);
      t := HopelessGetsStuck(p, Do(p, s, a));
    } else {
      t := s;
    }
  }

  lemma MeasureDrops(p: Params, s: State, a: Action)
    requires Inv(p, s) && Enabled(p, s, a) && p.clientSize > 0
    ensures 0 <= Measure(p, Do(p, s, a)) < Measure(p, s)
  {
    StepDecreases(p, s, a);
  }

  /** The first request is on its way and the server has taken whole messages so far. */
  ghost predicate Aligned(p: Params, s: State, i: nat) {
    && s.delays == 0 && s.client.Awaiting? && s.server.bufferData == "" && |s.toServer| == p.serverSize * i
  }

  /** With a small server size and at least two messages to a request, gluing the last two loses a reply. */
  lemma {:induction false} GlueLastTwo(p: Params, s: State, i: nat) returns (t: State)
    requires Positive(p) && p.serverSize < S.RECV_SIZE && i >= 2
    requires Reachable(p, s) && Inv(p, s) && Aligned(p, s, i)
    ensures Reachable(p, t) && Inv(p, t) && Hopeless(p, t)
    decreases i
  {
    var m := p.serverSize;
    var reply := Repeat('0', m);
    if i > 2 {
      hide Reachable, Inv;
      assert m * i == m * (i - 1) + m;
      ProductNonNegative(m, i - 1);
      var a := ServerRecv(m, reply);
      ReachNext(p, s, a);
      StepKeepsInv(p, s, a);
      t := GlueLastTwo(p, Do(p, s, a), i - 1);
    } else {
      var u := AlmostOne(p, s);
      var a := ServerRecv(m + 1, reply);
      ReachNext(p, u, a);
      StepKeepsInv(p, u, a);
      t := Do(p, u, a);
      assert p.clientSize * 1 == p.clientSize;
    }
  }

  lemma AlmostOne(p: Params, s: State) returns (u: State)
    requires Positive(p) && p.serverSize < S.RECV_SIZE
    requires Reachable(p, s) && Inv(p, s) && Aligned(p, s, 2)
    ensures Reachable(p, u) && Inv(p, u) && u.delays == 0 && u.client.Awaiting?
    ensures |u.server.bufferData| == p.serverSize - 1 && |u.toServer| == p.serverSize + 1
  {
    var m := p.serverSize;
    if m == 1 {
      u := s;
    } else {
      var a := ServerRecv(m - 1, Repeat('0', m));
      ReachNext(p, s, a);
      StepKeepsInv(p, s, a);
      u := Do(p, s, a);
    }
  }

  lemma UnfittingGetsStuck(p: Params) returns (t: State)
    requires Positive(p) && !Fits(p)
    ensures Reachable(p, t) && !t.client.Done? && !CanStep(p, t)
  {
    StartReachable(p);
    StartInv(p);
    if p.clientSize % p.serverSize != 0 {
      t := HopelessGetsStuck(p, Start(p));
    } else {
      var request := Repeat('0', p.clientSize);
      var a := Send(request);
      ReachNext(p, Start(p), a);
      StepKeepsInv(p, Start(p), a);
      var s := Do(p, Start(p), a);
      var j := p.clientSize / p.serverSize;
      assert p.clientSize == p.serverSize * j;
      assert j >= 2;
      assert "" + request == request;
      var u := GlueLastTwo(p, s, j);
      t := HopelessGetsStuck(p, u);
    }
  }

  /** The exact condition for the two programs to finish under every chunking: no reachable state is stuck, and
      since every step decreases the measure every run then ends with all delays recorded. */
  lemma NeverStuck(p: Params)
    requires Positive(p)
    ensures (forall s: State | Reachable(p, s) :: s.client.Done? || CanStep(p, s)) <==> Fits(p)
  {
    hide Reachable, CanStep;
    if Fits(p) {
      forall s: State | Reachable(p, s)
        ensures s.client.Done? || CanStep(p, s)
      {
        FittingNeverStuck(p, s);
      }
    } else {
      var t := UnfittingGetsStuck(p);
    }
  }

  /** With fitting sizes every run is bounded, and one that cannot be continued ends with all delays. */
  lemma EveryRunFinishes(p: Params, actions: seq<Action>)
    requires Positive(p) && Fits(p) && Run(p, Start(p), actions).Some?
    ensures |actions| <= p.requests * (1 + p.clientSize * Weight(p))
    ensures var s := Run(p, Start(p), actions).value;
            !CanStep(p, s) ==> s.client.Done? && s.delays == p.requests
  {
    hide Run, CanStep;
    EveryRunEnds(p, actions);
    var s := Run(p, Start(p), actions).value;
    FittingNeverStuck(p, s);
    ReachableInv(p, s);
  }
}
