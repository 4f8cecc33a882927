/** One connection of the Msg server: fixed-size framing with at most one reply per `recv`. */
module MsgServer {
  import opened Text

  const RECV_SIZE: nat := 2048

  /** What one `recv` brings: the bytes, the time they are looked at, and, should a request be complete, the
      time just before the reply is sent and the random digits of the reply. */
  datatype Arrival = Arrival(data: string, stopTime: int, startTime: int, reply: string)

  datatype Session = Session(bufferData: string, startTime: Option<int>, delays: seq<int>, sent: seq<string>, closed: bool)

  const Fresh: Session := Session("", None, [], [], false)

  function Step(msgSize: nat, s: Session, a: Arrival): Session {
    if a.data == "" then s.(closed := true)
    else
      var buffer := s.bufferData + a.data;
      if |buffer| >= msgSize then
        Session(buffer[msgSize..], Some(a.startTime),
                if s.startTime.Some? then s.delays + [a.stopTime - s.startTime.value] else s.delays,
                s.sent + [a.reply], false)
      else s.(bufferData := buffer)
  }

  function Serve(msgSize: nat, s: Session, arrivals: seq<Arrival>): Session
    decreases |arrivals|
  {
    if arrivals == [] || s.closed then s else Serve(msgSize, Step(msgSize, s, arrivals[0]), arrivals[1..])
  }

  class ClientConnection {
    const msgSize: nat
    var bufferData: string
    var startTime: Option<int>
    var delays: seq<int>
    var sent: seq<string>
    var closed: bool

    ghost function View(): Session
      reads this
    {
      Session(bufferData, startTime, delays, sent, closed)
    }

    constructor (msgSize: nat)
      ensures this.msgSize == msgSize && View() == Fresh
    {
      this.msgSize := msgSize;
      bufferData, startTime, delays, sent, closed := "", None, [], [], false;
    }

    method Run(arrivals: seq<Arrival>)
      modifies this
      ensures View() == Serve(msgSize, old(View()), arrivals)
    {
      var i := 0;
      while i < |arrivals| && !closed
        invariant i <= |arrivals|
        invariant Serve(msgSize, View(), arrivals[i..]) == Serve(msgSize, old(View()), arrivals)
      {
        assert arrivals[i..][1..] == arrivals[i + 1..];
        Receive(arrivals[i]);
        i := i + 1;
      }
    }

    method Receive(a: Arrival)
      requires !closed
      modifies this
      ensures View() == Step(msgSize, old(View()), a)
    {
      if |a.data| == 0 {
        closed := true;
        return;
      }
      bufferData := bufferData + a.data;
      if |bufferData| >= msgSize {
        if startTime.Some? {
          delays := delays + [a.stopTime - startTime.value];
        }
        startTime := Some(a.startTime);
        sent := sent + [a.reply];
        bufferData := bufferData[msgSize..];
      }
    }
  }

  // ------------------------------------------------------------ framing

  function Received(arrivals: seq<Arrival>): string {
    if arrivals == [] then "" else Received(arrivals[..|arrivals| - 1]) + arrivals[|arrivals| - 1].data
  }

  predicate AllNonEmpty(arrivals: seq<Arrival>) {
    forall i :: 0 <= i < |arrivals| ==> arrivals[i].data != ""
  }

  lemma {:induction false} ServeLast(msgSize: nat, s: Session, arrivals: seq<Arrival>, a: Arrival)
    requires AllNonEmpty(arrivals) && !s.closed
    ensures !Serve(msgSize, s, arrivals).closed
    ensures Serve(msgSize, s, arrivals + [a]) == Step(msgSize, Serve(msgSize, s, arrivals), a)
    decreases |arrivals|
  {
    if arrivals == [] {
      assert arrivals + [a] == [a];
      assert [a][1..] == [];
    } else {
      assert (arrivals + [a])[1..] == arrivals[1..] + [a];
      ServeLast(msgSize, Step(msgSize, s, arrivals[0]), arrivals[1..], a);
    }
  }

  /** Every reply stands for one message's worth of bytes, the buffer is the rest of the stream, and every reply
      but the first has recorded a delay. */
  ghost predicate Framed(msgSize: nat, f: Session, stream: string) {
    && |stream| == msgSize * |f.sent| + |f.bufferData|
    && f.bufferData == stream[msgSize * |f.sent|..]
    && |f.delays| == (if f.sent == [] then 0 else |f.sent| - 1)
    && (f.startTime.Some? <==> f.sent != [])
  }

  lemma StepKeepsFramed(msgSize: nat, f: Session, stream: string, a: Arrival)
    requires Framed(msgSize, f, stream) && a.data != ""
    ensures Framed(msgSize, Step(msgSize, f, a), stream + a.data)
  {
    var n, t := msgSize * |f.sent|, stream + a.data;
    OneMoreMessage(msgSize, |f.sent|);
    assert f.bufferData + a.data == t[n..];
    assert n + msgSize <= |t| ==> t[n..][msgSize..] == t[n + msgSize..];
  }

  /** For any message size and any chunk sequence. */
  lemma {:induction false} Framing(msgSize: nat, arrivals: seq<Arrival>)
    requires AllNonEmpty(arrivals)
    ensures Framed(msgSize, Serve(msgSize, Fresh, arrivals), Received(arrivals))
    decreases |arrivals|
  {
    if arrivals == [] {
      assert msgSize * 0 == 0;
    } else {
      hide Framed, Serve, Step;
      var before, a := arrivals[..|arrivals| - 1], arrivals[|arrivals| - 1];
      assert arrivals == before + [a];
      Framing(msgSize, before);
      ServeLast(msgSize, Fresh, before, a);
      StepKeepsFramed(msgSize, Serve(msgSize, Fresh, before), Received(before), a);
    }
  }

  lemma OneMoreMessage(msgSize: nat, n: nat)
    ensures msgSize * (n + 1) == msgSize * n + msgSize
  {
  }

  // ------------------------------------------------------------ which arrivals are answered, and the delays

  /** With arrival j the bytes of n + 1 requests are there. */
  predicate Complete(msgSize: nat, arrivals: seq<Arrival>, j: nat, n: nat)
    requires j < |arrivals|
  {
    |Received(arrivals[..j + 1])| >= msgSize * (n + 1)
  }

  /** Between the two no arrival completes request n. */
  ghost predicate Silent(msgSize: nat, arrivals: seq<Arrival>, n: nat, from: nat, to: nat)
    requires to <= |arrivals|
  {
    forall j: nat | from <= j < to :: !Complete(msgSize, arrivals, j, n)
  }

  function After(at: seq<nat>, n: nat): nat
    requires n <= |at|
  {
    if n == 0 then 0 else at[n - 1] + 1
  }

  /** Arrival at[i] is the first after the one before it at which the bytes of i + 1 requests are there. */
  ghost predicate AnsweredBefore(msgSize: nat, arrivals: seq<Arrival>, at: seq<nat>, i: nat)
    requires i < |at|
  {
    && at[i] < |arrivals| && After(at, i) <= at[i]
    && Complete(msgSize, arrivals, at[i], i) && Silent(msgSize, arrivals, i, After(at, i), at[i])
  }

  /** Reply n goes with the first arrival, after that of reply n - 1, at which the bytes of n + 1 requests are there. */
  ghost predicate AnsweredAt(msgSize: nat, arrivals: seq<Arrival>, at: seq<nat>) {
    && (forall n :: 0 <= n < |at| ==> at[n] < |arrivals|)
    && (forall n: nat | n < |at| :: AnsweredBefore(msgSize, arrivals, at, n))
    && After(at, |at|) <= |arrivals| && Silent(msgSize, arrivals, |at|, After(at, |at|), |arrivals|)
  }

  /** Replies are those of the arrivals answered, and each delay runs from just before one reply to the arrival that
      completes the next request. */
  ghost predicate Timed(f: Session, arrivals: seq<Arrival>, at: seq<nat>)
    requires forall n :: 0 <= n < |at| ==> at[n] < |arrivals|
  {
    && |f.sent| == |at| && (forall n :: 0 <= n < |at| ==> f.sent[n] == arrivals[at[n]].reply)
    && |f.delays| == (if at == [] then 0 else |at| - 1)
    && (forall n :: 0 < n < |at| ==> f.delays[n - 1] == arrivals[at[n]].stopTime - arrivals[at[n - 1]].startTime)
    && f.startTime == if at == [] then None else Some(arrivals[at[|at| - 1]].startTime)
  }

  lemma FrontComplete(msgSize: nat, arrivals: seq<Arrival>, j: nat, n: nat)
    requires j + 1 < |arrivals|
    ensures Complete(msgSize, arrivals, j, n) == Complete(msgSize, arrivals[..|arrivals| - 1], j, n)
  {
    assert arrivals[..j + 1] == arrivals[..|arrivals| - 1][..j + 1];
  }

  lemma FrontSilent(msgSize: nat, arrivals: seq<Arrival>, n: nat, from: nat, to: nat)
    requires to < |arrivals|
    ensures Silent(msgSize, arrivals, n, from, to) == Silent(msgSize, arrivals[..|arrivals| - 1], n, from, to)
  {
    hide Complete;
    var front := arrivals[..|arrivals| - 1];
    forall j: nat | from <= j < to
      ensures Complete(msgSize, arrivals, j, n) == Complete(msgSize, front, j, n)
    {
      FrontComplete(msgSize, arrivals, j, n);
    }
    assert Silent(msgSize, front, n, from, to) <==> forall j: nat | from <= j < to :: !Complete(msgSize, front, j, n);
    assert Silent(msgSize, arrivals, n, from, to) <==> forall j: nat | from <= j < to :: !Complete(msgSize, arrivals, j, n);
  }

  lemma SilentEnds(msgSize: nat, arrivals: seq<Arrival>, n: nat, from: nat)
    requires arrivals != [] && Silent(msgSize, arrivals, n, from, |arrivals| - 1) && !Complete(msgSize, arrivals, |arrivals| - 1, n)
    ensures Silent(msgSize, arrivals, n, from, |arrivals|)
  {
    hide Complete;
    forall j: nat | from <= j < |arrivals|
      ensures !Complete(msgSize, arrivals, j, n)
    {
      if j < |arrivals| - 1 {
        assert !Complete(msgSize, arrivals, j, n);
      }
    }
  }

  lemma SilentFromEnd(msgSize: nat, arrivals: seq<Arrival>, n: nat)
    ensures Silent(msgSize, arrivals, n, |arrivals|, |arrivals|)
  {
  }

  /** The answered arrivals stay so when one more arrives. */
  lemma StaysAnswered(msgSize: nat, arrivals: seq<Arrival>, at: seq<nat>, i: nat)
    requires arrivals != [] && i < |at| && AnsweredBefore(msgSize, arrivals[..|arrivals| - 1], at, i)
    ensures AnsweredBefore(msgSize, arrivals, at, i) && AnsweredBefore(msgSize, arrivals, at + [|arrivals| - 1], i)
  {
    hide Complete, Silent;
    assert After(at + [|arrivals| - 1], i) == After(at, i);
    FrontComplete(msgSize, arrivals, at[i], i);
    FrontSilent(msgSize, arrivals, i, After(at, i), at[i]);
  }

  lemma AnsweredMore(msgSize: nat, arrivals: seq<Arrival>, at: seq<nat>)
    requires arrivals != [] && AnsweredAt(msgSize, arrivals[..|arrivals| - 1], at)
    ensures var n := |arrivals| - 1;
            AnsweredAt(msgSize, arrivals, if Complete(msgSize, arrivals, n, |at|) then at + [n] else at)
  {
    hide Complete, Silent, AnsweredBefore;
    var front, n := arrivals[..|arrivals| - 1], |arrivals| - 1;
    forall i: nat | i < |at|
      ensures AnsweredBefore(msgSize, arrivals, at, i) && AnsweredBefore(msgSize, arrivals, at + [n], i)
    {
      assert AnsweredBefore(msgSize, front, at, i);
      StaysAnswered(msgSize, arrivals, at, i);
    }
    FrontSilent(msgSize, arrivals, |at|, After(at, |at|), n);
    if Complete(msgSize, arrivals, n, |at|) {
      NewlyAnswered(msgSize, arrivals, at);
    } else {
      SilentEnds(msgSize, arrivals, |at|, After(at, |at|));
    }
  }

  lemma NewlyAnswered(msgSize: nat, arrivals: seq<Arrival>, at: seq<nat>)
    requires arrivals != [] && After(at, |at|) <= |arrivals| - 1 && Complete(msgSize, arrivals, |arrivals| - 1, |at|)
    requires Silent(msgSize, arrivals, |at|, After(at, |at|), |arrivals| - 1)
    ensures var more := at + [|arrivals| - 1];
            AnsweredBefore(msgSize, arrivals, more, |at|) && After(more, |more|) == |arrivals|
            && Silent(msgSize, arrivals, |more|, |arrivals|, |arrivals|)
  {
    hide Complete;
    var more := at + [|arrivals| - 1];
    assert After(more, |at|) == After(at, |at|);
    SilentFromEnd(msgSize, arrivals, |more|);
  }

  /** For any message size and any chunk sequence: which arrivals are answered, with which reply, and every delay. */
  lemma {:induction false} DelaysOfReplies(msgSize: nat, arrivals: seq<Arrival>) returns (at: seq<nat>)
    requires AllNonEmpty(arrivals)
    ensures AnsweredAt(msgSize, arrivals, at) && Timed(Serve(msgSize, Fresh, arrivals), arrivals, at)
    decreases |arrivals|
  {
    if arrivals == [] {
      at := [];
    } else {
      hide Serve, Complete, AnsweredAt, Step, Timed;
      var before, a := arrivals[..|arrivals| - 1], arrivals[|arrivals| - 1];
      assert arrivals == before + [a];
      at := DelaysOfReplies(msgSize, before);
      AnsweredBounds(msgSize, before, at);
      ServeLast(msgSize, Fresh, before, a);
      CompleteWhen(msgSize, before, a);
      AnsweredMore(msgSize, arrivals, at);
      TimedMore(msgSize, Serve(msgSize, Fresh, before), before, a, at);
      if Complete(msgSize, arrivals, |arrivals| - 1, |at|) {
        at := at + [|arrivals| - 1];
      }
    }
  }

  /** One more arrival, which is answered when the buffer reaches the size. */
  lemma TimedMore(msgSize: nat, f: Session, before: seq<Arrival>, a: Arrival, at: seq<nat>)
    requires (forall n :: 0 <= n < |at| ==> at[n] < |before|) && Timed(f, before, at) && a.data != ""
    ensures |f.sent| == |at|
    ensures Timed(Step(msgSize, f, a), before + [a], if |f.bufferData + a.data| >= msgSize then at + [|before|] else at)
  {
    var all := before + [a];
    assert forall n :: 0 <= n < |at| ==> all[at[n]] == before[at[n]];
  }

  lemma AnsweredBounds(msgSize: nat, arrivals: seq<Arrival>, at: seq<nat>)
    requires AnsweredAt(msgSize, arrivals, at)
    ensures forall n :: 0 <= n < |at| ==> at[n] < |arrivals|
  {
  }

  /** The size test of the loop in terms of the bytes received. */
  lemma CompleteWhen(msgSize: nat, before: seq<Arrival>, a: Arrival)
    requires AllNonEmpty(before)
    ensures var f, all := Serve(msgSize, Fresh, before), before + [a];
            Complete(msgSize, all, |before|, |f.sent|) <==> |f.bufferData + a.data| >= msgSize
  {
    hide Serve;
    var all := before + [a];
    Framing(msgSize, before);
    OneMoreMessage(msgSize, |Serve(msgSize, Fresh, before).sent|);
    assert all[..|before| + 1] == all && all[..|all| - 1] == before;
  }

  /** Chunks as `recv` returns them. */
  ghost predicate Chunks(arrivals: seq<Arrival>) {
    forall i :: 0 <= i < |arrivals| ==> 0 < |arrivals[i].data| <= 2048
  }

  lemma {:induction false} BufferStaysShort(msgSize: nat, arrivals: seq<Arrival>)
    requires Chunks(arrivals) && msgSize >= RECV_SIZE
    ensures |Serve(msgSize, Fresh, arrivals).bufferData| < msgSize
    decreases |arrivals|
  {
    if arrivals != [] {
      var before, a := arrivals[..|arrivals| - 1], arrivals[|arrivals| - 1];
      assert arrivals == before + [a];
      BufferStaysShort(msgSize, before);
      ServeLast(msgSize, Fresh, before, a);
    }
  }

  function Plain(size: nat): (a: Arrival)
    ensures |a.data| == size
  {
    Arrival(Repeat('0', size), 0, 0, "")
  }

  /** Below the `recv` size, a start of a request followed by a full chunk leaves a whole request waiting. */
  lemma BacklogArises(msgSize: nat) returns (arrivals: seq<Arrival>)
    requires 0 < msgSize < RECV_SIZE
    ensures Chunks(arrivals) && |Serve(msgSize, Fresh, arrivals).bufferData| >= msgSize
  {
    var full, start := Plain(RECV_SIZE), Plain(msgSize - 1);
    var before := if msgSize == 1 then [] else [start];
    arrivals := before + [full];
    var s := Serve(msgSize, Fresh, before);
    assert |s.bufferData| == msgSize - 1 by {
      if msgSize > 1 {
        assert before == [] + [start];
        ServeLast(msgSize, Fresh, [], start);
        assert |Step(msgSize, Fresh, start).bufferData| == msgSize - 1;
      }
    }
    ServeLast(msgSize, Fresh, before, full);
  }

  /** The exact condition for never leaving a complete request unanswered at a loop head. */
  lemma NoBacklog(msgSize: nat)
    requires msgSize > 0
    ensures (forall arrivals: seq<Arrival> | Chunks(arrivals) :: |Serve(msgSize, Fresh, arrivals).bufferData| < msgSize)
            <==> msgSize >= 2048
  {
    if msgSize >= RECV_SIZE {
      forall arrivals: seq<Arrival> | Chunks(arrivals)
        ensures |Serve(msgSize, Fresh, arrivals).bufferData| < msgSize
      {
        BufferStaysShort(msgSize, arrivals);
      }
    } else {
      var arrivals := BacklogArises(msgSize);
    }
  }

  /** From the `recv` size on, the number of replies is the number of complete requests received. */
  lemma RepliesAreFloor(msgSize: nat, arrivals: seq<Arrival>)
    requires Chunks(arrivals) && msgSize >= RECV_SIZE
    ensures |Serve(msgSize, Fresh, arrivals).sent| == |Received(arrivals)| / msgSize
  {
    Framing(msgSize, arrivals);
    BufferStaysShort(msgSize, arrivals);
    var f := Serve(msgSize, Fresh, arrivals);
    QuotientIs(|Received(arrivals)|, msgSize, |f.sent|, |f.bufferData|);
  }

  lemma QuotientIs(n: nat, d: nat, q: nat, r: nat)
    requires n == d * q + r && r < d
    ensures n / d == q
  {
    var e := n / d - q;
    assert n == d * (n / d) + n % d;
    assert d * e == r - n % d by {
      assert d * (n / d) == d * q + d * e;
    }
  }
}
