/** The Msg client: its request loop and the loop that gathers one reply. */
module MsgClient {
  import opened Text

  const RECV_SIZE: nat := 2048

  /** One turn of the request loop: the request and when it leaves, what successive `recv` calls return afterwards,
      and the time at which the gathered reply is looked at. A list that ends counts as a closed connection. */
  datatype Round = Round(request: string, startTime: int, chunks: seq<string>, stopTime: int)

  /** The reply buffer at the end of the gathering loop. */
  function Gather(size: nat, buffer: string, chunks: seq<string>): string
    decreases |chunks|
  {
    if |buffer| >= size || chunks == [] || chunks[0] == "" then buffer
    else Gather(size, buffer + chunks[0], chunks[1..])
  }

  /** The recorded delays: the loop ends at the first round whose reply is not exactly `size` bytes long. */
  function Delays(size: nat, bulk: bool, rounds: seq<Round>): seq<int> {
    if rounds == [] then []
    else if bulk then Delays(size, bulk, rounds[1..])
    else if |Gather(size, "", rounds[0].chunks)| != size then []
    else [rounds[0].stopTime - rounds[0].startTime] + Delays(size, bulk, rounds[1..])
  }

  /** The requests that leave. */
  function Requests(size: nat, bulk: bool, rounds: seq<Round>): seq<string> {
    if rounds == [] then []
    else if bulk || |Gather(size, "", rounds[0].chunks)| == size then
      [rounds[0].request] + Requests(size, bulk, rounds[1..])
    else [rounds[0].request]
  }

  class Client {
    const size: nat
    const bulk: bool
    var delays: seq<int>
    var sent: seq<string>

    constructor (size: nat, bulk: bool)
      ensures this.size == size && this.bulk == bulk && delays == [] && sent == []
    {
      this.size, this.bulk, delays, sent := size, bulk, [], [];
    }

    method GatherReply(chunks: seq<string>) returns (buffer: string)
      ensures buffer == Gather(size, "", chunks)
    {
      buffer := "";
      var i := 0;
      while |buffer| < size
        invariant i <= |chunks|
        invariant Gather(size, buffer, chunks[i..]) == Gather(size, "", chunks)
        decreases |chunks| - i
      {
        if i == |chunks| || |chunks[i]| == 0 {
          break;
        }
        assert chunks[i..][1..] == chunks[i + 1..];
        buffer := buffer + chunks[i];
        i := i + 1;
      }
    }

    method Run(rounds: seq<Round>)
      modifies this
      ensures delays == old(delays) + Delays(size, bulk, rounds)
      ensures sent == old(sent) + Requests(size, bulk, rounds)
    {
      hide Gather;
      var i := 0;
      while i < |rounds|
        invariant i <= |rounds|
        invariant delays + Delays(size, bulk, rounds[i..]) == old(delays) + Delays(size, bulk, rounds)
        invariant sent + Requests(size, bulk, rounds[i..]) == old(sent) + Requests(size, bulk, rounds)
      {
        assert rounds[i..][1..] == rounds[i + 1..];
        var request := rounds[i].request;
        ghost var later := Requests(size, bulk, rounds[i + 1..]);
        assert sent + ([request] + later) == sent + [request] + later;
        sent := sent + [request];
        if !bulk {
          var buffer := GatherReply(rounds[i].chunks);
          if |buffer| != size {
            break;
          }
          var delay := rounds[i].stopTime - rounds[i].startTime;
          assert delays + ([delay] + Delays(size, bulk, rounds[i + 1..])) == delays + [delay] + Delays(size, bulk, rounds[i + 1..]);
          delays := delays + [delay];
        }
        i := i + 1;
      }
    }
  }

  // ------------------------------------------------------------ what one gathering yields

  /** The first k chunks arrive before the connection closes. */
  predicate Arrive(chunks: seq<string>, k: nat) {
    k <= |chunks| && forall j :: 0 <= j < k ==> chunks[j] != ""
  }

  /** The bytes of the first k chunks. */
  function Arrived(chunks: seq<string>, k: nat): string
    requires k <= |chunks|
  {
    Concat(chunks[..k])
  }

  lemma ArrivedMore(chunks: seq<string>, j: nat, k: nat)
    requires j <= k <= |chunks|
    ensures Arrived(chunks, j) <= Arrived(chunks, k)
    ensures Arrive(chunks, k) && j < k ==> |Arrived(chunks, j)| < |Arrived(chunks, k)|
    decreases k - j
  {
    if j < k {
      ArrivedMore(chunks, j, k - 1);
      ArrivedNext(chunks, k - 1);
    }
  }

  lemma ArrivedNext(chunks: seq<string>, k: nat)
    requires k < |chunks|
    ensures Arrived(chunks, k + 1) == Arrived(chunks, k) + chunks[k]
  {
    assert chunks[..k + 1] == chunks[..k] + [chunks[k]];
    ConcatAppend(chunks[..k], [chunks[k]]);
  }

  /** Gathering takes the shortest run of chunks that reaches the size, or all of them up to the close. */
  lemma {:induction false} GatherFrom(size: nat, chunks: seq<string>, i: nat) returns (k: nat)
    requires Arrive(chunks, i)
    ensures i <= k && Arrive(chunks, k) && Gather(size, Arrived(chunks, i), chunks[i..]) == Arrived(chunks, k)
    ensures forall j :: i <= j < k ==> |Arrived(chunks, j)| < size
    ensures k == |chunks| || chunks[k] == "" || |Arrived(chunks, k)| >= size
    decreases |chunks| - i
  {
    if |Arrived(chunks, i)| >= size || i == |chunks| || chunks[i] == "" {
      k := i;
    } else {
      hide Arrived;
      ArrivedNext(chunks, i);
      assert chunks[i..][1..] == chunks[i + 1..];
      k := GatherFrom(size, chunks, i + 1);
    }
  }

  lemma GatherIsShortest(size: nat, chunks: seq<string>) returns (k: nat)
    ensures Arrive(chunks, k) && Gather(size, "", chunks) == Arrived(chunks, k)
    ensures forall j :: 0 <= j < k ==> |Arrived(chunks, j)| < size
    ensures k == |chunks| || chunks[k] == "" || |Arrived(chunks, k)| >= size
  {
    assert chunks[..0] == [] && chunks[0..] == chunks;
    k := GatherFrom(size, chunks, 0);
  }

  /** No more than one chunk is read beyond the size, so the reply overshoots it by less than a `recv`. */
  lemma GatherStaysBelow(size: nat, chunks: seq<string>)
    requires size > 0 && forall j :: 0 <= j < |chunks| ==> |chunks[j]| <= 2048
    ensures |Gather(size, "", chunks)| < size + 2048
  {
    var k := GatherIsShortest(size, chunks);
    if k > 0 {
      ArrivedNext(chunks, k - 1);
      assert |Arrived(chunks, k - 1)| < size;
    } else {
      assert chunks[..0] == [];
    }
  }

  /** The reply has exactly the size awaited if and only if some run of chunks before the close has. */
  lemma GathersExactly(size: nat, chunks: seq<string>)
    ensures |Gather(size, "", chunks)| == size <==> exists k: nat :: Arrive(chunks, k) && |Arrived(chunks, k)| == size
  {
    var k := GatherIsShortest(size, chunks);
    if e: nat :| Arrive(chunks, e) && |Arrived(chunks, e)| == size {
      if k <= e {
        ArrivedMore(chunks, k, e);
      }
    }
  }

  // ------------------------------------------------------------ what a run yields

  /** The round's reply has exactly the size awaited. */
  ghost predicate Answered(size: nat, r: Round) {
    exists k: nat :: Arrive(r.chunks, k) && |Arrived(r.chunks, k)| == size
  }

  /** Without bulk there is one delay for each of the leading answered rounds, from sending to the end of gathering, and
      one request more leaves than is answered, unless all are. */
  lemma {:induction false} DelaysOfAnswered(size: nat, rounds: seq<Round>) returns (n: nat)
    ensures n <= |rounds| && (forall i :: 0 <= i < n ==> Answered(size, rounds[i])) && (n == |rounds| || !Answered(size, rounds[n]))
    ensures |Delays(size, false, rounds)| == n
    ensures forall i :: 0 <= i < n ==> Delays(size, false, rounds)[i] == rounds[i].stopTime - rounds[i].startTime
    ensures var m := if n == |rounds| then n else n + 1;
            && |Requests(size, false, rounds)| == m
            && forall i :: 0 <= i < m ==> Requests(size, false, rounds)[i] == rounds[i].request
  {
    hide Answered, Gather;
    if rounds == [] {
      n := 0;
    } else {
      GathersAnswered(size, rounds[0]);
      if Answered(size, rounds[0]) {
        n := DelaysOfAnswered(size, rounds[1..]);
        n := n + 1;
      } else {
        n := 0;
      }
    }
  }

  lemma GathersAnswered(size: nat, r: Round)
    ensures |Gather(size, "", r.chunks)| == size <==> Answered(size, r)
  {
    GathersExactly(size, r.chunks);
  }

  /** In bulk mode every request leaves and no delay is recorded. */
  lemma {:induction false} BulkOnlySends(size: nat, rounds: seq<Round>)
    ensures Delays(size, true, rounds) == []
    ensures |Requests(size, true, rounds)| == |rounds|
    ensures forall i :: 0 <= i < |rounds| ==> Requests(size, true, rounds)[i] == rounds[i].request
  {
    if rounds != [] {
      BulkOnlySends(size, rounds[1..]);
    }
  }

  // ------------------------------------------------------------ gathering chunk by chunk

  /** One more chunk before the size is reached is one more turn of the loop. */
  lemma GatherOneMore(size: nat, chunks: seq<string>, chunk: string)
    requires |Gather(size, "", chunks)| < size && chunk != "" && Arrive(chunks, |chunks|)
    ensures Arrive(chunks + [chunk], |chunks| + 1)
    ensures Gather(size, "", chunks + [chunk]) == Gather(size, "", chunks) + chunk
  {
    var k := GatherIsShortest(size, chunks);
    var more := chunks + [chunk];
    var k' := GatherIsShortest(size, more);
    assert more[..|chunks|] == chunks && chunks[..|chunks|] == chunks;
    assert Arrived(more, |chunks|) == Arrived(chunks, |chunks|);
    ArrivedNext(more, |chunks|);
    if k' <= |chunks| {
      ArrivedMore(more, k', |chunks|);
    }
  }
}
