/** What the capture workflow does to the outside world, as events, and the meaning of its
    persistence step: PersistPayloadsAsync cuts the payload list into consecutive batches of
    PersistenceBatchSize (at least 1) and runs ProcessBatchAsync on each; a batch parses
    each payload's date and inserts it, and stops at its first failure; every batch runs,
    and Task.WhenAll then raises the first failure in batch order.
    The batches run here one after the other: the semaphore and the interleaving of
    concurrent batches are not part of this model. The date parser is a parameter (the
    workflow gives ParseDataPrice), and so is the insert: attempt i, counted over the
    whole list, either reaches the database or raises insertFailure(i). */
module CapturePersistence {
  import opened Wrappers
  import opened Calendar
  import opened FlowIds
  import opened Payloads
  import opened ProcessingStates

  /** The calls the workflow makes on its collaborators, in order. */
  datatype Event =
    | StateCreated(captureDate: DateOnly, flowId: Guid)
    | StatusWritten(flowId: Guid, status: ProcessingStatus, error: Option<string>)
    | PriceInserted(flowId: Guid, dataCapture: DateTime, dataPrice: DateOnly, payload: PricePayload)
    | CsvUploaded(flowId: Guid, captureDate: DateOnly, path: string)
    | PayloadsSent(payloads: seq<PricePayload>)

  /** The date parser of the batch step. */
  type DateParser = PricePayload -> Result<DateOnly, Exn>

  /** Math.Max(1, setting): the batch size and the parallelism. */
  function AtLeastOne(setting: int): (n: int)
    ensures n >= 1 && n >= setting
    ensures n == setting || n == 1
  {
    if setting < 1 then 1 else setting
  }

  // ---------------------------------------------------------------- batches

  function Min(a: int, b: int): int {
    if a <= b then a else b
  }

  /** payloads.Skip(start).Take(size). */
  function Batch<T>(s: seq<T>, start: nat, size: nat): (b: seq<T>)
    requires start <= |s|
    ensures |b| == Min(size, |s| - start)
  {
    s[start..Min(start + size, |s|)]
  }

  /** The batches of the for loop, in order. */
  function Chunks<T>(s: seq<T>, size: nat): (cs: seq<seq<T>>)
    requires size >= 1
    decreases |s|
  {
    if s == [] then []
    else if |s| <= size then [s]
    else [s[..size]] + Chunks(s[size..], size)
  }

  function Flatten<T>(ss: seq<seq<T>>): seq<T>
    decreases |ss|
  {
    if ss == [] then [] else ss[0] + Flatten(ss[1..])
  }

  // ---------------------------------------------------------------- one batch

  /** What a batch step did: the inserts it made and the exception it ended with. */
  datatype Outcome = Outcome(events: seq<Event>, failure: Option<Exn>)

  const NoEvents: Outcome := Outcome([], None)

  /** One iteration of the foreach of ProcessBatchAsync, for the payload at position
      index of the whole list: nothing once the batch has failed; else ParseExact, whose
      exception ends the batch; else the insert, which either raises or is recorded. */
  function InsertStep(o: Outcome, flowId: Guid, captureTime: DateTime, p: PricePayload, index: nat,
                      parse: DateParser, insertFailure: nat -> Option<Exn>): Outcome
  {
    if o.failure.Some? then o
    else match parse(p)
      case Err(e) => Outcome(o.events, Some(e))
      case Ok(d) =>
        if insertFailure(index).Some? then Outcome(o.events, insertFailure(index))
        else Outcome(o.events + [PriceInserted(flowId, captureTime, d, p)], None)
  }

  /** ProcessBatchAsync on a batch that starts at position start of the whole list. */
  function BatchRun(flowId: Guid, captureTime: DateTime, batch: seq<PricePayload>, start: nat,
                    parse: DateParser, insertFailure: nat -> Option<Exn>): Outcome
    decreases |batch|
  {
    if batch == [] then NoEvents
    else
      var n := |batch| - 1;
      InsertStep(BatchRun(flowId, captureTime, batch[..n], start, parse, insertFailure),
                 flowId, captureTime, batch[n], start + n, parse, insertFailure)
  }

  /** PersistPayloadsAsync over the batches of the given size: every batch runs, their
      inserts follow each other, and the failure is that of the first batch that failed. */
  function PersistRun(flowId: Guid, captureTime: DateTime, chunks: seq<seq<PricePayload>>, size: nat,
                      parse: DateParser, insertFailure: nat -> Option<Exn>): Outcome
    decreases |chunks|
  {
    if chunks == [] then NoEvents
    else
      var k := |chunks| - 1;
      var prev := PersistRun(flowId, captureTime, chunks[..k], size, parse, insertFailure);
      var b := BatchRun(flowId, captureTime, chunks[k], k * size, parse, insertFailure);
      Outcome(prev.events + b.events, if prev.failure.Some? then prev.failure else b.failure)
  }

  /** The insert of a payload whose date parses. */
  predicate InsertOf(e: Event, flowId: Guid, captureTime: DateTime, p: PricePayload, parse: DateParser) {
    parse(p).Ok? && e == PriceInserted(flowId, captureTime, parse(p).value, p)
  }

  /** The inserts of the given payloads, one each, in order. */
  predicate InsertsOf(events: seq<Event>, flowId: Guid, captureTime: DateTime, ps: seq<PricePayload>, parse: DateParser) {
    |events| == |ps| && forall j | 0 <= j < |ps| :: InsertOf(events[j], flowId, captureTime, ps[j], parse)
  }

  /** Attempt i succeeds: the date parses and the insert does not raise. */
  predicate AttemptSucceeds(ps: seq<PricePayload>, i: nat, parse: DateParser, insertFailure: nat -> Option<Exn>)
    requires i < |ps|
  {
    parse(ps[i]).Ok? && insertFailure(i).None?
  }

  /** Every attempt over the list succeeds. */
  predicate AllSucceed(ps: seq<PricePayload>, parse: DateParser, insertFailure: nat -> Option<Exn>) {
    forall i | 0 <= i < |ps| :: AttemptSucceeds(ps, i, parse, insertFailure)
  }

  // ---------------------------------------------------------------- properties

  /** The batches are consecutive slices: their concatenation is the list. */
  lemma {:induction false} ChunksFlatten<T>(s: seq<T>, size: nat)
    requires size >= 1
    ensures Flatten(Chunks(s, size)) == s
    decreases |s|
  {
    if s != [] && |s| > size {
      ChunksFlatten(s[size..], size);
      assert s == s[..size] + s[size..];
    }
  }

  /** Every batch holds between 1 and size payloads, and all but the last exactly size. */
  predicate WellSized<T>(cs: seq<seq<T>>, size: nat) {
    forall k | 0 <= k < |cs| :: 1 <= |cs[k]| <= size && (k < |cs| - 1 ==> |cs[k]| == size)
  }

  lemma {:induction false} ChunkSizes<T>(s: seq<T>, size: nat)
    requires size >= 1
    ensures WellSized(Chunks(s, size), size)
    decreases |s|
  {
    if s != [] && |s| > size {
      ChunkSizes(s[size..], size);
      var rest := Chunks(s[size..], size);
      var cs := Chunks(s, size);
      assert cs == [s[..size]] + rest;
      forall k | 0 <= k < |cs|
        ensures 1 <= |cs[k]| <= size && (k < |cs| - 1 ==> |cs[k]| == size)
      {
        if k > 0 {
          assert cs[k] == rest[k - 1];
        }
      }
    }
  }

  /** Batch k is the slice the loop takes at index k * size, and there is one exactly when
      that index is inside the list. */
  lemma {:induction false} ChunkAt<T>(s: seq<T>, size: nat, k: nat)
    requires size >= 1
    ensures k < |Chunks(s, size)| <==> k * size < |s|
    ensures k * size < |s| ==> Chunks(s, size)[k] == Batch(s, k * size, size)
    decreases |s|
  {
    if s != [] && |s| > size {
      if k > 0 {
        ChunkAt(s[size..], size, k - 1);
        assert (k - 1) * size + size == k * size;
        if k * size < |s| {
          assert s[size..][(k - 1) * size..Min((k - 1) * size + size, |s| - size)]
              == s[k * size..Min(k * size + size, |s|)];
        }
      }
    } else if s != [] {
      if k > 0 {
        assert k * size >= size;
      }
    }
  }

  /** After the loop has taken every batch, its index has passed the end of the list. */
  lemma ChunkCountCovers<T>(s: seq<T>, size: nat)
    requires size >= 1
    ensures |Chunks(s, size)| * size >= |s|
    ensures |Chunks(s, size)| == 0 || (|Chunks(s, size)| - 1) * size < |s|
  {
    var n := |Chunks(s, size)|;
    ChunkAt(s, size, n);
    if n > 0 {
      ChunkAt(s, size, n - 1);
    }
  }

  /** Once a batch has failed, the rest of it is skipped. */
  lemma {:induction false} BatchRunStops(flowId: Guid, captureTime: DateTime, batch: seq<PricePayload>, start: nat,
                                         j: nat, parse: DateParser, insertFailure: nat -> Option<Exn>)
    requires j <= |batch|
    requires BatchRun(flowId, captureTime, batch[..j], start, parse, insertFailure).failure.Some?
    ensures BatchRun(flowId, captureTime, batch, start, parse, insertFailure)
         == BatchRun(flowId, captureTime, batch[..j], start, parse, insertFailure)
    decreases |batch|
  {
    if j < |batch| {
      var n := |batch| - 1;
      assert batch[..n][..j] == batch[..j];
      BatchRunStops(flowId, captureTime, batch[..n], start, j, parse, insertFailure);
    } else {
      assert batch[..j] == batch;
    }
  }

  lemma BatchRunSnoc(flowId: Guid, captureTime: DateTime, batch: seq<PricePayload>, start: nat, j: nat,
                     parse: DateParser, insertFailure: nat -> Option<Exn>)
    requires j < |batch|
    ensures BatchRun(flowId, captureTime, batch[..j + 1], start, parse, insertFailure)
         == InsertStep(BatchRun(flowId, captureTime, batch[..j], start, parse, insertFailure),
                       flowId, captureTime, batch[j], start + j, parse, insertFailure)
  {
    assert batch[..j + 1][..j] == batch[..j];
  }

  /** A batch whose every attempt succeeds inserts each of its payloads once, in order,
      with the one capture time. */
  lemma {:induction false} BatchAllSucceed(flowId: Guid, captureTime: DateTime, s: seq<PricePayload>, start: nat, len: nat,
                                           parse: DateParser, insertFailure: nat -> Option<Exn>)
    requires start + len <= |s| && AllSucceed(s, parse, insertFailure)
    ensures var o := BatchRun(flowId, captureTime, s[start..start + len], start, parse, insertFailure);
      o.failure.None? && InsertsOf(o.events, flowId, captureTime, s[start..start + len], parse)
    decreases len
  {
    if len > 0 {
      var batch := s[start..start + len];
      var n := len - 1;
      var p := s[start + n];
      BatchAllSucceed(flowId, captureTime, s, start, n, parse, insertFailure);
      var prev := BatchRun(flowId, captureTime, s[start..start + n], start, parse, insertFailure);
      assert batch[..n] == s[start..start + n] && batch[n] == p;
      assert AttemptSucceeds(s, start + n, parse, insertFailure);
      assert BatchRun(flowId, captureTime, batch, start, parse, insertFailure)
          == Outcome(prev.events + [PriceInserted(flowId, captureTime, parse(p).value, p)], None);
      assert batch == s[start..start + n] + [p];
      InsertsConcat(prev.events, [PriceInserted(flowId, captureTime, parse(p).value, p)], flowId, captureTime,
                    s[start..start + n], [p], parse);
    }
  }

  /** With every attempt succeeding, the batches together insert every payload of the list
      exactly once, in order, all with the one capture time, and nothing fails. */
  lemma {:induction false} PersistAllSucceed(flowId: Guid, captureTime: DateTime, s: seq<PricePayload>, size: nat, k: nat,
                                             parse: DateParser, insertFailure: nat -> Option<Exn>)
    requires size >= 1 && k <= |Chunks(s, size)| && AllSucceed(s, parse, insertFailure)
    ensures var o := PersistRun(flowId, captureTime, Chunks(s, size)[..k], size, parse, insertFailure);
      o.failure.None? && InsertsOf(o.events, flowId, captureTime, s[..Min(k * size, |s|)], parse)
    decreases k
  {
    var cs := Chunks(s, size);
    if k == 0 {
      assert cs[..k] == [];
    } else {
      var c := k - 1;
      var start, end := ChunkSlice(s, size, c);
      var prev := PersistRun(flowId, captureTime, cs[..c], size, parse, insertFailure);
      var b := BatchRun(flowId, captureTime, s[start..end], start, parse, insertFailure);
      assert prev.failure.None? && InsertsOf(prev.events, flowId, captureTime, s[..start], parse) by {
        PersistAllSucceed(flowId, captureTime, s, size, c, parse, insertFailure);
      }
      assert b.failure.None? && InsertsOf(b.events, flowId, captureTime, s[start..end], parse) by {
        BatchAllSucceed(flowId, captureTime, s, start, end - start, parse, insertFailure);
      }
      assert PersistRun(flowId, captureTime, cs[..k], size, parse, insertFailure) == Outcome(prev.events + b.events, None) by {
        PersistRunSnoc(flowId, captureTime, cs, size, c, parse, insertFailure);
      }
      assert s[..end] == s[..start] + s[start..end];
      InsertsConcat(prev.events, b.events, flowId, captureTime, s[..start], s[start..end], parse);
    }
  }

  /** The bounds of batch c, as the loop computes them. */
  lemma ChunkSlice<T>(s: seq<T>, size: nat, c: nat) returns (start: nat, end: nat)
    requires size >= 1 && c < |Chunks(s, size)|
    ensures start == c * size && start < end <= |s| && end == Min(start + size, |s|)
    ensures Min(c * size, |s|) == start && Min((c + 1) * size, |s|) == end
    ensures (c + 1) * size == start + size
    ensures Chunks(s, size)[c] == s[start..end]
  {
    ChunkAt(s, size, c);
    start := c * size;
    end := Min(start + size, |s|);
    assert (c + 1) * size == start + size;
  }

  lemma PersistRunSnoc(flowId: Guid, captureTime: DateTime, cs: seq<seq<PricePayload>>, size: nat, c: nat,
                       parse: DateParser, insertFailure: nat -> Option<Exn>)
    requires c < |cs|
    ensures var prev := PersistRun(flowId, captureTime, cs[..c], size, parse, insertFailure);
      var b := BatchRun(flowId, captureTime, cs[c], c * size, parse, insertFailure);
      PersistRun(flowId, captureTime, cs[..c + 1], size, parse, insertFailure)
        == Outcome(prev.events + b.events, if prev.failure.Some? then prev.failure else b.failure)
  {
    assert cs[..c + 1][..c] == cs[..c];
  }

  lemma InsertsConcat(e1: seq<Event>, e2: seq<Event>, flowId: Guid, captureTime: DateTime,
                      p1: seq<PricePayload>, p2: seq<PricePayload>, parse: DateParser)
    requires InsertsOf(e1, flowId, captureTime, p1, parse) && InsertsOf(e2, flowId, captureTime, p2, parse)
    ensures InsertsOf(e1 + e2, flowId, captureTime, p1 + p2, parse)
  {
    forall j | 0 <= j < |p1 + p2|
      ensures InsertOf((e1 + e2)[j], flowId, captureTime, (p1 + p2)[j], parse)
    {
      if j >= |p1| {
        assert (e1 + e2)[j] == e2[j - |p1|];
      }
    }
  }

  /** The whole list is inserted, and nothing fails, exactly when the loop has seen every
      batch and every attempt succeeded. */
  lemma PersistEveryPayloadOnce(flowId: Guid, captureTime: DateTime, s: seq<PricePayload>, size: nat,
                                parse: DateParser, insertFailure: nat -> Option<Exn>)
    requires size >= 1 && AllSucceed(s, parse, insertFailure)
    ensures var o := PersistRun(flowId, captureTime, Chunks(s, size), size, parse, insertFailure);
      o.failure.None? && InsertsOf(o.events, flowId, captureTime, s, parse)
  {
    var cs := Chunks(s, size);
    PersistAllSucceed(flowId, captureTime, s, size, |cs|, parse, insertFailure);
    ChunkCountCovers(s, size);
    assert cs[..|cs|] == cs;
    assert s[..Min(|cs| * size, |s|)] == s;
  }

  /** Task.WhenAll: the run fails exactly when some batch fails, and then with the failure
      of the first batch that did; a failed batch does not stop the batches after it. */
  lemma {:induction false} FirstBatchFailureWins(flowId: Guid, captureTime: DateTime, chunks: seq<seq<PricePayload>>, size: nat,
                                                 parse: DateParser, insertFailure: nat -> Option<Exn>)
    ensures var o := PersistRun(flowId, captureTime, chunks, size, parse, insertFailure);
      && (o.failure.None? <==>
          forall k | 0 <= k < |chunks| :: BatchRun(flowId, captureTime, chunks[k], k * size, parse, insertFailure).failure.None?)
      && (o.failure.Some? ==> exists k | 0 <= k < |chunks| ::
            && o.failure == BatchRun(flowId, captureTime, chunks[k], k * size, parse, insertFailure).failure
            && forall m | 0 <= m < k :: BatchRun(flowId, captureTime, chunks[m], m * size, parse, insertFailure).failure.None?)
    decreases |chunks|
  {
    if chunks != [] {
      var k := |chunks| - 1;
      FirstBatchFailureWins(flowId, captureTime, chunks[..k], size, parse, insertFailure);
      assert forall m | 0 <= m < k :: chunks[..k][m] == chunks[m];
    }
  }

  /** Whatever fails, every insert made carries the flow id and the one capture time, and
      inserts one of the payloads of the batches. */
  lemma {:induction false} InsertsShareFlowAndTime(flowId: Guid, captureTime: DateTime, chunks: seq<seq<PricePayload>>, size: nat,
                                                   parse: DateParser, insertFailure: nat -> Option<Exn>)
    ensures forall e | e in PersistRun(flowId, captureTime, chunks, size, parse, insertFailure).events ::
      e.PriceInserted? && e.flowId == flowId && e.dataCapture == captureTime && e.payload in Flatten(chunks)
    decreases |chunks|
  {
    if chunks != [] {
      var k := |chunks| - 1;
      InsertsShareFlowAndTime(flowId, captureTime, chunks[..k], size, parse, insertFailure);
      BatchInsertsShare(flowId, captureTime, chunks[k], k * size, parse, insertFailure);
      FlattenSnoc(chunks);
    }
  }

  lemma {:induction false} BatchInsertsShare(flowId: Guid, captureTime: DateTime, batch: seq<PricePayload>, start: nat,
                                             parse: DateParser, insertFailure: nat -> Option<Exn>)
    ensures forall e | e in BatchRun(flowId, captureTime, batch, start, parse, insertFailure).events ::
      e.PriceInserted? && e.flowId == flowId && e.dataCapture == captureTime && e.payload in batch
    decreases |batch|
  {
    if batch != [] {
      var n := |batch| - 1;
      BatchInsertsShare(flowId, captureTime, batch[..n], start, parse, insertFailure);
      assert forall p | p in batch[..n] :: p in batch;
    }
  }

  lemma {:induction false} FlattenSnoc<T>(ss: seq<seq<T>>)
    requires ss != []
    ensures Flatten(ss) == Flatten(ss[..|ss| - 1]) + ss[|ss| - 1]
    decreases |ss|
  {
    if |ss| > 1 {
      FlattenSnoc(ss[1..]);
      assert ss[1..][..|ss| - 2] == ss[..|ss| - 1][1..];
    }
  }
}
