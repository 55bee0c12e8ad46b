/**
  One cycle of the periodic re-reflection scheduler, as a specification: which
  candidates are uploaded, grouped into the batches that are awaited one after
  the other.
 */
module Reflection {
  import opened Streams

  /** The effective batch size: a limit below one still lets one upload through. */
  function BatchLimit(concurrent: int): (n: nat)
    ensures n >= 1 && n >= concurrent
    ensures concurrent >= 1 ==> n == concurrent
  {
    if concurrent < 1 then 1 else concurrent
  }

  /** What a cycle reads besides the candidate list. */
  datatype Cycle = Cycle(
    registry: map<SdHash, Stream>,
    verified: set<BlobHash>,     // sd blobs the blob manager reports verified
    completed: set<SdHash>,      // streams whose blobs are all present
    inFlight: set<SdHash>,       // keys of the in-flight upload table when the cycle starts
    concurrent: int)             // concurrent_reflector_uploads

  /** The four conditions under which a stream is enqueued, `busy` being the in-flight keys. */
  predicate Eligible(c: Cycle, s: Stream, busy: set<SdHash>)
  {
    s.sdHash in c.verified && s.sdHash in c.completed && s.sdHash !in busy && !s.fullyReflected
  }

  /**
    The candidates that are registered, each as often as the storage listed
    it, in the order it listed them (see `PresentConcat`).
   */
  function Present(registry: map<SdHash, Stream>, candidates: seq<SdHash>): (r: seq<SdHash>)
    ensures forall i :: 0 <= i < |r| ==> r[i] in registry
    ensures forall sd :: sd in r <==> sd in candidates && sd in registry
    ensures forall sd :: multiset(r)[sd] == if sd in registry then multiset(candidates)[sd] else 0
  {
    if candidates == [] then []
    else
      var rest := Present(registry, candidates[..|candidates| - 1]);
      var last := candidates[|candidates| - 1];
      assert candidates == candidates[..|candidates| - 1] + [last];
      assert forall sd :: sd in candidates <==> sd in candidates[..|candidates| - 1] || sd == last;
      if last in registry then rest + [last] else rest
  }

  /** Filtering a concatenation is concatenating the filterings: the filter keeps the storage order. */
  lemma {:induction false} PresentConcat(registry: map<SdHash, Stream>, a: seq<SdHash>, b: seq<SdHash>)
    ensures Present(registry, a + b) == Present(registry, a) + Present(registry, b)
    decreases |b|
  {
    if b == [] {
      assert a + b == a;
    } else {
      var b' := b[..|b| - 1];
      assert (a + b)[..|a + b| - 1] == a + b';
      assert (a + b)[|a + b| - 1] == b[|b| - 1];
      PresentConcat(registry, a, b');
    }
  }

  /**
    The batches awaited while `pending` is popped from its end, `batch` being
    the uploads enqueued since the last flush. A batch is flushed as soon as its
    length reaches the configured limit, and once more at the end if non-empty.
   */
  function Plan(c: Cycle, pending: seq<SdHash>, batch: seq<SdHash>): (r: seq<seq<SdHash>>)
    requires forall i :: 0 <= i < |pending| ==> pending[i] in c.registry
    ensures c.concurrent >= 1 && (batch == [] || |batch| < c.concurrent) ==> forall k :: 0 <= k < |r| ==> r[k] != []
    ensures c.concurrent < 1 && batch == [] ==> |r| == |pending|
    decreases |pending|
  {
    if pending == [] then
      if batch == [] then [] else [batch]
    else
      var s := c.registry[pending[|pending| - 1]];
      var batch' := if Eligible(c, s, c.inFlight + Members(batch)) then batch + [s.sdHash] else batch;
      if |batch'| >= c.concurrent then [batch'] + Plan(c, pending[..|pending| - 1], [])
      else Plan(c, pending[..|pending| - 1], batch')
  }

  /** Whether `sd` is uploaded in one of the batches. */
  predicate Enqueued(batches: seq<seq<SdHash>>, sd: SdHash)
  {
    exists k :: 0 <= k < |batches| && sd in batches[k]
  }

  /** One pop of the cycle's loop, as `Plan` unfolds it. */
  lemma PlanStep(c: Cycle, pending: seq<SdHash>, batch: seq<SdHash>, batch': seq<SdHash>)
    requires pending != [] && forall i :: 0 <= i < |pending| ==> pending[i] in c.registry
    requires batch' == if Eligible(c, c.registry[pending[|pending| - 1]], c.inFlight + Members(batch))
                       then batch + [c.registry[pending[|pending| - 1]].sdHash] else batch
    ensures Plan(c, pending, batch) == if |batch'| >= c.concurrent then [batch'] + Plan(c, pending[..|pending| - 1], [])
                                       else Plan(c, pending[..|pending| - 1], batch')
  {
  }

  /**
    The batches of a whole cycle over the storage's candidate list. With a
    positive limit no batch is empty; with a limit below one, every registered
    candidate popped awaits a batch of its own, empty or not.
   */
  function Batches(c: Cycle, candidates: seq<SdHash>): (r: seq<seq<SdHash>>)
    ensures c.concurrent >= 1 ==> forall k :: 0 <= k < |r| ==> r[k] != []
    ensures c.concurrent < 1 ==> |r| == |Present(c.registry, candidates)|
  {
    Plan(c, Present(c.registry, candidates), [])
  }

  /** No awaited batch holds more than `max(1, concurrent_reflector_uploads)` uploads. */
  lemma {:induction false} PlanBounded(c: Cycle, pending: seq<SdHash>, batch: seq<SdHash>)
    requires forall i :: 0 <= i < |pending| ==> pending[i] in c.registry
    requires |batch| < BatchLimit(c.concurrent)
    ensures forall k :: 0 <= k < |Plan(c, pending, batch)| ==> |Plan(c, pending, batch)[k]| <= BatchLimit(c.concurrent)
  {
    if pending != [] {
      var s := c.registry[pending[|pending| - 1]];
      var batch' := if Eligible(c, s, c.inFlight + Members(batch)) then batch + [s.sdHash] else batch;
      if |batch'| >= c.concurrent {
        PlanBounded(c, pending[..|pending| - 1], []);
      } else {
        PlanBounded(c, pending[..|pending| - 1], batch');
      }
    }
  }

  /**
    Within a batch no sd hash occurs twice, and no batch holds a stream that was
    already uploading when the cycle started.
   */
  lemma {:induction false} PlanDistinct(c: Cycle, pending: seq<SdHash>, batch: seq<SdHash>)
    requires forall i :: 0 <= i < |pending| ==> pending[i] in c.registry
    requires forall i, j :: 0 <= i < j < |batch| ==> batch[i] != batch[j]
    requires forall i :: 0 <= i < |batch| ==> batch[i] !in c.inFlight
    ensures forall k, i, j :: 0 <= k < |Plan(c, pending, batch)| && 0 <= i < j < |Plan(c, pending, batch)[k]|
              ==> Plan(c, pending, batch)[k][i] != Plan(c, pending, batch)[k][j]
    ensures forall k, i :: 0 <= k < |Plan(c, pending, batch)| && 0 <= i < |Plan(c, pending, batch)[k]|
              ==> Plan(c, pending, batch)[k][i] !in c.inFlight
  {
    if pending != [] {
      var s := c.registry[pending[|pending| - 1]];
      var batch' := if Eligible(c, s, c.inFlight + Members(batch)) then batch + [s.sdHash] else batch;
      if |batch'| >= c.concurrent {
        PlanDistinct(c, pending[..|pending| - 1], []);
      } else {
        PlanDistinct(c, pending[..|pending| - 1], batch');
      }
    }
  }

  /**
    Every enqueued stream is registered, has a verified sd blob and complete
    blobs, and is not fully reflected.
   */
  lemma {:induction false} PlanEligible(c: Cycle, pending: seq<SdHash>, batch: seq<SdHash>)
    requires Keyed(c.registry)
    requires forall i :: 0 <= i < |pending| ==> pending[i] in c.registry
    requires forall sd :: sd in batch ==> sd in c.registry && Eligible(c, c.registry[sd], c.inFlight)
    ensures forall k, sd :: 0 <= k < |Plan(c, pending, batch)| && sd in Plan(c, pending, batch)[k]
              ==> sd in c.registry && Eligible(c, c.registry[sd], c.inFlight)
  {
    if pending != [] {
      var s := c.registry[pending[|pending| - 1]];
      var batch' := if Eligible(c, s, c.inFlight + Members(batch)) then batch + [s.sdHash] else batch;
      if |batch'| >= c.concurrent {
        PlanEligible(c, pending[..|pending| - 1], []);
      } else {
        PlanEligible(c, pending[..|pending| - 1], batch');
      }
    }
  }

  /**
    Conversely, every registered candidate that meets the four conditions when
    the cycle starts is uploaded in some batch of the cycle.
   */
  lemma {:induction false} PlanCovers(c: Cycle, pending: seq<SdHash>, batch: seq<SdHash>)
    requires Keyed(c.registry)
    requires forall i :: 0 <= i < |pending| ==> pending[i] in c.registry
    ensures forall sd :: sd in batch ==> Enqueued(Plan(c, pending, batch), sd)
    ensures forall sd :: sd in pending && Eligible(c, c.registry[sd], c.inFlight)
              ==> Enqueued(Plan(c, pending, batch), sd)
  {
    var P := Plan(c, pending, batch);
    if pending == [] {
      if batch != [] {
        assert P == [batch];
        forall sd | sd in batch ensures Enqueued(P, sd) {
          assert 0 < |P| && P[0] == batch;
        }
      }
    } else {
      var rest := pending[..|pending| - 1];
      var s := c.registry[pending[|pending| - 1]];
      var batch' := if Eligible(c, s, c.inFlight + Members(batch)) then batch + [s.sdHash] else batch;
      assert pending[|pending| - 1] in batch' ==> s.sdHash in batch';
      assert forall sd :: sd in pending ==> sd in rest || sd == s.sdHash;
      if |batch'| >= c.concurrent {
        PlanCovers(c, rest, []);
        var R := Plan(c, rest, []);
        assert P == [batch'] + R;
        forall sd | sd in batch' ensures Enqueued(P, sd) {
          assert sd in P[0];
        }
        forall sd | sd in rest && Eligible(c, c.registry[sd], c.inFlight)
          ensures Enqueued(P, sd)
        {
          var k :| 0 <= k < |R| && sd in R[k];
          assert sd in P[k + 1];
        }
      } else {
        PlanCovers(c, rest, batch');
      }
    }
  }

  /** The four properties of a whole cycle, from the lemmas above. */
  lemma CycleProperties(c: Cycle, candidates: seq<SdHash>)
    requires Keyed(c.registry)
    ensures forall k :: 0 <= k < |Batches(c, candidates)| ==> |Batches(c, candidates)[k]| <= BatchLimit(c.concurrent)
    ensures forall k, i, j :: 0 <= k < |Batches(c, candidates)| && 0 <= i < j < |Batches(c, candidates)[k]|
              ==> Batches(c, candidates)[k][i] != Batches(c, candidates)[k][j]
    ensures forall k, sd :: 0 <= k < |Batches(c, candidates)| && sd in Batches(c, candidates)[k]
              ==> sd in candidates && sd in c.registry && Eligible(c, c.registry[sd], c.inFlight)
    ensures forall sd :: sd in candidates && sd in c.registry && Eligible(c, c.registry[sd], c.inFlight)
              ==> Enqueued(Batches(c, candidates), sd)
  {
    var pending := Present(c.registry, candidates);
    PlanBounded(c, pending, []);
    PlanDistinct(c, pending, []);
    PlanEligible(c, pending, []);
    PlanCovers(c, pending, []);
    PlanWithin(c, pending, []);
    forall sd | sd in candidates && sd in c.registry && Eligible(c, c.registry[sd], c.inFlight)
      ensures Enqueued(Batches(c, candidates), sd)
    {
      assert sd in pending;
      assert Enqueued(Plan(c, pending, []), sd);
    }
  }

  /** Every enqueued sd hash is a candidate or was already in the current batch. */
  lemma {:induction false} PlanWithin(c: Cycle, pending: seq<SdHash>, batch: seq<SdHash>)
    requires Keyed(c.registry)
    requires forall i :: 0 <= i < |pending| ==> pending[i] in c.registry
    ensures forall k, sd :: 0 <= k < |Plan(c, pending, batch)| && sd in Plan(c, pending, batch)[k]
              ==> sd in pending || sd in batch
  {
    if pending != [] {
      var rest := pending[..|pending| - 1];
      var s := c.registry[pending[|pending| - 1]];
      var batch' := if Eligible(c, s, c.inFlight + Members(batch)) then batch + [s.sdHash] else batch;
      assert forall sd :: sd in rest ==> sd in pending;
      if |batch'| >= c.concurrent {
        PlanWithin(c, rest, []);
      } else {
        PlanWithin(c, rest, batch');
      }
    }
  }
}
