/**
 * The offline-first data gateway (src/lib/data-gateway.ts): every public call records its
 * data in the local blob and appends one pending operation to a queue, and a flush sends
 * the queue to the hosted database, keeping only the operations whose write failed.
 * The local blob's fields and the queue are fields of a class; the database writes, the
 * session lookup and the online flag are parameters of the flush.
 */
module DataGateway {
  import opened Wrappers
  import Lists

  datatype KycStatus = Draft | Submitted | Approved | Rejected

  /** The mini-game a result belongs to. */
  datatype Kind = Ex00 | Deus00 | Machina00

  /** The JSON payloads are carried as opaque text. */
  type Payload = string

  datatype PendingOp =
    | OnboardingOp(step: string, payload: Payload, at: string)
    | KycOp(status: KycStatus, data: Payload, at: string)
    | ResultOp(kind: Kind, payload: Payload, at: string)

  datatype StepEntry = StepEntry(step: string, payload: Payload, completedAt: string)

  datatype KycRecord = KycRecord(status: KycStatus, data: Payload, updatedAt: string)

  datatype ResultEntry = ResultEntry(kind: Kind, payload: Payload, createdAt: string)

  /** The entries for other steps, in their order. */
  function OtherSteps(steps: seq<StepEntry>, step: string): (r: seq<StepEntry>)
    ensures |r| <= |steps|
    ensures forall e :: e in r <==> e in steps && e.step != step
  {
    Lists.Filter(steps, (e: StepEntry) => e.step != step)
  }

  /** Dropping a step's entries distributes over concatenation: the others keep their order. */
  lemma {:induction false} OtherStepsAppend(a: seq<StepEntry>, b: seq<StepEntry>, step: string)
    ensures OtherSteps(a + b, step) == OtherSteps(a, step) + OtherSteps(b, step)
  {
    Lists.FilterAppend(a, b, (e: StepEntry) => e.step != step);
  }

  /** One entry is kept exactly when it is for another step. */
  lemma OtherStepsOne(e: StepEntry, step: string)
    ensures OtherSteps([e], step) == if e.step == step then [] else [e]
  {
    assert [e][1..] == [];
  }

  /** How many entries are for the given step. */
  function CountStep(steps: seq<StepEntry>, step: string): nat {
    if steps == [] then 0 else (if steps[0].step == step then 1 else 0) + CountStep(steps[1..], step)
  }

  lemma {:induction false} CountOtherSteps(steps: seq<StepEntry>, step: string)
    ensures CountStep(OtherSteps(steps, step), step) == 0
  {
    if steps != [] {
      CountOtherSteps(steps[1..], step);
      var rest := OtherSteps(steps[1..], step);
      if steps[0].step != step {
        assert ([steps[0]] + rest)[1..] == rest;
      } else {
        assert [] + rest == rest;
      }
    }
  }

  /** When no entry is for the step, dropping its entries changes nothing. */
  lemma {:induction false} OtherStepsUnchanged(steps: seq<StepEntry>, step: string)
    requires CountStep(steps, step) == 0
    ensures OtherSteps(steps, step) == steps
  {
    if steps != [] {
      OtherStepsUnchanged(steps[1..], step);
      assert [steps[0]] + steps[1..] == steps;
    }
  }

  /** After recording a step its entry is the last one and the only one for that step. */
  lemma RecordedOnce(steps: seq<StepEntry>, e: StepEntry)
    ensures var r := OtherSteps(steps, e.step) + [e];
      r[|r| - 1] == e && CountStep(r, e.step) == 1
  {
    var o := OtherSteps(steps, e.step);
    CountOtherSteps(steps, e.step);
    CountAppend(o, [e], e.step);
    assert CountStep([e], e.step) == 1 by {
      assert [e][1..] == [];
    }
  }

  lemma {:induction false} CountAppend(a: seq<StepEntry>, b: seq<StepEntry>, step: string)
    ensures CountStep(a + b, step) == CountStep(a, step) + CountStep(b, step)
  {
    if a == [] {
      assert a + b == b;
    } else {
      assert (a + b)[1..] == a[1..] + b;
      CountAppend(a[1..], b, step);
    }
  }

  /** The operations among the first n whose write failed, in queue order. */
  function Kept(q: seq<PendingOp>, writeOk: nat -> bool, n: nat): (r: seq<PendingOp>)
    requires n <= |q|
    ensures |r| <= n
  {
    if n == 0 then []
    else Kept(q, writeOk, n - 1) + (if writeOk(n - 1) then [] else [q[n - 1]])
  }

  /** An operation stays exactly when it is one whose write failed. */
  lemma {:induction false} KeptMembers(q: seq<PendingOp>, writeOk: nat -> bool, n: nat)
    requires n <= |q|
    ensures forall op :: op in Kept(q, writeOk, n) <==> exists k | 0 <= k < n :: !writeOk(k) && q[k] == op
  {
    if n > 0 {
      KeptMembers(q, writeOk, n - 1);
    }
  }

  /** Every write succeeded: nothing stays. Every write failed: the whole queue stays. */
  lemma {:induction false} KeptExtremes(q: seq<PendingOp>, writeOk: nat -> bool, n: nat)
    requires n <= |q|
    ensures (forall k | 0 <= k < n :: writeOk(k)) ==> Kept(q, writeOk, n) == []
    ensures (forall k | 0 <= k < n :: !writeOk(k)) ==> Kept(q, writeOk, n) == q[..n]
  {
    if n > 0 {
      KeptExtremes(q, writeOk, n - 1);
      assert q[..n] == q[..n - 1] + [q[n - 1]];
    }
  }

  /** The positions among the first n whose write failed, in increasing order. */
  function Failed(writeOk: nat -> bool, n: nat): (idx: seq<nat>)
    ensures |idx| <= n
  {
    if n == 0 then [] else Failed(writeOk, n - 1) + (if writeOk(n - 1) then [] else [n - 1])
  }

  /** Failed lists exactly the failed positions below n, each once and in increasing order. */
  lemma {:induction false} FailedPositions(writeOk: nat -> bool, n: nat)
    ensures var idx := Failed(writeOk, n);
      (forall a | 0 <= a < |idx| :: idx[a] < n && !writeOk(idx[a]))
      && (forall a, b | 0 <= a < b < |idx| :: idx[a] < idx[b])
      && (forall k | 0 <= k < n && !writeOk(k) :: k in idx)
  {
    if n > 0 {
      FailedPositions(writeOk, n - 1);
      var prev := Failed(writeOk, n - 1);
      if !writeOk(n - 1) {
        var idx := prev + [n - 1];
        assert Failed(writeOk, n) == idx;
        assert forall a | 0 <= a < |prev| :: idx[a] == prev[a];
      }
    }
  }

  /** Kept operations come in queue order: the k-th one kept is the queue entry at the k-th
      failed position. */
  lemma {:induction false} KeptInOrder(q: seq<PendingOp>, writeOk: nat -> bool, n: nat)
    requires n <= |q|
    ensures |Kept(q, writeOk, n)| == |Failed(writeOk, n)|
    ensures forall a | 0 <= a < |Failed(writeOk, n)| ::
      Failed(writeOk, n)[a] < |q| && Kept(q, writeOk, n)[a] == q[Failed(writeOk, n)[a]]
  {
    if n > 0 {
      KeptInOrder(q, writeOk, n - 1);
      var prev, idx := Kept(q, writeOk, n - 1), Failed(writeOk, n - 1);
      if !writeOk(n - 1) {
        var kept, failed := prev + [q[n - 1]], idx + [n - 1];
        assert Kept(q, writeOk, n) == kept;
        assert Failed(writeOk, n) == failed;
        forall a | 0 <= a < |failed|
          ensures failed[a] < |q| && kept[a] == q[failed[a]]
        {
          if a < |idx| {
            assert kept[a] == prev[a];
            assert failed[a] == idx[a];
          }
        }
      } else {
        assert Kept(q, writeOk, n) == prev;
        assert Failed(writeOk, n) == idx;
      }
    }
  }

  class Gateway {
    /** `onboarding.steps` of the local blob. */
    var steps: seq<StepEntry>
    /** `kyc` of the local blob. */
    var kyc: Option<KycRecord>
    /** `results` of the local blob, newest first. */
    var results: seq<ResultEntry>
    /** The pending-operations queue. */
    var queue: seq<PendingOp>

    constructor ()
      ensures steps == [] && kyc == None && results == [] && queue == []
    {
      steps, kyc, results, queue := [], None, [], [];
    }

    /** `enqueue(op)`: the operation goes to the end of the queue. */
    method Enqueue(op: PendingOp)
      modifies this
      ensures queue == old(queue) + [op]
      ensures steps == old(steps) && kyc == old(kyc) && results == old(results)
    {
      queue := queue + [op];
    }

    /** `recordOnboarding(step, payload)`; `now` is the current ISO timestamp. */
    method RecordOnboarding(step: string, payload: Payload, now: string)
      modifies this
      ensures steps == OtherSteps(old(steps), step) + [StepEntry(step, payload, now)]
      ensures queue == old(queue) + [OnboardingOp(step, payload, now)]
      ensures kyc == old(kyc) && results == old(results)
    {
      steps := OtherSteps(steps, step) + [StepEntry(step, payload, now)];
      Enqueue(OnboardingOp(step, payload, now));
    }

    /** `submitKyc(data)`: the record is replaced by a submitted one. */
    method SubmitKyc(data: Payload, now: string)
      modifies this
      ensures kyc == Some(KycRecord(Submitted, data, now))
      ensures queue == old(queue) + [KycOp(Submitted, data, now)]
      ensures steps == old(steps) && results == old(results)
    {
      kyc := Some(KycRecord(Submitted, data, now));
      Enqueue(KycOp(Submitted, data, now));
    }

    /** `saveResult(kind, payload)`: the new result goes first. */
    method SaveResult(kind: Kind, payload: Payload, now: string)
      modifies this
      ensures results == [ResultEntry(kind, payload, now)] + old(results)
      ensures queue == old(queue) + [ResultOp(kind, payload, now)]
      ensures steps == old(steps) && kyc == old(kyc)
    {
      results := [ResultEntry(kind, payload, now)] + results;
      Enqueue(ResultOp(kind, payload, now));
    }

    /** `flushQueue()`. `hasUser` is whether the session has a user id, `online` is
        `navigator.onLine`, and `writeOk(k)` whether the write of the k-th queued operation
        went through. */
    method FlushQueue(hasUser: bool, online: bool, writeOk: nat -> bool)
      modifies this
      ensures old(queue) == [] || !hasUser || !online ==> queue == old(queue)
      ensures old(queue) != [] && hasUser && online ==> queue == Kept(old(queue), writeOk, |old(queue)|)
      ensures steps == old(steps) && kyc == old(kyc) && results == old(results)
    {
      var q := queue;
      if |q| == 0 {
        return;
      }
      if !hasUser || !online {
        return;
      }
      var remain: seq<PendingOp> := [];
      var k := 0;
      while k < |q|
        invariant k <= |q|
        invariant remain == Kept(q, writeOk, k)
      {
        if !writeOk(k) {
          remain := remain + [q[k]];
        }
        k := k + 1;
      }
      queue := remain;
    }
  }
}
