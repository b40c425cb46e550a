/**
 * Apply-once bookkeeping shared by the search-index migrations and the data
 * fixtures: the names already recorded are skipped, the others run in list
 * order, and their names are recorded in one insert once all have
 * succeeded.  What a step does when it runs is not modelled; `outcome` says
 * whether it succeeds.
 */
module PendingRunner {
  import opened Wrappers
  import opened AppErrors

  /** The steps whose name is not recorded yet, in list order. */
  function Pending(steps: seq<string>, recorded: seq<string>): (p: seq<string>)
    ensures |p| <= |steps|
  {
    if steps == [] then []
    else
      var rest := Pending(steps[1..], recorded);
      if steps[0] in recorded then rest else [steps[0]] + rest
  }

  /** Every pending step is one of the steps and is not recorded. */
  lemma {:induction false} PendingAreNew(steps: seq<string>, recorded: seq<string>)
    ensures forall i :: 0 <= i < |Pending(steps, recorded)| ==>
              Pending(steps, recorded)[i] in steps && Pending(steps, recorded)[i] !in recorded
  {
    if steps != [] {
      PendingAreNew(steps[1..], recorded);
    }
  }

  /** No step that is not recorded is skipped, and each is taken in its place. */
  lemma {:induction false} PendingAppend(a: seq<string>, b: seq<string>, recorded: seq<string>)
    ensures Pending(a + b, recorded) == Pending(a, recorded) + Pending(b, recorded)
  {
    if a == [] {
      assert a + b == b;
    } else {
      assert (a + b)[1..] == a[1..] + b;
      PendingAppend(a[1..], b, recorded);
    }
  }

  lemma {:induction false} PendingKeepsNew(steps: seq<string>, recorded: seq<string>, i: nat)
    requires i < |steps| && steps[i] !in recorded
    ensures steps[i] in Pending(steps, recorded)
  {
    if i > 0 {
      PendingKeepsNew(steps[1..], recorded, i - 1);
    }
  }

  /** Once every pending step is recorded, nothing is pending any more. */
  lemma {:induction false} NothingPendingAfterRecording(steps: seq<string>, recorded: seq<string>, extra: seq<string>)
    requires forall i :: 0 <= i < |steps| ==> steps[i] in recorded || steps[i] in extra
    ensures Pending(steps, recorded + extra) == []
  {
    if steps != [] {
      NothingPendingAfterRecording(steps[1..], recorded, extra);
    }
  }

  /** Each step is either recorded already or pending. */
  lemma NotPendingMeansRecorded(steps: seq<string>, recorded: seq<string>, i: nat)
    requires i < |steps|
    ensures steps[i] in recorded || steps[i] in Pending(steps, recorded)
  {
    if steps[i] !in recorded {
      PendingKeepsNew(steps, recorded, i);
    }
  }

  lemma RerunFindsNothing(steps: seq<string>, recorded: seq<string>)
    ensures Pending(steps, recorded + Pending(steps, recorded)) == []
  {
    var p := Pending(steps, recorded);
    forall i | 0 <= i < |steps| && steps[i] !in recorded
      ensures steps[i] in p
    {
      PendingKeepsNew(steps, recorded, i);
    }
    NothingPendingAfterRecording(steps, recorded, p);
  }

  /** A table of applied names and the number of insert statements written to it. */
  class RecordTable {
    var recorded: seq<string>
    var inserts: nat

    constructor (recorded: seq<string>)
      ensures this.recorded == recorded && inserts == 0
    {
      this.recorded := recorded;
      inserts := 0;
    }

    /**
     * Run the pending steps in order, stopping at the first failure (whose
     * error is returned), and record all of them with one insert only when
     * every one succeeded and there was at least one.  `ran` is the names
     * run, the failing one included.
     */
    method RunPending(steps: seq<string>, outcome: string -> Result<(), AppError>)
      returns (r: Result<(), AppError>, ran: seq<string>)
      modifies this
      ensures |ran| <= |Pending(steps, old(recorded))|
      ensures ran == Pending(steps, old(recorded))[..|ran|]
      ensures r.Ok? <==> forall j :: 0 <= j < |Pending(steps, old(recorded))| ==> outcome(Pending(steps, old(recorded))[j]).Ok?
      ensures r.Ok? ==> ran == Pending(steps, old(recorded))
      ensures r.Ok? ==> recorded == old(recorded) + ran
      ensures r.Ok? ==> inserts == old(inserts) + (if ran == [] then 0 else 1)
      ensures r.Err? ==> ran != [] && outcome(ran[|ran| - 1]).Err? && r == Err(outcome(ran[|ran| - 1]).error)
      ensures r.Err? ==> forall j :: 0 <= j < |ran| - 1 ==> outcome(ran[j]).Ok?
      ensures r.Err? ==> recorded == old(recorded) && inserts == old(inserts)
    {
      var pending := Pending(steps, recorded);
      var executed: seq<string> := [];
      var i := 0;
      while i < |pending|
        invariant 0 <= i <= |pending|
        invariant executed == pending[..i]
        invariant forall j :: 0 <= j < i ==> outcome(pending[j]).Ok?
      {
        var step := pending[i];
        var result := outcome(step);
        if result.Err? {
          return Err(result.error), executed + [step];
        }
        executed := executed + [step];
        i := i + 1;
      }
      assert executed == pending;
      if executed != [] {
        recorded := recorded + executed;
        inserts := inserts + 1;
      }
      r, ran := Ok(()), executed;
    }
  }
}
