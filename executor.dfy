/** The execution pass of the organizer (`execute_plan`): for every planned
    move, create the destination folder and move the file, counting moves
    that succeed and moves that fail without stopping the run.

    The disk is a set of existing paths. Whether the folder creation and the
    move succeed is decided by the operating system; the model takes those
    results as an input, one outcome per planned move. */
module Executor {
  import opened Paths
  import opened Planner

  /** What happened to one planned move. */
  datatype Outcome =
    | ParentFailed     // creating the destination folder raised an OS error
    | MoveFailed       // the folder exists, the move itself raised an OS error
    | MovedUnreported  // the file was moved, but reporting the move raised an OS error
    | Moved            // the file now lives at its destination and the move was reported

  /** The file reached its destination, whether or not the move was reported. */
  predicate Arrived(outcome: Outcome)
  {
    outcome == Moved || outcome == MovedUnreported
  }

  /** The disk after one planned move with the given outcome. */
  function Step(disk: set<string>, op: MoveOp, outcome: Outcome): set<string>
  {
    match outcome
    case ParentFailed => disk
    case MoveFailed => disk + {Parent(op.destination)}
    case MovedUnreported => (disk + {Parent(op.destination)}) - {op.source} + {op.destination}
    case Moved => (disk + {Parent(op.destination)}) - {op.source} + {op.destination}
  }

  /** The disk after executing a plan move by move. */
  function Run(disk: set<string>, plan: seq<MoveOp>, outcomes: seq<Outcome>): set<string>
    requires |outcomes| == |plan|
    decreases |plan|
  {
    if plan == [] then disk
    else Step(Run(disk, plan[..|plan| - 1], outcomes[..|plan| - 1]), plan[|plan| - 1], outcomes[|plan| - 1])
  }

  /** A move that gets past creating its folder leaves that folder on disk.
      The disk does not tell files from folders, so the model also admits a
      move whose source is that very path, which then takes it away; the
      operating system refuses such a run, because creating a folder where a
      file stands fails. */
  lemma StepCreatesParent(disk: set<string>, op: MoveOp, outcome: Outcome)
    requires outcome != ParentFailed
    ensures outcome == MoveFailed || op.source != Parent(op.destination) ==>
      Parent(op.destination) in Step(disk, op, outcome)
  {
  }

  /** Executing one more move applies one more step. */
  lemma RunSnoc(disk: set<string>, plan: seq<MoveOp>, outcomes: seq<Outcome>, op: MoveOp, outcome: Outcome)
    requires |outcomes| == |plan|
    ensures Run(disk, plan + [op], outcomes + [outcome]) == Step(Run(disk, plan, outcomes), op, outcome)
  {
    assert (plan + [op])[..|plan|] == plan;
    assert (outcomes + [outcome])[..|plan|] == outcomes;
  }

  /** Number of successful moves. */
  function Moves(outcomes: seq<Outcome>): nat
    decreases |outcomes|
  {
    if outcomes == [] then 0
    else Moves(outcomes[..|outcomes| - 1]) + (if outcomes[|outcomes| - 1] == Moved then 1 else 0)
  }

  /** Number of moves skipped because of an OS error. */
  function Failures(outcomes: seq<Outcome>): nat
    decreases |outcomes|
  {
    if outcomes == [] then 0
    else Failures(outcomes[..|outcomes| - 1]) + (if outcomes[|outcomes| - 1] == Moved then 0 else 1)
  }

  /** One more outcome adds one to exactly one of the two counts. */
  lemma CountsSnoc(outcomes: seq<Outcome>, outcome: Outcome)
    ensures Moves(outcomes + [outcome]) == Moves(outcomes) + (if outcome == Moved then 1 else 0)
    ensures Failures(outcomes + [outcome]) == Failures(outcomes) + (if outcome == Moved then 0 else 1)
  {
    assert (outcomes + [outcome])[..|outcomes|] == outcomes;
  }

  /** Every planned move is counted once, as moved or as skipped: an error
      on one file does not end the run. */
  lemma {:induction false} MovesAndFailures(outcomes: seq<Outcome>)
    ensures Moves(outcomes) + Failures(outcomes) == |outcomes|
    ensures Moves(outcomes) == |outcomes| <==> forall i :: 0 <= i < |outcomes| ==> outcomes[i] == Moved
    decreases |outcomes|
  {
    if outcomes != [] {
      var init := outcomes[..|outcomes| - 1];
      MovesAndFailures(init);
      assert forall i :: 0 <= i < |init| ==> init[i] == outcomes[i];
    }
  }

  /** Executing the prefix of length i + 1 is executing the prefix of
      length i and then move i. */
  lemma PrefixStep(disk: set<string>, plan: seq<MoveOp>, outcomes: seq<Outcome>, i: nat)
    requires |outcomes| == |plan| && i < |plan|
    ensures Run(disk, plan[..i + 1], outcomes[..i + 1]) == Step(Run(disk, plan[..i], outcomes[..i]), plan[i], outcomes[i])
    ensures Moves(outcomes[..i + 1]) == Moves(outcomes[..i]) + (if outcomes[i] == Moved then 1 else 0)
    ensures Failures(outcomes[..i + 1]) == Failures(outcomes[..i]) + (if outcomes[i] == Moved then 0 else 1)
  {
    assert plan[..i + 1] == plan[..i] + [plan[i]];
    assert outcomes[..i + 1] == outcomes[..i] + [outcomes[i]];
    RunSnoc(disk, plan[..i], outcomes[..i], plan[i], outcomes[i]);
    CountsSnoc(outcomes[..i], outcomes[i]);
  }

  /** The execution loop. For an empty plan nothing is done and both counts
      are zero. */
  method ExecutePlan(plan: seq<MoveOp>, outcomes: seq<Outcome>, disk: set<string>)
    returns (moved: nat, skipped: nat, after: set<string>)
    requires |outcomes| == |plan|
    ensures moved == Moves(outcomes) && skipped == Failures(outcomes)
    ensures moved + skipped == |plan|
    ensures after == Run(disk, plan, outcomes)
  {
    if plan == [] {
      return 0, 0, disk;
    }
    moved, skipped, after := 0, 0, disk;
    for i := 0 to |plan|
      invariant moved == Moves(outcomes[..i]) && skipped == Failures(outcomes[..i])
      invariant after == Run(disk, plan[..i], outcomes[..i])
    {
      var move, outcome := plan[i], outcomes[i];
      ghost var before := after;
      if outcome != ParentFailed {
        after := after + {Parent(move.destination)};
      }
      if outcome == Moved || outcome == MovedUnreported {
        after := after - {move.source} + {move.destination};
      }
      if outcome == Moved {
        moved := moved + 1;
      } else {
        skipped := skipped + 1;
      }
      assert after == Step(before, move, outcome);
      PrefixStep(disk, plan, outcomes, i);
    }
    assert plan[..|plan|] == plan;
    assert outcomes[..|plan|] == outcomes;
    MovesAndFailures(outcomes);
  }

  /** A move whose destination folder could not be created leaves no trace
      on the disk: the run goes on as if it had not been planned. */
  lemma {:induction false} FailedMoveIsHarmless(
    disk: set<string>, before: seq<MoveOp>, op: MoveOp, after: seq<MoveOp>,
    outcomesBefore: seq<Outcome>, outcomesAfter: seq<Outcome>)
    requires |outcomesBefore| == |before| && |outcomesAfter| == |after|
    ensures Run(disk, before + [op] + after, outcomesBefore + [ParentFailed] + outcomesAfter) ==
            Run(disk, before + after, outcomesBefore + outcomesAfter)
    decreases |after|
  {
    if after == [] {
      assert before + [op] + after == before + [op];
      assert outcomesBefore + [ParentFailed] + outcomesAfter == outcomesBefore + [ParentFailed];
      assert before + after == before;
      assert outcomesBefore + outcomesAfter == outcomesBefore;
      RunSnoc(disk, before, outcomesBefore, op, ParentFailed);
    } else {
      var rest, last := after[..|after| - 1], after[|after| - 1];
      var orest, olast := outcomesAfter[..|after| - 1], outcomesAfter[|after| - 1];
      assert before + [op] + after == (before + [op] + rest) + [last];
      assert outcomesBefore + [ParentFailed] + outcomesAfter == (outcomesBefore + [ParentFailed] + orest) + [olast];
      assert before + after == (before + rest) + [last];
      assert outcomesBefore + outcomesAfter == (outcomesBefore + orest) + [olast];
      FailedMoveIsHarmless(disk, before, op, rest, outcomesBefore, orest);
      RunSnoc(disk, before + [op] + rest, outcomesBefore + [ParentFailed] + orest, last, olast);
      RunSnoc(disk, before + rest, outcomesBefore + orest, last, olast);
    }
  }

  /** No move of the plan takes its file from a path another move fills. */
  predicate SourcesAreNotDestinations(plan: seq<MoveOp>)
  {
    forall i, j :: 0 <= i < |plan| && 0 <= j < |plan| ==> plan[i].source != plan[j].destination
  }

  /** When no source is a destination, every file that reached its
      destination is still there at the end of the run, whatever happened
      to the other moves. */
  lemma {:induction false} ArrivedFilesStay(disk: set<string>, plan: seq<MoveOp>, outcomes: seq<Outcome>)
    requires |outcomes| == |plan|
    requires SourcesAreNotDestinations(plan)
    ensures forall i :: 0 <= i < |plan| && Arrived(outcomes[i]) ==> plan[i].destination in Run(disk, plan, outcomes)
    decreases |plan|
  {
    if plan != [] {
      var init, oinit := plan[..|plan| - 1], outcomes[..|plan| - 1];
      assert forall i :: 0 <= i < |init| ==> init[i] == plan[i];
      assert forall i :: 0 <= i < |oinit| ==> oinit[i] == outcomes[i];
      ArrivedFilesStay(disk, init, oinit);
      var last := plan[|plan| - 1];
      forall i | 0 <= i < |plan| && Arrived(outcomes[i])
        ensures plan[i].destination in Run(disk, plan, outcomes)
      {
        if i < |init| {
          assert last.source != plan[i].destination;
        }
      }
    }
  }

  /** A move whose report fails changes the disk exactly as a reported move
      does, yet it is counted as skipped instead of moved. */
  lemma UnreportedMoveIsCountedAsSkipped(
    disk: set<string>, plan: seq<MoveOp>, outcomes: seq<Outcome>, i: nat)
    requires |outcomes| == |plan| && i < |outcomes| && outcomes[i] == Moved
    ensures Run(disk, plan, outcomes[i := MovedUnreported]) == Run(disk, plan, outcomes)
    ensures Moves(outcomes[i := MovedUnreported]) + 1 == Moves(outcomes)
    ensures Failures(outcomes[i := MovedUnreported]) == Failures(outcomes) + 1
  {
    UnreportedRun(disk, plan, outcomes, i);
    UnreportedCounts(outcomes, i);
  }

  /** Whether a move was reported does not change the disk. */
  lemma {:induction false} UnreportedRun(disk: set<string>, plan: seq<MoveOp>, outcomes: seq<Outcome>, i: nat)
    requires |outcomes| == |plan| && i < |outcomes| && outcomes[i] == Moved
    ensures Run(disk, plan, outcomes[i := MovedUnreported]) == Run(disk, plan, outcomes)
    decreases |outcomes|
  {
    var n := |outcomes| - 1;
    var changed := outcomes[i := MovedUnreported];
    if i < n {
      assert changed[..n] == outcomes[..n][i := MovedUnreported];
      UnreportedRun(disk, plan[..n], outcomes[..n], i);
    } else {
      assert changed[..n] == outcomes[..n];
    }
  }

  /** An unreported move moves one count from moved to skipped. */
  lemma {:induction false} UnreportedCounts(outcomes: seq<Outcome>, i: nat)
    requires i < |outcomes| && outcomes[i] == Moved
    ensures Moves(outcomes[i := MovedUnreported]) + 1 == Moves(outcomes)
    ensures Failures(outcomes[i := MovedUnreported]) == Failures(outcomes) + 1
    decreases |outcomes|
  {
    var n := |outcomes| - 1;
    var changed := outcomes[i := MovedUnreported];
    if i < n {
      assert changed[..n] == outcomes[..n][i := MovedUnreported];
      UnreportedCounts(outcomes[..n], i);
    } else {
      assert changed[..n] == outcomes[..n];
    }
  }
}
