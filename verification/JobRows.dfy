/** The rows of the job store and the pure effect of every store operation on one row. */
module JobRows {
  import opened Common

  datatype Status = Queued | Running | Done | Failed | Cancelled

  datatype Stage = Ingest | Analyze | Cast | Render | Finalize

  const STAGE_ORDER: seq<Stage> := [Ingest, Analyze, Cast, Render, Finalize]

  function Position(stage: Stage): (p: nat)
    ensures p < 5 && STAGE_ORDER[p] == stage
  {
    match stage
    case Ingest => 0
    case Analyze => 1
    case Cast => 2
    case Render => 3
    case Finalize => 4
  }

  datatype StageState = Pending | InProgress | Complete | Broken

  datatype StageRow = StageRow(state: StageState, attempts: nat)

  const FRESH_STAGE := StageRow(Pending, 0)

  /** One row per stage, in pipeline order. */
  type StageRows = rows: seq<StageRow> | |rows| == 5
    witness [FRESH_STAGE, FRESH_STAGE, FRESH_STAGE, FRESH_STAGE, FRESH_STAGE]

  datatype JobError = CancelledError | StageError

  datatype Row = Row(status: Status, cancelRequested: bool, error: Option<JobError>, stages: StageRows)

  const NEW_ROW := Row(Queued, false, None, [FRESH_STAGE, FRESH_STAGE, FRESH_STAGE, FRESH_STAGE, FRESH_STAGE])

  // ----------------------------------------------------------------- effects

  function SetStatus(row: Row, status: Status, error: Option<JobError>): Row {
    row.(status := status, error := error)
  }

  function SetStage(row: Row, p: nat, state: StageState, bump: bool): Row
    requires p < 5
  {
    var old_ := row.stages[p];
    row.(stages := row.stages[p := StageRow(state, old_.attempts + if bump then 1 else 0)])
  }

  function Claim(row: Row): Row {
    row.(status := Running, error := None)
  }

  /** Stages from position `p` on go back to pending; attempts are kept. */
  function ResetFrom(row: Row, p: nat): (r: Row)
    requires p <= 5
    ensures r.status == row.status && r.cancelRequested == row.cancelRequested && r.error == row.error
  {
    row.(stages := seq(5, i requires 0 <= i < 5 =>
      if i < p then row.stages[i] else row.stages[i].(state := Pending)))
  }

  function Requeue(row: Row, from: Option<Stage>): Row {
    var queued := row.(status := Queued, cancelRequested := false, error := None);
    match from
    case None => queued
    case Some(stage) => ResetFrom(queued, Position(stage))
  }

  /** `requeue_orphans` on one row. */
  function Recover(row: Row): Row {
    if row.status != Running then row
    else row.(status := Queued, stages := seq(5, i requires 0 <= i < 5 =>
      if row.stages[i].state == InProgress then row.stages[i].(state := Pending) else row.stages[i]))
  }

  // ----------------------------------------------------------------- invariants of one row

  /** Completed stages come before all others. */
  ghost predicate DonePrefix(stages: StageRows) {
    forall i, j | 0 <= i < j < 5 :: stages[j].state == Complete ==> stages[i].state == Complete
  }

  /** Exactly the first `n` stages are complete. */
  ghost predicate DoneUpTo(stages: StageRows, n: int) {
    forall i | 0 <= i < 5 :: stages[i].state == Complete <==> i < n
  }

  ghost predicate RowOk(row: Row) {
    && DonePrefix(row.stages)
    && (row.status == Done ==> DoneUpTo(row.stages, 5))
    && (row.error != None <==> row.status in {Failed, Cancelled})
  }

  // ----------------------------------------------------------------- planning a run

  /** `_stages_to_run` from position `i` on: everything that is not complete, and everything from
      `restart` on. */
  function ToRun(stages: StageRows, restart: nat, i: nat): seq<Stage>
    requires i <= 5
    decreases 5 - i
  {
    if i == 5 then []
    else if Planned(stages, restart, i) then [STAGE_ORDER[i]] + ToRun(stages, restart, i + 1)
    else ToRun(stages, restart, i + 1)
  }

  /** Whether `_stages_to_run` plans the stage at position `i`. */
  predicate Planned(stages: StageRows, restart: nat, i: nat)
    requires i < 5
  {
    stages[i].state != Complete || i >= restart
  }

  /** The planned stages, from position `i` on, that must not take the "outputs already exist" shortcut. */
  function Forced(stages: StageRows, restart: nat, i: nat): set<Stage>
    requires i <= 5
    decreases 5 - i
  {
    if i == 5 then {}
    else if Planned(stages, restart, i) && (i >= restart || stages[i].attempts > 0) then
      {STAGE_ORDER[i]} + Forced(stages, restart, i + 1)
    else Forced(stages, restart, i + 1)
  }

  lemma {:induction false} ToRunIsSuffix(stages: StageRows, n: nat, restart: nat, i: nat)
    requires DoneUpTo(stages, n) && n <= 5 && i <= 5
    ensures ToRun(stages, restart, i) == STAGE_ORDER[Max(i, Min(n, restart))..]
    decreases 5 - i
  {
    if i < 5 {
      ToRunIsSuffix(stages, n, restart, i + 1);
    }
  }

  lemma {:induction false} PrefixHasLength(stages: StageRows, i: nat) returns (n: nat)
    requires DonePrefix(stages) && i <= 5 && forall j | 0 <= j < i :: stages[j].state == Complete
    ensures n <= 5 && DoneUpTo(stages, n)
    decreases 5 - i
  {
    if i < 5 && stages[i].state == Complete {
      n := PrefixHasLength(stages, i + 1);
    } else {
      n := i;
    }
  }

  /** Without an explicit restart, a run plans exactly the stages that are not complete: a suffix of the
      pipeline, starting right after the completed prefix. */
  lemma PlanIsTheUnfinishedSuffix(stages: StageRows) returns (n: nat)
    requires DonePrefix(stages)
    ensures n <= 5 && DoneUpTo(stages, n) && ToRun(stages, 5, 0) == STAGE_ORDER[n..]
  {
    n := PrefixHasLength(stages, 0);
    ToRunIsSuffix(stages, n, 5, 0);
  }

  /** A stage is forced exactly when it is planned and ran before or lies at or after the restart. */
  lemma {:induction false} ForcedExactly(stages: StageRows, restart: nat, i: nat, p: nat)
    requires i <= 5 && p < 5
    ensures STAGE_ORDER[p] in Forced(stages, restart, i)
      <==> i <= p && Planned(stages, restart, p) && (p >= restart || stages[p].attempts > 0)
    decreases 5 - i
  {
    if i < 5 {
      ForcedExactly(stages, restart, i + 1, p);
      assert Position(STAGE_ORDER[p]) == p && Position(STAGE_ORDER[i]) == i;
    }
  }

  lemma EffectsKeepRowOk(row: Row, from: Option<Stage>, p: nat)
    requires RowOk(row) && p <= 5
    ensures RowOk(Requeue(row, from)) && RowOk(Recover(row)) && RowOk(Claim(row))
    ensures row.status == Queued ==> RowOk(ResetFrom(row, p))
  {
  }
}
