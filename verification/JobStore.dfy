/** The job store (`JobStore`, a map from ids to rows), planning, and `run_job` run by one caller alone.
    The interleaving of several workers and API handlers is in module JobSystem. */
module JobStore {
  import opened Common
  import opened JobRows

  type JobId = string

  /** What a stage function does: return, raise, or raise JobCancelled for the user or for a shutdown. */
  datatype Outcome = Completes | Fails | UserCancels | ShutsDown

  /** The row after a stage ended badly: its own stage row and the job's status. */
  function Abandon(row: Row, p: nat, outcome: Outcome): Row
    requires p < 5
  {
    match outcome
    case Completes => row
    case Fails => SetStatus(SetStage(row, p, Broken, false), Failed, Some(StageError))
    case UserCancels => SetStatus(SetStage(row, p, Pending, false), Cancelled, Some(CancelledError))
    case ShutsDown => SetStatus(SetStage(row, p, Pending, false), Queued, None)
  }

  /** A row after stage `p` was begun and ended like this. */
  function AfterStage(row: Row, p: nat, outcome: Outcome): Row
    requires p < 5
  {
    var begun := SetStage(row, p, InProgress, true);
    if outcome == Completes then SetStage(begun, p, Complete, false) else Abandon(begun, p, outcome)
  }

  /** Running the planned stages in turn, each with the outcome `run` gives it. */
  function Execute(row: Row, plan: seq<Stage>, run: Stage -> Outcome): Row
    decreases |plan|
  {
    if plan == [] then SetStatus(row, Done, None)
    else
      var after := AfterStage(row, Position(plan[0]), run(plan[0]));
      if run(plan[0]) == Completes then Execute(after, plan[1..], run) else after
  }

  /** How many stages of the plan complete. */
  function Successes(plan: seq<Stage>, run: Stage -> Outcome): (f: nat)
    ensures f <= |plan| && (f < |plan| ==> run(plan[f]) != Completes)
  {
    if plan == [] || run(plan[0]) != Completes then 0 else 1 + Successes(plan[1..], run)
  }

  /** One unfolding, at stage `i` of the plan. */
  lemma ExecuteStep(row: Row, plan: seq<Stage>, i: nat, run: Stage -> Outcome)
    requires i < |plan|
    ensures
      var after := AfterStage(row, Position(plan[i]), run(plan[i]));
      if run(plan[i]) == Completes
      then Execute(row, plan[i..], run) == Execute(after, plan[i + 1..], run)
        && Successes(plan[i..], run) == 1 + Successes(plan[i + 1..], run)
      else Execute(row, plan[i..], run) == after && Successes(plan[i..], run) == 0
  {
    SuffixStep(plan, i);
  }

  function Restart(from: Option<Stage>): nat {
    match from case None => 5 case Some(stage) => Position(stage)
  }

  predicate Claimable(row: Row, from: Option<Stage>) {
    row.status == Queued || (from != None && row.status != Running)
  }

  class JobStore {
    var rows: map<JobId, Row>

    constructor ()
      ensures rows == map[]
    {
      rows := map[];
    }

    method CreateJob(id: JobId)
      requires id !in rows
      modifies this
      ensures rows == old(rows)[id := NEW_ROW]
      ensures RowOk(rows[id])
    {
      rows := rows[id := NEW_ROW];
    }

    /** `set_status`; an unknown id changes nothing (an UPDATE that matches no row). */
    method UpdateStatus(id: JobId, status: Status, error: Option<JobError>)
      modifies this
      ensures rows == if id in old(rows) then old(rows)[id := SetStatus(old(rows)[id], status, error)] else old(rows)
    {
      if id in rows {
        rows := rows[id := rows[id].(status := status, error := error)];
      }
    }

    method UpdateStage(id: JobId, p: nat, state: StageState, bump: bool)
      requires p < 5
      modifies this
      ensures rows == if id in old(rows) then old(rows)[id := SetStage(old(rows)[id], p, state, bump)] else old(rows)
    {
      if id in rows {
        rows := rows[id := SetStage(rows[id], p, state, bump)];
      }
    }

    /** `claim`: succeeds exactly for a row in a claimable status, and only then changes anything. */
    method ClaimJob(id: JobId, from: Option<Stage>) returns (ok: bool)
      modifies this
      ensures ok <==> id in old(rows) && Claimable(old(rows)[id], from)
      ensures ok ==> rows == old(rows)[id := Claim(old(rows)[id])] && rows[id].status == Running
      ensures !ok ==> rows == old(rows)
    {
      if id !in rows || !Claimable(rows[id], from) {
        return false;
      }
      rows := rows[id := rows[id].(status := Running, error := None)];
      return true;
    }

    method RequestCancel(id: JobId)
      modifies this
      ensures rows == if id in old(rows) then old(rows)[id := old(rows)[id].(cancelRequested := true)] else old(rows)
    {
      if id in rows {
        rows := rows[id := rows[id].(cancelRequested := true)];
      }
    }

    /** `reset_stages_from`: the loop over the stages from `p` on, in one transaction. */
    method ResetStagesFrom(id: JobId, p: nat)
      requires p <= 5
      modifies this
      ensures rows == if id in old(rows) then old(rows)[id := ResetFrom(old(rows)[id], p)] else old(rows)
    {
      if id !in rows {
        return;
      }
      ghost var row := rows[id];
      for q := p to 5
        invariant id in rows && rows == old(rows)[id := row.(stages := rows[id].stages)]
        invariant forall i | 0 <= i < 5 ::
          rows[id].stages[i] == if p <= i < q then row.stages[i].(state := Pending) else row.stages[i]
      {
        var stages := rows[id].stages[q := rows[id].stages[q].(state := Pending)];
        rows := rows[id := rows[id].(stages := stages)];
      }
      assert rows[id].stages == ResetFrom(row, p).stages;
    }

    method RequeueJob(id: JobId, from: Option<Stage>)
      modifies this
      ensures rows == if id in old(rows) then old(rows)[id := Requeue(old(rows)[id], from)] else old(rows)
    {
      if id in rows {
        rows := rows[id := rows[id].(status := Queued, cancelRequested := false, error := None)];
      }
      if from != None {
        ResetStagesFrom(id, Position(from.value));
      }
    }

    /** `requeue_orphans`: every running row goes back to the queue, in one transaction. */
    method RequeueOrphans() returns (ids: set<JobId>)
      modifies this
      ensures ids == set id | id in old(rows) && old(rows)[id].status == Running
      ensures rows == map id | id in old(rows) :: Recover(old(rows)[id])
    {
      ids := set id | id in rows && rows[id].status == Running;
      var todo := ids;
      while todo != {}
        invariant todo <= ids && rows.Keys == old(rows).Keys
        invariant forall id | id in rows ::
          rows[id] == if id in ids - todo then Recover(old(rows)[id]) else old(rows)[id]
        decreases todo
      {
        var id :| id in todo;
        rows := rows[id := Recover(rows[id])];
        todo := todo - {id};
      }
    }

    method DeleteJob(id: JobId) returns (found: bool)
      modifies this
      ensures found <==> id in old(rows)
      ensures rows == old(rows) - {id}
    {
      found := id in rows;
      rows := rows - {id};
    }

    /** `_stages_to_run`. */
    method StagesToRun(id: JobId, from: Option<Stage>) returns (stages: seq<Stage>, forced: set<Stage>)
      requires id in rows
      ensures stages == ToRun(rows[id].stages, Restart(from), 0)
      ensures forced == Forced(rows[id].stages, Restart(from), 0)
    {
      var restart := Restart(from);
      stages, forced := [], {};
      var records := rows[id].stages;
      for position := 0 to 5
        invariant stages + ToRun(records, restart, position) == ToRun(records, restart, 0)
        invariant forced + Forced(records, restart, position) == Forced(records, restart, 0)
      {
        var stage := STAGE_ORDER[position];
        if records[position].state == Complete && position < restart {
          continue;
        }
        stages := stages + [stage];
        if position >= restart || records[position].attempts > 0 {
          forced := forced + {stage};
        }
      }
    }

    /** The exception branches of `run_job`: first the stage row, then the job's status. */
    method EndBadly(id: JobId, p: nat, outcome: Outcome)
      requires id in rows && p < 5 && outcome != Completes
      modifies this
      ensures rows == old(rows)[id := Abandon(old(rows)[id], p, outcome)]
    {
      UpdateStage(id, p, if outcome == Fails then Broken else Pending, false);
      UpdateStatus(
        id,
        match outcome case ShutsDown => Queued case UserCancels => Cancelled case _ => Failed,
        match outcome case ShutsDown => None case UserCancels => Some(CancelledError) case _ => Some(StageError));
    }

    /** One stage: begun, and then completed or abandoned. */
    method RunStage(id: JobId, p: nat, outcome: Outcome)
      requires id in rows && p < 5
      modifies this
      ensures rows == old(rows)[id := AfterStage(old(rows)[id], p, outcome)]
    {
      UpdateStage(id, p, InProgress, true);
      if outcome != Completes {
        EndBadly(id, p, outcome);
        return;
      }
      UpdateStage(id, p, Complete, false);
    }

    /** The stage loop of `run_job`. */
    method RunStages(id: JobId, plan: seq<Stage>, run: Stage -> Outcome) returns (ran: seq<Stage>)
      requires id in rows
      modifies this
      ensures rows == old(rows)[id := Execute(old(rows)[id], plan, run)]
      ensures ran == plan[..Min(|plan|, Successes(plan, run) + 1)]
    {
      ran := [];
      ghost var start := rows[id];
      for i := 0 to |plan|
        invariant id in rows && rows == old(rows)[id := rows[id]]
        invariant ran == plan[..i]
        invariant Execute(start, plan, run) == Execute(rows[id], plan[i..], run)
        invariant Successes(plan, run) == i + Successes(plan[i..], run)
      {
        ExecuteStep(rows[id], plan, i, run);
        UpdateTwice(old(rows), id, rows[id], AfterStage(rows[id], Position(plan[i]), run(plan[i])));
        TakeMore(plan, i);
        RunStage(id, Position(plan[i]), run(plan[i]));
        ran := ran + [plan[i]];
        if run(plan[i]) != Completes {
          return;
        }
      }
      UpdateStatus(id, Done, None);
    }

    /** `run_job` without interference.  Returns the stages it executed, in order; an unknown id is a
        KeyError. */
    method RunJob(id: JobId, from: Option<Stage>, run: Stage -> Outcome) returns (known: bool, ran: seq<Stage>)
      modifies this
      ensures known <==> id in old(rows)
      ensures !known || !Claimable(old(rows)[id], from) ==> rows == old(rows) && ran == []
      ensures known && Claimable(old(rows)[id], from) && old(rows)[id].cancelRequested ==>
        ran == [] && rows == old(rows)[id := SetStatus(old(rows)[id], Cancelled, Some(CancelledError))]
      ensures known && Claimable(old(rows)[id], from) && !old(rows)[id].cancelRequested ==>
        var plan := ToRun(old(rows)[id].stages, Restart(from), 0);
        && rows == old(rows)[id := Execute(Claim(old(rows)[id]), plan, run)]
        && ran == plan[..Min(|plan|, Successes(plan, run) + 1)]
    {
      known, ran := id in rows, [];
      if !known {
        return;
      }
      var cancelled := rows[id].cancelRequested;
      var ok := ClaimJob(id, from);
      if !ok {
        return;
      }
      if cancelled {
        UpdateStatus(id, Cancelled, Some(CancelledError));
        return;
      }
      var plan, forced := StagesToRun(id, from);
      ran := RunStages(id, plan, run);
    }
  }

  // ----------------------------------------------------------------- what a run leaves behind

  /** `end` is what is left of `row` after the stages from `m` on were run and `f` of them completed. */
  ghost predicate Ran(row: Row, end: Row, m: nat, f: nat) {
    && m + f <= 5
    && (forall i | 0 <= i < 5 ::
         end.stages[i].state == Complete <==> (m <= i < m + f || (i != m + f && row.stages[i].state == Complete)))
    && (m + f == 5 <==> end.status == Done)
  }

  lemma RanOneMore(row: Row, end: Row, m: nat, f: nat)
    requires m < 5 && Ran(AfterStage(row, m, Completes), end, m + 1, f)
    ensures Ran(row, end, m, f + 1)
  {
  }

  lemma RanNone(row: Row, m: nat, outcome: Outcome)
    requires m < 5 && outcome != Completes
    ensures Ran(row, AfterStage(row, m, outcome), m, 0)
  {
  }

  /** The stage states after the suffix from `m` was run. */
  lemma {:induction false} ExecuteStages(row: Row, m: nat, run: Stage -> Outcome)
    requires m <= 5
    ensures Ran(row, Execute(row, STAGE_ORDER[m..], run), m, Successes(STAGE_ORDER[m..], run))
    decreases 5 - m
  {
    if m < 5 {
      ExecuteStep(row, STAGE_ORDER, m, run);
      assert Position(STAGE_ORDER[m]) == m;
      if run(STAGE_ORDER[m]) == Completes {
        var after := AfterStage(row, m, Completes);
        ExecuteStages(after, m + 1, run);
        RanOneMore(row, Execute(after, STAGE_ORDER[m + 1..], run), m, Successes(STAGE_ORDER[m + 1..], run));
      } else {
        RanNone(row, m, run(STAGE_ORDER[m]));
      }
    } else {
      assert STAGE_ORDER[m..] == [];
    }
  }

  /** A run that was queued the normal way (restarts go through `requeue`) keeps the completed stages a
      prefix, and ends `done` exactly when every unfinished stage was executed and completed. */
  lemma QueuedRunKeepsPrefix(row: Row, run: Stage -> Outcome)
    requires RowOk(row) && row.status == Queued
    ensures
      var end := Execute(Claim(row), ToRun(row.stages, 5, 0), run);
      RowOk(end) && (end.status == Done <==> forall i | 0 <= i < 5 :: end.stages[i].state == Complete)
  {
    var n := PlanIsTheUnfinishedSuffix(row.stages);
    ExecuteStages(Claim(row), n, run);
    ExecuteError(Claim(row), STAGE_ORDER[n..], run);
  }

  lemma {:induction false} ExecuteError(row: Row, plan: seq<Stage>, run: Stage -> Outcome)
    ensures
      var end := Execute(row, plan, run);
      end.status != Running && (end.error != None <==> end.status in {Failed, Cancelled})
    decreases |plan|
  {
    if plan != [] && run(plan[0]) == Completes {
      var p := Position(plan[0]);
      ExecuteError(SetStage(SetStage(row, p, InProgress, true), p, Complete, false), plan[1..], run);
    }
  }

  /** Passing `from_stage` straight to `run_job` is different: with the first `n` stages complete it keeps
      them a prefix whatever the stages do if, and only if, no stage after `from_stage` was complete. */
  lemma DirectRestartKeepsPrefixIff(row: Row, n: nat, stage: Stage)
    requires n <= 5 && DoneUpTo(row.stages, n)
    ensures (forall run: Stage -> Outcome ::
              DonePrefix(Execute(row, ToRun(row.stages, Position(stage), 0), run).stages))
        <==> n <= Position(stage) + 1
  {
    var p := Position(stage);
    var m := Min(n, p);
    ToRunIsSuffix(row.stages, n, p, 0);
    var plan := ToRun(row.stages, p, 0);
    assert plan == STAGE_ORDER[m..];
    if n <= p + 1 {
      forall run: Stage -> Outcome
        ensures DonePrefix(Execute(row, plan, run).stages)
      {
        RunKeepsPrefix(row, n, m, run);
      }
    } else {
      FailureBreaksPrefix(row, n, m);
    }
  }

  /** A run that starts where the completed stages end, or at the last of them. */
  lemma RunKeepsPrefix(row: Row, n: nat, m: nat, run: Stage -> Outcome)
    requires m <= n <= m + 1 && n <= 5 && m <= 5 && DoneUpTo(row.stages, n)
    ensures DonePrefix(Execute(row, STAGE_ORDER[m..], run).stages)
  {
    ExecuteStages(row, m, run);
    assert DoneUpTo(Execute(row, STAGE_ORDER[m..], run).stages, m + Successes(STAGE_ORDER[m..], run));
  }

  /** A stage that fails with a later one complete. */
  lemma FailureBreaksPrefix(row: Row, n: nat, m: nat)
    requires m + 1 < n <= 5 && DoneUpTo(row.stages, n)
    ensures !DonePrefix(Execute(row, STAGE_ORDER[m..], (s: Stage) => Fails).stages)
  {
    var fail: Stage -> Outcome := (s: Stage) => Fails;
    ExecuteStages(row, m, fail);
    var end := Execute(row, STAGE_ORDER[m..], fail);
    assert Successes(STAGE_ORDER[m..], fail) == 0;
    assert end.stages[m + 1].state == Complete && end.stages[m].state != Complete;
  }
}
