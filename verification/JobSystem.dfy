/** The whole job system: the store, the queue, worker threads inside `run_job`, API handlers, crash,
    boot and the command line, as one transition system.  A handler's check-then-write is one event; a
    worker's steps through `run_job` are separate events that interleave with everything else. */
module JobSystem {
  import opened Common
  import opened JobRows
  import Q = WorkQueue

  type JobId = string

  /** Where a worker is inside `run_job` for the id its queue slot holds. */
  datatype Phase =
    | Absent                                          // not running a job
    | Entered                                         // before `store.get_job`
    | Loaded(cancel: bool)                            // row read, not claimed yet
    | Claimed(cancel: bool)                           // claim succeeded
    | Staging(todo: seq<Stage>, ran: seq<Stage>, inStage: bool)
    | Closing(status: Status, error: Option<JobError>)  // stage row written, status write still to come
    | Leaving                                         // nothing left to write

  datatype Mode = Down | Serving | CommandLine

  datatype State = State(mode: Mode, rows: map<JobId, Row>, queue: Q.State, phases: seq<Phase>)

  /** What a worker does next inside `run_job`. */
  datatype Action =
    | Load            // `store.get_job`
    | TryClaim        // `store.claim`
    | DropCancelled   // the row read before the claim had the cancel flag
    | AbortEarly      // an exception before the first stage
    | Plan            // `_stages_to_run`
    | Begin           // `set_stage(running)`
    | EndStage        // the stage function returned: `set_stage(done)`
    | FailStage       // it raised: `set_stage(failed)`
    | UserCancel      // JobCancelled('user'): `set_stage(pending)`
    | Shutdown        // JobCancelled('shutdown'): `set_stage(pending)`
    | MarkDone        // `set_status(done)`
    | Close           // the status write of an exception branch

  datatype Event =
    | Create(id: JobId)
    | Recast(id: JobId)
    | Retry(id: JobId, from: Option<Stage>)
    | CancelJob(id: JobId)
    | Delete(id: JobId)
    | QueueStep(e: Q.Event)
    | Work(w: nat, action: Action)
    | Exit(w: nat)
    | Crash
    | Boot(workers: nat)
    | RunFromCommandLine(id: JobId, from: Option<Stage>)

  const EMPTY_QUEUE := Q.Initial(0)

  function Initial(): State {
    State(Down, map[], EMPTY_QUEUE, [])
  }

  // ----------------------------------------------------------------- helpers

  predicate Busy(s: State, w: nat) {
    w < |s.phases| && w < |s.queue.workers| && s.queue.workers[w].Running?
  }

  function IdOf(s: State, w: nat): JobId
    requires Busy(s, w)
  {
    s.queue.workers[w].id
  }

  function PhaseOf(s: State, w: nat): Phase {
    if Busy(s, w) then s.phases[w] else Absent
  }

  function RowOf(s: State, id: JobId): Row {
    if id in s.rows then s.rows[id] else NEW_ROW
  }

  /** An UPDATE of one row; it changes nothing when the row is gone. */
  function Write(s: State, id: JobId, row: Row): State {
    if id in s.rows then s.(rows := s.rows[id := row]) else s
  }

  function Submitted(q: Q.State, id: JobId): Q.State {
    Q.Next(q, Q.Submit(id))
  }

  /** `_resubmit_pending` on a new queue: every queued id is registered, its entry still to be put. */
  function BootQueue(workers: nat, ids: set<JobId>): Q.State {
    Q.Initial(workers).(pending := ids, inFlight := multiset(ids), accepted := multiset(ids))
  }

  function CommandLineQueue(id: JobId): Q.State {
    Q.Initial(1).(workers := [Q.Running(id)], accepted := multiset{id}, started := multiset{id})
  }

  // ----------------------------------------------------------------- transitions

  predicate Enabled(s: State, e: Event) {
    match e
    case Create(id) => s.mode == Serving && id !in s.rows
    case Recast(id) => s.mode == Serving && id in s.rows && s.rows[id].status != Running
    case Retry(id, from) =>
      s.mode == Serving && id in s.rows && s.rows[id].status !in {Running, Queued}
      && (s.rows[id].status == Done ==> from != None)
    case CancelJob(id) => s.mode == Serving && id in s.rows && s.rows[id].status in {Queued, Running}
    case Delete(id) => s.mode == Serving && id in s.rows && s.rows[id].status != Running
    case QueueStep(qe) =>
      s.mode == Serving && !qe.Submit? && !qe.Discard? && !qe.Finish? && Q.Enabled(s.queue, qe)
    case Work(w, action) => Busy(s, w) && CanWork(s, w, action)
    case Exit(w) => PhaseOf(s, w).Leaving?
    case Crash => s.mode != Down
    case Boot(workers) => s.mode == Down && workers >= 1
    case RunFromCommandLine(id, from) => s.mode == Down
  }

  predicate CanWork(s: State, w: nat, action: Action)
    requires Busy(s, w)
  {
    var p := s.phases[w];
    match action
    case Load => p.Entered?
    case TryClaim => p.Loaded?
    case DropCancelled => p == Claimed(true)
    case AbortEarly => p == Claimed(false) || (p.Staging? && p.ran == [])
    case Plan => p == Claimed(false)
    case Begin => p.Staging? && !p.inStage && |p.ran| < |p.todo|
    case EndStage => InStage(p)
    case FailStage => p.Staging? && p.ran != []
    case UserCancel => InStage(p) && RowOf(s, IdOf(s, w)).cancelRequested
    case Shutdown => InStage(p) && s.queue.stopping
    case MarkDone => p.Staging? && !p.inStage && |p.ran| == |p.todo|
    case Close => p.Closing?
  }

  predicate InStage(p: Phase) {
    p.Staging? && p.inStage && p.ran != []
  }

  function SetPhase(s: State, w: nat, p: Phase): State
    requires w < |s.phases|
  {
    s.(phases := s.phases[w := p])
  }

  /** The stage a worker executes, or executed last. */
  function Current(p: Phase): nat
    requires p.Staging? && p.ran != []
  {
    Position(p.ran[|p.ran| - 1])
  }

  /** A handler that writes a row and hands the id to the queue. */
  function Resubmit(s: State, id: JobId, row: Row): State {
    s.(rows := s.rows[id := row], queue := Submitted(s.queue, id))
  }

  function Withdraw(s: State, id: JobId): State {
    s.(queue := Q.Next(s.queue, Q.Discard(id)))
  }

  /** The phase that worker `w` moves to. */
  function NextPhase(s: State, w: nat, action: Action): Phase
    requires Busy(s, w) && CanWork(s, w, action)
  {
    var id, p := IdOf(s, w), s.phases[w];
    match action
    case Load => if id in s.rows then Loaded(s.rows[id].cancelRequested) else Leaving
    case TryClaim => if id in s.rows && s.rows[id].status == Queued then Claimed(p.cancel) else Leaving
    case DropCancelled => Leaving
    case AbortEarly => Leaving
    case Plan => Staging(ToRun(RowOf(s, id).stages, 5, 0), [], false)
    case Begin => p.(ran := p.ran + [p.todo[|p.ran|]], inStage := true)
    case EndStage => p.(inStage := false)
    case FailStage => Closing(Failed, Some(StageError))
    case UserCancel => Closing(Cancelled, Some(CancelledError))
    case Shutdown => Closing(Queued, None)
    case MarkDone => Leaving
    case Close => Leaving
  }

  /** The row it leaves behind. */
  function NextRow(s: State, w: nat, action: Action): Row
    requires Busy(s, w) && CanWork(s, w, action)
  {
    var p := s.phases[w];
    var row := RowOf(s, IdOf(s, w));
    match action
    case Load => row
    case TryClaim => if row.status == Queued then Claim(row) else row
    case DropCancelled => SetStatus(row, Cancelled, Some(CancelledError))
    case AbortEarly => SetStatus(row, Failed, Some(StageError))
    case Plan => row
    case Begin => SetStage(row, Position(p.todo[|p.ran|]), InProgress, true)
    case EndStage => SetStage(row, Current(p), Complete, false)
    case FailStage => SetStage(row, Current(p), Broken, false)
    case UserCancel => SetStage(row, Current(p), Pending, false)
    case Shutdown => SetStage(row, Current(p), Pending, false)
    case MarkDone => SetStatus(row, Done, None)
    case Close => SetStatus(row, p.status, p.error)
  }

  function Next(s: State, e: Event): State
    requires Enabled(s, e)
  {
    match e
    case Create(id) => Resubmit(s, id, NEW_ROW)
    case Recast(id) =>
      if s.rows[id].status == Queued then Write(s, id, ResetFrom(s.rows[id], Position(Cast)))
      else Resubmit(s, id, Requeue(s.rows[id], Some(Cast)))
    case Retry(id, from) => Resubmit(s, id, Requeue(s.rows[id], from))
    case CancelJob(id) =>
      var flagged := s.rows[id].(cancelRequested := true);
      if flagged.status == Queued then
        Withdraw(Write(s, id, SetStatus(flagged, Cancelled, Some(CancelledError))), id)
      else Write(s, id, flagged)
    case Delete(id) => Withdraw(s, id).(rows := s.rows - {id})
    case QueueStep(qe) =>
      var q := Q.Next(s.queue, qe);
      var starts := qe.Check? && qe.w < |s.phases| && q.workers[qe.w].Running?;
      s.(queue := q, phases := if starts then s.phases[qe.w := Entered] else s.phases)
    case Exit(w) => SetPhase(s, w, Absent).(queue := Q.Next(s.queue, Q.Finish(w)))
    case Crash => s.(mode := Down, queue := EMPTY_QUEUE, phases := [])
    case Boot(workers) =>
      var rows := map id | id in s.rows :: Recover(s.rows[id]);
      State(Serving, rows, BootQueue(workers, set id | id in rows && rows[id].status == Queued), seq(workers, _ => Absent))
    case RunFromCommandLine(id, from) =>
      State(CommandLine, s.rows[id := if id in s.rows then Requeue(s.rows[id], from) else NEW_ROW],
            CommandLineQueue(id), [Entered])
    case Work(w, action) =>
      Write(SetPhase(s, w, NextPhase(s, w, action)), IdOf(s, w), NextRow(s, w, action))
  }

  ghost predicate IsRun(s: State, es: seq<Event>)
    decreases |es|
  {
    es == [] || (Enabled(s, es[0]) && IsRun(Next(s, es[0]), es[1..]))
  }

  ghost function After(s: State, es: seq<Event>): State
    requires IsRun(s, es)
    decreases |es|
  {
    if es == [] then s else After(Next(s, es[0]), es[1..])
  }

  // ----------------------------------------------------------------- the invariant

  /** The worker is between a successful claim and its exit write. */
  predicate Owns(p: Phase) {
    p.Claimed? || p.Staging? || p.Closing?
  }

  ghost predicate RowsOk(s: State) {
    forall id | id in s.rows :: RowOk(s.rows[id])
  }

  ghost predicate Shape(s: State) {
    && |s.phases| == |s.queue.workers|
    && (forall w: nat | w < |s.phases| :: s.phases[w].Absent? <==> !s.queue.workers[w].Running?)
    && Q.Inv(s.queue)
    && (s.mode == Down ==> s.phases == [])
  }

  /** What a planned run still has to do, and what it did, against the row it works on. */
  ghost predicate StagingOk(p: Phase, stages: StageRows)
    requires p.Staging?
  {
    var n := 5 - |p.todo|;
    && n >= 0 && p.todo == STAGE_ORDER[n..]
    && |p.ran| <= |p.todo| && p.ran == p.todo[..|p.ran|]
    && (p.inStage ==> p.ran != [])
    && DoneUpTo(stages, n + |p.ran| - if p.inStage then 1 else 0)
  }

  ghost predicate OwnerOk(s: State, w: nat)
    requires Owns(PhaseOf(s, w))
  {
    var id, p := IdOf(s, w), s.phases[w];
    && id in s.rows && s.rows[id].status == Running
    && (p.Staging? ==> StagingOk(p, s.rows[id].stages))
    && (p.Closing? ==> p.status in {Failed, Cancelled, Queued} && (p.error != None <==> p.status != Queued))
  }

  ghost predicate OwnersOk(s: State) {
    && (forall w: nat | Owns(PhaseOf(s, w)) :: OwnerOk(s, w))
    && (forall w1: nat, w2: nat | Owns(PhaseOf(s, w1)) && Owns(PhaseOf(s, w2)) && w1 != w2 ::
          IdOf(s, w1) != IdOf(s, w2))
  }

  ghost predicate Owned(s: State, id: JobId) {
    exists w: nat :: Owns(PhaseOf(s, w)) && IdOf(s, w) == id
  }

  /** Some worker already picked the id up and has yet to try its claim. */
  ghost predicate AboutToClaim(s: State, id: JobId) {
    exists w: nat :: (PhaseOf(s, w).Entered? || PhaseOf(s, w).Loaded?) && IdOf(s, w) == id
  }

  /** While the server is up, a running row has an owner, and a queued row is waiting in the queue or in a
      worker that is about to claim it, unless the server is being stopped. */
  ghost predicate Served(s: State) {
    s.mode == Serving ==>
      && (forall id | id in s.rows && s.rows[id].status == Running :: Owned(s, id))
      && (s.queue.stopping
          || forall id | id in s.rows && s.rows[id].status == Queued :: id in s.queue.pending || AboutToClaim(s, id))
      && (s.queue.stopping || forall w: nat | w < |s.phases| :: s.phases[w] != Closing(Queued, None))
  }

  ghost predicate Inv(s: State) {
    RowsOk(s) && Shape(s) && OwnersOk(s) && Served(s)
  }

  // ----------------------------------------------------------------- worker steps keep the invariant

  lemma NextInPlan(todo: seq<Stage>, k: nat)
    requires k < |todo| <= 5 && todo == STAGE_ORDER[5 - |todo|..]
    ensures Position(todo[k]) == 5 - |todo| + k
    ensures todo[..k] + [todo[k]] == todo[..k + 1]
  {
    assert todo[k] == STAGE_ORDER[5 - |todo| + k];
  }

  lemma CurrentPosition(p: Phase, stages: StageRows)
    requires p.Staging? && StagingOk(p, stages) && p.ran != []
    ensures Current(p) == 5 - |p.todo| + |p.ran| - 1
  {
    NextInPlan(p.todo, |p.ran| - 1);
  }

  lemma BeginStageOk(row: Row, q: nat)
    requires q < 5 && DoneUpTo(row.stages, q)
    ensures DoneUpTo(SetStage(row, q, InProgress, true).stages, q)
  {
  }

  lemma BeginOk(p: Phase, row: Row)
    requires p.Staging? && !p.inStage && |p.ran| < |p.todo| && StagingOk(p, row.stages) && RowOk(row)
    ensures
      var stage := p.todo[|p.ran|];
      var row' := SetStage(row, Position(stage), InProgress, true);
      StagingOk(p.(ran := p.ran + [stage], inStage := true), row'.stages) && DonePrefix(row'.stages)
  {
    NextInPlan(p.todo, |p.ran|);
    BeginStageOk(row, Position(p.todo[|p.ran|]));
  }

  /** Ending the stage after the completed ones, or the last of these, keeps them a prefix. */
  lemma EndStageOk(row: Row, q: nat, d: nat, state: StageState)
    requires q < 5 && DoneUpTo(row.stages, d) && (d == q || d == q + 1)
    ensures
      var row' := SetStage(row, q, state, false);
      DoneUpTo(row'.stages, if state == Complete then q + 1 else q)
  {
  }

  lemma EndOk(p: Phase, row: Row, state: StageState)
    requires p.Staging? && p.ran != [] && StagingOk(p, row.stages) && RowOk(row)
    ensures
      var row' := SetStage(row, Current(p), state, false);
      && DonePrefix(row'.stages)
      && (state == Complete ==> StagingOk(p.(inStage := false), row'.stages))
  {
    CurrentPosition(p, row.stages);
    var q := Current(p);
    EndStageOk(row, q, 5 - |p.todo| + |p.ran| - if p.inStage then 1 else 0, state);
    var end := SetStage(row, q, state, false);
    assert DoneUpTo(end.stages, if state == Complete then q + 1 else q);
  }

  /** The owner's own row and phase after its step. */
  lemma OwnerStep(s: State, w: nat, action: Action)
    requires Busy(s, w) && CanWork(s, w, action) && Owns(s.phases[w])
    requires OwnerOk(s, w) && RowOk(s.rows[IdOf(s, w)])
    ensures
      var p, row := NextPhase(s, w, action), NextRow(s, w, action);
      && RowOk(row)
      && (Owns(p) <==> row.status == Running)
      && (p.Staging? ==> StagingOk(p, row.stages))
      && (p.Closing? ==> p.status in {Failed, Cancelled, Queued} && (p.error != None <==> p.status != Queued))
  {
    var p, row := s.phases[w], s.rows[IdOf(s, w)];
    match action
    case Plan => var n := PlanIsTheUnfinishedSuffix(row.stages);
    case Begin => BeginOk(p, row);
    case EndStage => EndOk(p, row, Complete);
    case FailStage => EndOk(p, row, Broken);
    case UserCancel => EndOk(p, row, Pending);
    case Shutdown => EndOk(p, row, Pending);
    case _ =>
  }

  /** A claim succeeds only on a row that no other worker owns. */
  lemma OthersHaveOtherRows(s: State, w: nat, action: Action, v: nat)
    requires Inv(s) && Enabled(s, Work(w, action)) && v != w && Owns(PhaseOf(s, v))
    ensures Owns(s.phases[w]) || Owns(NextPhase(s, w, action)) ==> IdOf(s, v) != IdOf(s, w)
  {
    assert OwnerOk(s, v);
    if Owns(s.phases[w]) {
      assert Owns(PhaseOf(s, w));
    }
  }

  lemma WorkKeepsOwners(s: State, w: nat, action: Action)
    requires Inv(s) && Enabled(s, Work(w, action))
    ensures OwnersOk(Next(s, Work(w, action)))
  {
    var s' := Next(s, Work(w, action));
    forall v: nat | Owns(PhaseOf(s', v))
      ensures OwnerOk(s', v)
    {
      if v != w {
        assert OwnerOk(s, v);
        OthersHaveOtherRows(s, w, action, v);
      } else if Owns(s.phases[w]) {
        assert OwnerOk(s, w);
        OwnerStep(s, w, action);
      }
    }
    forall v1: nat, v2: nat | Owns(PhaseOf(s', v1)) && Owns(PhaseOf(s', v2)) && v1 != v2
      ensures IdOf(s', v1) != IdOf(s', v2)
    {
      if v1 == w {
        OthersHaveOtherRows(s, w, action, v2);
      } else if v2 == w {
        OthersHaveOtherRows(s, w, action, v1);
      } else {
        assert Owns(PhaseOf(s, v1)) && Owns(PhaseOf(s, v2));
      }
    }
  }

  lemma WorkKeepsRows(s: State, w: nat, action: Action)
    requires Inv(s) && Enabled(s, Work(w, action))
    ensures RowsOk(Next(s, Work(w, action)))
  {
    if Owns(s.phases[w]) {
      assert Owns(PhaseOf(s, w)) && OwnerOk(s, w);
      OwnerStep(s, w, action);
    }
  }

  lemma RunningStaysOwned(s: State, w: nat, action: Action, x: JobId)
    requires Inv(s) && Enabled(s, Work(w, action)) && s.mode == Serving
    requires var s' := Next(s, Work(w, action)); x in s'.rows && s'.rows[x].status == Running
    ensures Owned(Next(s, Work(w, action)), x)
  {
    var s' := Next(s, Work(w, action));
    var id := IdOf(s, w);
    if Owns(s.phases[w]) {
      assert Owns(PhaseOf(s, w)) && OwnerOk(s, w);
      OwnerStep(s, w, action);
    }
    if x == id && Owns(NextPhase(s, w, action)) {
      assert Owns(PhaseOf(s', w)) && IdOf(s', w) == x;
    } else {
      assert s.rows[x].status == Running;
      var v: nat :| Owns(PhaseOf(s, v)) && IdOf(s, v) == x;
      assert v != w;
      assert Owns(PhaseOf(s', v)) && IdOf(s', v) == x;
    }
  }

  lemma QueuedStaysServed(s: State, w: nat, action: Action, x: JobId)
    requires Inv(s) && Enabled(s, Work(w, action)) && s.mode == Serving && !s.queue.stopping
    requires var s' := Next(s, Work(w, action)); x in s'.rows && s'.rows[x].status == Queued
    ensures var s' := Next(s, Work(w, action)); x in s'.queue.pending || AboutToClaim(s', x)
  {
    var s' := Next(s, Work(w, action));
    if Owns(s.phases[w]) {
      assert Owns(PhaseOf(s, w)) && OwnerOk(s, w);
      OwnerStep(s, w, action);
    }
    assert !(x == IdOf(s, w) && Owns(s.phases[w]));
    assert s.rows[x].status == Queued;
    if x !in s.queue.pending {
      var v: nat :| (PhaseOf(s, v).Entered? || PhaseOf(s, v).Loaded?) && IdOf(s, v) == x;
      assert (PhaseOf(s', v).Entered? || PhaseOf(s', v).Loaded?) && IdOf(s', v) == x;
    }
  }

  lemma NobodyRequeuesWhileServing(s: State, w: nat, action: Action, v: nat)
    requires Inv(s) && Enabled(s, Work(w, action)) && s.mode == Serving && !s.queue.stopping
    requires v < |s.phases|
    ensures Next(s, Work(w, action)).phases[v] != Closing(Queued, None)
  {
  }

  lemma WorkKeepsServed(s: State, w: nat, action: Action)
    requires Inv(s) && Enabled(s, Work(w, action)) && s.mode == Serving
    ensures Served(Next(s, Work(w, action)))
  {
    var s' := Next(s, Work(w, action));
    forall x | x in s'.rows && s'.rows[x].status == Running
      ensures Owned(s', x)
    {
      RunningStaysOwned(s, w, action, x);
    }
    if !s.queue.stopping {
      forall x | x in s'.rows && s'.rows[x].status == Queued
        ensures x in s'.queue.pending || AboutToClaim(s', x)
      {
        QueuedStaysServed(s, w, action, x);
      }
      forall v: nat | v < |s'.phases|
        ensures s'.phases[v] != Closing(Queued, None)
      {
        NobodyRequeuesWhileServing(s, w, action, v);
      }
    }
  }

  lemma WorkKeepsShape(s: State, w: nat, action: Action)
    requires Inv(s) && Enabled(s, Work(w, action))
    ensures Shape(Next(s, Work(w, action)))
  {
  }

  lemma WorkKeepsMode(s: State, w: nat, action: Action)
    requires Enabled(s, Work(w, action))
    ensures Next(s, Work(w, action)).mode == s.mode
  {
  }

  lemma WorkKeepsInv(s: State, w: nat, action: Action)
    requires Inv(s) && Enabled(s, Work(w, action))
    ensures Inv(Next(s, Work(w, action)))
  {
    WorkKeepsRows(s, w, action);
    WorkKeepsShape(s, w, action);
    WorkKeepsOwners(s, w, action);
    WorkKeepsMode(s, w, action);
    if s.mode == Serving {
      WorkKeepsServed(s, w, action);
    } else {
      assert Served(Next(s, Work(w, action)));
    }
  }

  // ----------------------------------------------------------------- handlers keep the invariant

  /** A handler writes (or removes) the row of a job that is not running, so no owner sees a change. */
  lemma HandlerKeepsOwners(s: State, s': State, id: JobId)
    requires Inv(s) && s'.phases == s.phases && s'.queue.workers == s.queue.workers
    requires id in s.rows ==> s.rows[id].status != Running
    requires forall x | x != id :: (x in s.rows <==> x in s'.rows) && (x in s.rows ==> s'.rows[x] == s.rows[x])
    ensures OwnersOk(s')
  {
    forall v: nat | Owns(PhaseOf(s', v))
      ensures OwnerOk(s', v)
    {
      assert PhaseOf(s', v) == PhaseOf(s, v) && OwnerOk(s, v);
    }
    forall v1: nat, v2: nat | Owns(PhaseOf(s', v1)) && Owns(PhaseOf(s', v2)) && v1 != v2
      ensures IdOf(s', v1) != IdOf(s', v2)
    {
      assert Owns(PhaseOf(s, v1)) && Owns(PhaseOf(s, v2));
    }
  }

  lemma HandlerKeepsServed(s: State, s': State, id: JobId)
    requires Inv(s) && s.mode == s'.mode == Serving && s'.phases == s.phases && s'.queue.workers == s.queue.workers
    requires s'.queue.stopping == s.queue.stopping
    requires id in s'.rows && s'.rows[id].status == Running ==> id in s.rows && s.rows[id].status == Running
    requires id in s'.rows && s'.rows[id].status == Queued ==>
      id in s'.queue.pending || (id in s.rows && s.rows[id].status == Queued && s'.queue.pending == s.queue.pending)
    requires forall x | x != id :: (x in s.rows <==> x in s'.rows) && (x in s.rows ==> s'.rows[x] == s.rows[x])
    requires forall x | x != id :: x in s.queue.pending ==> x in s'.queue.pending
    ensures Served(s')
  {
    forall x | x in s'.rows && s'.rows[x].status == Running
      ensures Owned(s', x)
    {
      var v: nat :| Owns(PhaseOf(s, v)) && IdOf(s, v) == x;
      assert Owns(PhaseOf(s', v)) && IdOf(s', v) == x;
    }
    if !s.queue.stopping {
      forall x | x in s'.rows && s'.rows[x].status == Queued
        ensures x in s'.queue.pending || AboutToClaim(s', x)
      {
        if x !in s'.queue.pending {
          var v: nat :| (PhaseOf(s, v).Entered? || PhaseOf(s, v).Loaded?) && IdOf(s, v) == x;
          assert (PhaseOf(s', v).Entered? || PhaseOf(s', v).Loaded?) && IdOf(s', v) == x;
        }
      }
    }
  }

  lemma ResubmitKeepsInv(s: State, id: JobId, row: Row)
    requires Inv(s) && s.mode == Serving && (id in s.rows ==> s.rows[id].status != Running)
    requires RowOk(row) && row.status == Queued
    ensures Inv(Resubmit(s, id, row))
  {
    var s' := Resubmit(s, id, row);
    Q.InvStep(s.queue, Q.Submit(id));
    HandlerKeepsOwners(s, s', id);
    HandlerKeepsServed(s, s', id);
  }

  lemma RecastKeepsInv(s: State, id: JobId)
    requires Inv(s) && Enabled(s, Recast(id))
    ensures Inv(Next(s, Recast(id)))
  {
    EffectsKeepRowOk(s.rows[id], Some(Cast), Position(Cast));
    if s.rows[id].status == Queued {
      var s' := Next(s, Recast(id));
      HandlerKeepsOwners(s, s', id);
      HandlerKeepsServed(s, s', id);
    } else {
      ResubmitKeepsInv(s, id, Requeue(s.rows[id], Some(Cast)));
    }
  }

  lemma CancelKeepsInv(s: State, id: JobId)
    requires Inv(s) && Enabled(s, CancelJob(id))
    ensures Inv(Next(s, CancelJob(id)))
  {
    var s' := Next(s, CancelJob(id));
    if s.rows[id].status == Queued {
      Q.InvStep(s.queue, Q.Discard(id));
      HandlerKeepsOwners(s, s', id);
      HandlerKeepsServed(s, s', id);
    } else {
      forall v: nat | Owns(PhaseOf(s', v))
        ensures OwnerOk(s', v)
      {
        assert PhaseOf(s', v) == PhaseOf(s, v) && OwnerOk(s, v);
      }
      forall v1: nat, v2: nat | Owns(PhaseOf(s', v1)) && Owns(PhaseOf(s', v2)) && v1 != v2
        ensures IdOf(s', v1) != IdOf(s', v2)
      {
        assert Owns(PhaseOf(s, v1)) && Owns(PhaseOf(s, v2));
      }
      HandlerKeepsServed(s, s', id);
    }
  }

  lemma DeleteKeepsInv(s: State, id: JobId)
    requires Inv(s) && Enabled(s, Delete(id))
    ensures Inv(Next(s, Delete(id)))
  {
    var s' := Next(s, Delete(id));
    Q.InvStep(s.queue, Q.Discard(id));
    HandlerKeepsOwners(s, s', id);
    HandlerKeepsServed(s, s', id);
  }

  // ----------------------------------------------------------------- queue, exit, boot, command line

  lemma QueueKeepsOwners(s: State, qe: Q.Event)
    requires Inv(s) && Enabled(s, QueueStep(qe))
    ensures OwnersOk(Next(s, QueueStep(qe)))
  {
    var s' := Next(s, QueueStep(qe));
    forall v: nat | Owns(PhaseOf(s', v))
      ensures Owns(PhaseOf(s, v)) && IdOf(s', v) == IdOf(s, v) && OwnerOk(s', v)
    {
      assert PhaseOf(s', v) == PhaseOf(s, v);
      assert OwnerOk(s, v);
    }
  }

  lemma QueuedStaysInQueue(s: State, qe: Q.Event, x: JobId)
    requires Inv(s) && Enabled(s, QueueStep(qe)) && !Next(s, QueueStep(qe)).queue.stopping
    requires x in s.rows && s.rows[x].status == Queued
    ensures var s' := Next(s, QueueStep(qe)); x in s'.queue.pending || AboutToClaim(s', x)
  {
    var s' := Next(s, QueueStep(qe));
    if x in s.queue.pending {
      if x !in s'.queue.pending {
        assert qe.Check? && PhaseOf(s', qe.w).Entered? && IdOf(s', qe.w) == x;
      }
    } else {
      var v: nat :| (PhaseOf(s, v).Entered? || PhaseOf(s, v).Loaded?) && IdOf(s, v) == x;
      assert (PhaseOf(s', v).Entered? || PhaseOf(s', v).Loaded?) && IdOf(s', v) == x;
    }
  }

  lemma QueueKeepsServed(s: State, qe: Q.Event)
    requires Inv(s) && Enabled(s, QueueStep(qe))
    ensures Served(Next(s, QueueStep(qe)))
  {
    var s' := Next(s, QueueStep(qe));
    forall x | x in s'.rows && s'.rows[x].status == Running
      ensures Owned(s', x)
    {
      var v: nat :| Owns(PhaseOf(s, v)) && IdOf(s, v) == x;
      assert Owns(PhaseOf(s', v)) && IdOf(s', v) == x;
    }
    if !s'.queue.stopping {
      forall x | x in s'.rows && s'.rows[x].status == Queued
        ensures x in s'.queue.pending || AboutToClaim(s', x)
      {
        QueuedStaysInQueue(s, qe, x);
      }
    }
  }

  lemma QueueKeepsInv(s: State, qe: Q.Event)
    requires Inv(s) && Enabled(s, QueueStep(qe))
    ensures Inv(Next(s, QueueStep(qe)))
  {
    Q.InvStep(s.queue, qe);
    QueueKeepsOwners(s, qe);
    QueueKeepsServed(s, qe);
  }

  lemma ExitKeepsInv(s: State, w: nat)
    requires Inv(s) && Enabled(s, Exit(w))
    ensures Inv(Next(s, Exit(w)))
  {
    var s' := Next(s, Exit(w));
    Q.InvStep(s.queue, Q.Finish(w));
    forall v: nat | v != w
      ensures PhaseOf(s', v) == PhaseOf(s, v)
      ensures Busy(s, v) ==> IdOf(s', v) == IdOf(s, v)
      ensures Owns(PhaseOf(s, v)) ==> OwnerOk(s, v) && OwnerOk(s', v)
    {
    }
    forall x | Owned(s, x)
      ensures Owned(s', x)
    {
      var v: nat :| Owns(PhaseOf(s, v)) && IdOf(s, v) == x;
      assert Owns(PhaseOf(s', v)) && IdOf(s', v) == x;
    }
    forall x | AboutToClaim(s, x)
      ensures AboutToClaim(s', x)
    {
      var v: nat :| (PhaseOf(s, v).Entered? || PhaseOf(s, v).Loaded?) && IdOf(s, v) == x;
      assert (PhaseOf(s', v).Entered? || PhaseOf(s', v).Loaded?) && IdOf(s', v) == x;
    }
  }

  lemma BootKeepsInv(s: State, workers: nat)
    requires Inv(s) && Enabled(s, Boot(workers))
    ensures Inv(Next(s, Boot(workers)))
  {
    var s' := Next(s, Boot(workers));
    forall id | id in s'.rows
      ensures RowOk(s'.rows[id]) && s'.rows[id].status != Running
    {
      EffectsKeepRowOk(s.rows[id], None, 0);
    }
    forall id
      ensures Q.Balanced(s'.queue, id)
    {
      Q.HeldIdle(workers, id);
    }
  }

  lemma CommandLineKeepsInv(s: State, id: JobId, from: Option<Stage>)
    requires Inv(s) && Enabled(s, RunFromCommandLine(id, from))
    ensures Inv(Next(s, RunFromCommandLine(id, from)))
  {
    if id in s.rows {
      EffectsKeepRowOk(s.rows[id], from, 0);
    }
    var s' := Next(s, RunFromCommandLine(id, from));
    forall x
      ensures Q.Balanced(s'.queue, x)
    {
      assert Q.Held([Q.Running(id)], x) == Q.Held([], x);
    }
  }

  // ----------------------------------------------------------------- runs

  lemma StepKeepsInv(s: State, e: Event)
    requires Inv(s) && Enabled(s, e)
    ensures Inv(Next(s, e))
  {
    match e
    case Create(id) => ResubmitKeepsInv(s, id, NEW_ROW);
    case Recast(id) => RecastKeepsInv(s, id);
    case Retry(id, from) =>
      EffectsKeepRowOk(s.rows[id], from, 0);
      ResubmitKeepsInv(s, id, Requeue(s.rows[id], from));
    case CancelJob(id) => CancelKeepsInv(s, id);
    case Delete(id) => DeleteKeepsInv(s, id);
    case QueueStep(qe) => QueueKeepsInv(s, qe);
    case Work(w, action) => WorkKeepsInv(s, w, action);
    case Exit(w) => ExitKeepsInv(s, w);
    case Crash => Q.InitialInv(0);
    case Boot(workers) => BootKeepsInv(s, workers);
    case RunFromCommandLine(id, from) => CommandLineKeepsInv(s, id, from);
  }

  lemma {:induction false} RunKeepsInv(s: State, es: seq<Event>)
    requires Inv(s) && IsRun(s, es)
    ensures Inv(After(s, es))
    decreases |es|
  {
    if es != [] {
      StepKeepsInv(s, es[0]);
      RunKeepsInv(Next(s, es[0]), es[1..]);
    }
  }

  ghost predicate Reachable(s: State) {
    exists es :: IsRun(Initial(), es) && s == After(Initial(), es)
  }

  lemma ReachableInv(s: State)
    requires Reachable(s)
    ensures Inv(s)
  {
    var es :| IsRun(Initial(), es) && s == After(Initial(), es);
    Q.InitialInv(0);
    RunKeepsInv(Initial(), es);
  }

  /** Completed stages form a prefix of the pipeline, a done job has all five, and an error is recorded for
      exactly the failed and cancelled jobs. */
  lemma StagesAreAlwaysAPrefix(s: State, id: JobId)
    requires Reachable(s) && id in s.rows
    ensures DonePrefix(s.rows[id].stages)
    ensures s.rows[id].status == Done ==> DoneUpTo(s.rows[id].stages, 5)
    ensures s.rows[id].error != None <==> s.rows[id].status in {Failed, Cancelled}
  {
    ReachableInv(s);
  }

  /** At most one worker is between a successful claim and its exit write for a job, and until then the job
      stays `running`. */
  lemma OneWorkerPerJob(s: State, v: nat, w: nat)
    requires Reachable(s) && Owns(PhaseOf(s, v)) && Owns(PhaseOf(s, w))
    ensures IdOf(s, v) in s.rows && s.rows[IdOf(s, v)].status == Running
    ensures IdOf(s, v) == IdOf(s, w) ==> v == w
  {
    ReachableInv(s);
    assert OwnerOk(s, v);
  }

  /** What a run executed so far is the front of a suffix of the pipeline, and when it is about to write
      `done` it has executed exactly that suffix, in order. */
  lemma RunsExecuteTheUnfinishedSuffix(s: State, w: nat)
    requires Reachable(s) && PhaseOf(s, w).Staging?
    ensures
      var p, n := PhaseOf(s, w), 5 - |PhaseOf(s, w).todo|;
      && n >= 0 && p.todo == STAGE_ORDER[n..] && p.ran <= p.todo
      && IdOf(s, w) in s.rows
      && DoneUpTo(s.rows[IdOf(s, w)].stages, n + |p.ran| - if p.inStage then 1 else 0)
      && (CanWork(s, w, MarkDone) ==> p.ran == STAGE_ORDER[n..])
  {
    ReachableInv(s);
    assert Owns(PhaseOf(s, w)) && OwnerOk(s, w);
  }

  /** The plan made at the start of a run is the suffix after the completed prefix. */
  lemma PlanStartsAfterTheCompletedPrefix(s: State, w: nat)
    requires Reachable(s) && Enabled(s, Work(w, Plan))
    ensures
      var p := PhaseOf(Next(s, Work(w, Plan)), w);
      && IdOf(s, w) in s.rows
      && p.Staging? && |p.todo| <= 5 && p.todo == STAGE_ORDER[5 - |p.todo|..]
      && DoneUpTo(s.rows[IdOf(s, w)].stages, 5 - |p.todo|)
  {
    ReachableInv(s);
    assert Owns(PhaseOf(s, w)) && OwnerOk(s, w);
    var n := PlanIsTheUnfinishedSuffix(s.rows[IdOf(s, w)].stages);
  }

  /** No queued job is lost: while the server is up and not stopping, a queued job has an entry somewhere in
      the queue, or a worker is about to claim it. */
  lemma NoQueuedJobIsLost(s: State, id: JobId)
    requires Reachable(s) && s.mode == Serving && !s.queue.stopping
    requires id in s.rows && s.rows[id].status == Queued
    ensures AboutToClaim(s, id)
      || id in s.queue.inFlight || Some(id) in s.queue.entries || Q.Holding(id) in s.queue.workers
  {
    ReachableInv(s);
    if id in s.queue.pending {
      Q.WaitingIdHasAnEntry(s.queue, id);
    }
  }

  /** A running job always has the one worker that will write its exit status. */
  lemma NoRunningJobIsOrphaned(s: State, id: JobId)
    requires Reachable(s) && s.mode == Serving && id in s.rows && s.rows[id].status == Running
    ensures Owned(s, id)
  {
    ReachableInv(s);
  }
}
