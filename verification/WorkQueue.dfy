/** The in-process job queue (`InProcessQueue`).  Every section that the queue's lock makes atomic
    is one event, and the steps of different threads interleave freely; a submit is two events
    (register the id, put its entry) and so is a worker's pick-up (get an entry, check the id). */
module WorkQueue {
  import opened Common

  type JobId = string

  datatype Worker = Idle | Holding(id: JobId) | Running(id: JobId) | Exited

  /** `pending`, `entries`, `workers`, `stopping` are the queue's own state; `inFlight` are ids between
      the two halves of a submit; the four multisets record what happened so far. */
  datatype State = State(
    pending: set<JobId>,
    entries: seq<Option<JobId>>,
    workers: seq<Worker>,
    stopping: bool,
    inFlight: multiset<JobId>,
    accepted: multiset<JobId>,
    started: multiset<JobId>,
    discarded: multiset<JobId>,
    dropped: multiset<JobId>)

  datatype Event =
    | Submit(id: JobId)
    | Put(id: JobId)
    | Discard(id: JobId)
    | Get(w: nat)
    | Check(w: nat)
    | Finish(w: nat)
    | Leave(w: nat)
    | Stop

  function Initial(workers: nat): State {
    State({}, [], seq(workers, _ => Idle), false, multiset{}, multiset{}, multiset{}, multiset{}, multiset{})
  }

  predicate Enabled(s: State, e: Event) {
    match e
    case Submit(_) => true
    case Put(id) => id in s.inFlight
    case Discard(_) => true
    case Get(w) => w < |s.workers| && s.workers[w].Idle? && s.entries != []
    case Check(w) => w < |s.workers| && s.workers[w].Holding?
    case Finish(w) => w < |s.workers| && s.workers[w].Running?
    case Leave(w) => w < |s.workers| && s.workers[w].Idle? && s.stopping
    case Stop => true
  }

  function Next(s: State, e: Event): State
    requires Enabled(s, e)
  {
    match e
    case Submit(id) =>
      if id in s.pending then s
      else s.(pending := s.pending + {id}, inFlight := s.inFlight + multiset{id}, accepted := s.accepted + multiset{id})
    case Put(id) =>
      s.(inFlight := s.inFlight - multiset{id}, entries := s.entries + [Some(id)])
    case Discard(id) =>
      if id !in s.pending then s
      else s.(pending := s.pending - {id}, discarded := s.discarded + multiset{id})
    case Get(w) =>
      s.(entries := s.entries[1..],
         workers := s.workers[w := match s.entries[0] case None => Exited case Some(id) => Holding(id)])
    case Check(w) =>
      var id := s.workers[w].id;
      if id !in s.pending then s.(workers := s.workers[w := Idle], dropped := s.dropped + multiset{id})
      else s.(pending := s.pending - {id}, workers := s.workers[w := Running(id)], started := s.started + multiset{id})
    case Finish(w) =>
      s.(workers := s.workers[w := Idle])
    case Leave(w) =>
      s.(workers := s.workers[w := Exited])
    case Stop =>
      s.(stopping := true, entries := s.entries + seq(|s.workers|, _ => None))
  }

  /** The state after a whole run, when every event of it is enabled in turn. */
  ghost predicate IsRun(s: State, es: seq<Event>)
    decreases |es|
  {
    es == [] || (Enabled(s, es[0]) && IsRun(Next(s, es[0]), es[1..]))
  }

  ghost function After(s: State, es: seq<Event>): State
    requires IsRun(s, es)
    decreases |es|
  {
    if es == [] then s else After(Next(s, es[0]), es[1..])
  }

  // ----------------------------------------------------------------- conservation

  function Queued(entries: seq<Option<JobId>>, id: JobId): nat {
    if entries == [] then 0 else (if entries[0] == Some(id) then 1 else 0) + Queued(entries[1..], id)
  }

  function Held(ws: seq<Worker>, id: JobId): nat {
    if ws == [] then 0 else (if ws[0] == Holding(id) then 1 else 0) + Held(ws[1..], id)
  }

  /** Entries of `id` not consumed yet, wherever they are: being put, queued, or in a worker's hand. */
  function Outstanding(s: State, id: JobId): nat {
    s.inFlight[id] + Queued(s.entries, id) + Held(s.workers, id)
  }

  function Waiting(s: State, id: JobId): nat {
    if id in s.pending then 1 else 0
  }

  /** The two balances of one id, and no waiting id without an entry. */
  ghost predicate Balanced(s: State, id: JobId) {
    && s.accepted[id] == s.started[id] + s.discarded[id] + Waiting(s, id)
    && s.accepted[id] == s.started[id] + s.dropped[id] + Outstanding(s, id)
    && Waiting(s, id) <= Outstanding(s, id)
  }

  ghost predicate Inv(s: State) {
    forall id :: Balanced(s, id)
  }

  lemma {:induction false} QueuedAppend(xs: seq<Option<JobId>>, ys: seq<Option<JobId>>, id: JobId)
    ensures Queued(xs + ys, id) == Queued(xs, id) + Queued(ys, id)
  {
    if xs == [] {
      assert xs + ys == ys;
    } else {
      QueuedAppend(xs[1..], ys, id);
      assert (xs + ys)[1..] == xs[1..] + ys;
    }
  }

  lemma {:induction false} QueuedSentinels(n: nat, id: JobId)
    ensures Queued(seq(n, _ => None), id) == 0
  {
    if n > 0 {
      QueuedSentinels(n - 1, id);
      assert seq(n, _ => None)[1..] == seq<Option<JobId>>(n - 1, _ => None);
    }
  }

  lemma {:induction false} HeldUpdate(ws: seq<Worker>, w: nat, x: Worker, id: JobId)
    requires w < |ws|
    ensures Held(ws[w := x], id) + (if ws[w] == Holding(id) then 1 else 0)
         == Held(ws, id) + (if x == Holding(id) then 1 else 0)
  {
    if w == 0 {
      assert ws[w := x][1..] == ws[1..];
    } else {
      HeldUpdate(ws[1..], w - 1, x, id);
      assert ws[w := x][1..] == ws[1..][w - 1 := x];
    }
  }

  lemma {:induction false} HeldIdle(n: nat, id: JobId)
    ensures Held(seq(n, _ => Idle), id) == 0
  {
    if n > 0 {
      HeldIdle(n - 1, id);
      assert seq(n, _ => Idle)[1..] == seq<Worker>(n - 1, _ => Idle);
    }
  }

  lemma InitialInv(workers: nat)
    ensures Inv(Initial(workers))
  {
    forall id
      ensures Balanced(Initial(workers), id)
    {
      HeldIdle(workers, id);
    }
  }

  lemma QueuedOne(x: JobId, id: JobId)
    ensures Queued([Some(x)], id) == if x == id then 1 else 0
  {
    assert Queued([Some(x)][1..], id) == 0;
  }

  /** Steps of the callers and of `stop`. */
  lemma BalancedOutside(s: State, e: Event, id: JobId)
    requires Balanced(s, id) && Enabled(s, e) && (e.Submit? || e.Put? || e.Discard? || e.Stop?)
    ensures Balanced(Next(s, e), id)
  {
    match e
    case Put(x) =>
      QueuedAppend(s.entries, [Some(x)], id);
      QueuedOne(x, id);
    case Stop =>
      QueuedAppend(s.entries, seq(|s.workers|, _ => None), id);
      QueuedSentinels(|s.workers|, id);
    case _ =>
  }

  /** Steps of one worker. */
  lemma BalancedInside(s: State, e: Event, id: JobId)
    requires Balanced(s, id) && Enabled(s, e) && (e.Get? || e.Check? || e.Finish? || e.Leave?)
    ensures Balanced(Next(s, e), id)
  {
    HeldUpdate(s.workers, e.w, Next(s, e).workers[e.w], id);
  }

  lemma BalancedStep(s: State, e: Event, id: JobId)
    requires Balanced(s, id) && Enabled(s, e)
    ensures Balanced(Next(s, e), id)
  {
    if e.Submit? || e.Put? || e.Discard? || e.Stop? {
      BalancedOutside(s, e, id);
    } else {
      BalancedInside(s, e, id);
    }
  }

  lemma InvStep(s: State, e: Event)
    requires Inv(s) && Enabled(s, e)
    ensures Inv(Next(s, e))
  {
    forall id
      ensures Balanced(Next(s, e), id)
    {
      BalancedStep(s, e, id);
    }
  }

  /** Conservation over every run: each accepted submit was started, was discarded or still waits, and
      a waiting id always has an entry that some worker will look at. */
  lemma {:induction false} NoSubmitIsLost(s: State, es: seq<Event>)
    requires Inv(s) && IsRun(s, es)
    ensures Inv(After(s, es))
    decreases |es|
  {
    if es != [] {
      InvStep(s, es[0]);
      NoSubmitIsLost(Next(s, es[0]), es[1..]);
    }
  }

  lemma {:induction false} QueuedMember(entries: seq<Option<JobId>>, id: JobId)
    requires Queued(entries, id) > 0
    ensures Some(id) in entries
  {
    if entries[0] != Some(id) {
      QueuedMember(entries[1..], id);
    }
  }

  lemma {:induction false} HeldMember(ws: seq<Worker>, id: JobId)
    requires Held(ws, id) > 0
    ensures Holding(id) in ws
  {
    if ws[0] != Holding(id) {
      HeldMember(ws[1..], id);
    }
  }

  lemma WaitingIdHasAnEntry(s: State, id: JobId)
    requires Inv(s) && id in s.pending
    ensures id in s.inFlight || Some(id) in s.entries || Holding(id) in s.workers
  {
    assert Balanced(s, id);
    if Queued(s.entries, id) > 0 {
      QueuedMember(s.entries, id);
    }
    if Held(s.workers, id) > 0 {
      HeldMember(s.workers, id);
    }
  }

  /** Once no entry of an id is left anywhere, each of its accepted submits was started or discarded, and
      exactly the discarded ones were skipped by a worker. */
  lemma DrainedQueueOwesNothing(workers: nat, es: seq<Event>, id: JobId)
    requires IsRun(Initial(workers), es)
    requires Outstanding(After(Initial(workers), es), id) == 0
    ensures
      var s := After(Initial(workers), es);
      id !in s.pending && s.accepted[id] == s.started[id] + s.discarded[id] && s.dropped[id] == s.discarded[id]
  {
    InitialInv(workers);
    NoSubmitIsLost(Initial(workers), es);
    assert Balanced(After(Initial(workers), es), id);
  }

  /** A successful discard is final: until the id is submitted again no worker starts it, although its
      stale entry may still be anywhere in the queue. */
  lemma {:induction false} DiscardedIsNotStarted(s: State, es: seq<Event>, id: JobId)
    requires IsRun(s, es) && id !in s.pending && Submit(id) !in es
    ensures After(s, es).started[id] == s.started[id] && id !in After(s, es).pending
    decreases |es|
  {
    if es != [] {
      var s' := Next(s, es[0]);
      assert es[0] != Submit(id);
      DiscardedIsNotStarted(s', es[1..], id);
    }
  }

  /** A second submit while the id still waits changes nothing, so one pick-up serves both. */
  lemma RepeatedSubmitIsIgnored(s: State, id: JobId)
    ensures Next(Next(s, Submit(id)), Submit(id)) == Next(s, Submit(id))
  {
  }

  // ----------------------------------------------------------------- the class

  /** `InProcessQueue`, one method for each atomic section.  `history` is the model state that the
      fields are kept equal to. */
  class InProcessQueue {
    var pending: set<JobId>
    var entries: seq<Option<JobId>>
    var workers: seq<Worker>
    var stopping: bool
    ghost var history: State

    ghost predicate Valid()
      reads this
    {
      && history.pending == pending && history.entries == entries
      && history.workers == workers && history.stopping == stopping
      && Inv(history)
    }

    constructor (count: int)
      ensures Valid() && history == Initial(Max(1, count))
    {
      pending, entries, workers, stopping := {}, [], seq(Max(1, count), _ => Idle), false;
      history := Initial(Max(1, count));
      InitialInv(Max(1, count));
    }

    /** First half of `submit`, under the lock; a true result obliges the caller to `PutEntry`. */
    method RegisterSubmit(id: JobId) returns (mustPut: bool)
      requires Valid()
      modifies this
      ensures Valid() && history == Next(old(history), Submit(id))
      ensures mustPut <==> id !in old(pending)
    {
      InvStep(history, Submit(id));
      history := Next(history, Submit(id));
      if id in pending {
        return false;
      }
      pending := pending + {id};
      return true;
    }

    method PutEntry(id: JobId)
      requires Valid() && Enabled(history, Put(id))
      modifies this
      ensures Valid() && history == Next(old(history), Put(id))
    {
      InvStep(history, Put(id));
      history := Next(history, Put(id));
      entries := entries + [Some(id)];
    }

    method DiscardId(id: JobId) returns (waiting: bool)
      requires Valid()
      modifies this
      ensures Valid() && history == Next(old(history), Discard(id))
      ensures waiting <==> id in old(pending)
    {
      InvStep(history, Discard(id));
      history := Next(history, Discard(id));
      if id !in pending {
        return false;
      }
      pending := pending - {id};
      return true;
    }

    /** `_queue.get`: an idle worker takes the oldest entry, a sentinel ends it. */
    method GetEntry(w: nat)
      requires Valid() && Enabled(history, Get(w))
      modifies this
      ensures Valid() && history == Next(old(history), Get(w))
    {
      InvStep(history, Get(w));
      history := Next(history, Get(w));
      workers := workers[w := match entries[0] case None => Exited case Some(id) => Holding(id)];
      entries := entries[1..];
    }

    /** The locked check in `_worker`: returns the id to run, or nothing for a stale entry. */
    method CheckEntry(w: nat) returns (job: Option<JobId>)
      requires Valid() && Enabled(history, Check(w))
      modifies this
      ensures Valid() && history == Next(old(history), Check(w))
      ensures job == if old(workers)[w].id in old(pending) then Some(old(workers)[w].id) else None
    {
      InvStep(history, Check(w));
      history := Next(history, Check(w));
      var id := workers[w].id;
      if id !in pending {
        workers := workers[w := Idle];
        return None;
      }
      pending := pending - {id};
      workers := workers[w := Running(id)];
      return Some(id);
    }

    method FinishJob(w: nat)
      requires Valid() && w < |workers| && workers[w].Running?
      modifies this
      ensures Valid() && history == Next(old(history), Finish(w))
    {
      InvStep(history, Finish(w));
      history := Next(history, Finish(w));
      workers := workers[w := Idle];
    }

    method StopAll()
      requires Valid()
      modifies this
      ensures Valid() && history == Next(old(history), Stop)
    {
      InvStep(history, Stop);
      history := Next(history, Stop);
      stopping := true;
      entries := entries + seq(|workers|, _ => None);
    }

    method Depth() returns (waiting: nat)
      requires Valid()
      ensures waiting == |history.pending|
    {
      waiting := |pending|;
    }
  }
}
