/**
 The encoder pool: one dispatcher (the JPEG thread) and n workers that share the counter
 free_workers and the per-worker has_job flags.  The counter, the flags and the list scan
 are separate steps, so every interleaving of the threads is a run.
 */
module WorkersPool {
  import opened Common

  /** Where a worker thread is. */
  datatype WorkerPc =
    | Asleep              // waiting for has_job
    | Running(t: int)     // run_job was entered at time t
    | Clearing            // about to store has_job = false
    | Giving              // about to add itself to free_workers

  datatype Worker = Worker(pc: WorkerPc, hasJob: bool, startTs: int, failed: bool, job: Option<nat>)

  /** Where the dispatcher is. */
  datatype Dispatcher =
    | Waiting                                  // blocked until free_workers > 0
    | Scanning(pos: nat, found: Option<nat>)   // walking over the worker list
    | Holding(w: nat)                          // us_workers_pool_wait returned w
    | Flagged(w: nat)                          // inside assign: has_job is set, the counter is not updated

  /** A job the dispatcher has taken back from its worker. */
  datatype Done = Done(id: nat, ok: bool, start: int)

  datatype State = State(
    now: int,
    free: int,
    workers: seq<Worker>,
    order: seq<nat>,             // the pool's worker list
    disp: Dispatcher,
    timelyTs: int,
    nextJob: nat,                // jobs are numbered as they are assigned
    collected: seq<Done>,
    exposed: seq<Done>)

  datatype Action =
    | Tick(dt: nat)
    | Wake(w: nat) | Finish(w: nat, ok: bool) | Clear(w: nat) | Give(w: nat)
    | WaitDone | Scan | Return | Skip | SetFlag | TakeCount

  function Init(n: nat): State {
    State(0, n, seq(n, _ => Worker(Asleep, false, 0, false, None)), seq(n, i => i), Waiting, 0, 0, [], [])
  }

  predicate Shape(n: nat, s: State) {
    && |s.workers| == |s.order| == n
    && (forall i | 0 <= i < n :: s.order[i] < n)
    && match s.disp
       case Waiting => true
       case Scanning(pos, found) => pos <= n && (found.Some? ==> found.value < n)
       case Holding(w) => w < n
       case Flagged(w) => w < n
  }

  predicate Enabled(n: nat, s: State, a: Action)
    requires Shape(n, s)
  {
    match a
    case Tick(_) => true
    case Wake(w) => w < n && s.workers[w].pc.Asleep? && s.workers[w].hasJob
    case Finish(w, _) => w < n && s.workers[w].pc.Running?
    case Clear(w) => w < n && s.workers[w].pc.Clearing?
    case Give(w) => w < n && s.workers[w].pc.Giving?
    case WaitDone => s.disp.Waiting? && s.free > 0
    case Scan => s.disp.Scanning? && s.disp.pos < n
    case Return => s.disp.Scanning? && s.disp.pos == n && s.disp.found.Some?
    case Skip => s.disp.Holding?
    case SetFlag => s.disp.Holding?
    case TakeCount => s.disp.Flagged?
  }

  /** One round of the list scan: the idle worker with the latest start so far, later ones winning ties. */
  function Better(s: State, found: Option<nat>, w: nat): Option<nat>
    requires w < |s.workers| && (found.Some? ==> found.value < |s.workers|)
  {
    if !s.workers[w].hasJob && (found.None? || s.workers[found.value].startTs <= s.workers[w].startTs)
    then Some(w) else found
  }

  /** Position of w in the list, or its length. */
  function IndexOf(order: seq<nat>, w: nat): (i: nat)
    ensures i <= |order|
    ensures i < |order| ==> order[i] == w
    ensures i == |order| ==> w !in order
  {
    if order == [] then 0 else if order[0] == w then 0 else 1 + IndexOf(order[1..], w)
  }

  /** US_LIST_REMOVE followed by US_LIST_APPEND. */
  function MoveToEnd(order: seq<nat>, w: nat): seq<nat> {
    var i := IndexOf(order, w);
    if i == |order| then order else order[..i] + order[i + 1..] + [w]
  }

  /** The end of us_workers_pool_wait and the dispatcher's treatment of the finished job. */
  function Collect(s: State, w: nat): State
    requires w < |s.workers|
  {
    var wr := s.workers[w];
    var timely := wr.startTs > s.timelyTs;
    var s1 := s.(order := MoveToEnd(s.order, w), disp := Holding(w),
                 timelyTs := if timely then wr.startTs else s.timelyTs);
    if wr.job.None? then s1
    else
      var d := Done(wr.job.value, !wr.failed, wr.startTs);
      s1.(workers := s.workers[w := wr.(job := None)],
          collected := s.collected + [d],
          exposed := if !wr.failed && timely then s.exposed + [d] else s.exposed)
  }

  function SetWorker(s: State, w: nat, wr: Worker): State
    requires w < |s.workers|
  {
    s.(workers := s.workers[w := wr])
  }

  function Step(n: nat, s: State, a: Action): State
    requires Shape(n, s) && Enabled(n, s, a)
  {
    match a
    case Tick(dt) => s.(now := s.now + dt)
    case Wake(w) => SetWorker(s, w, s.workers[w].(pc := Running(s.now)))
    case Finish(w, ok) =>
      var wr := s.workers[w];
      SetWorker(s, w, wr.(pc := Clearing, failed := !ok, startTs := if ok then wr.pc.t else wr.startTs))
    case Clear(w) => SetWorker(s, w, s.workers[w].(pc := Giving, hasJob := false))
    case Give(w) => SetWorker(s, w, s.workers[w].(pc := Asleep)).(free := s.free + 1)
    case WaitDone => s.(disp := Scanning(0, None))
    case Scan => s.(disp := Scanning(s.disp.pos + 1, Better(s, s.disp.found, s.order[s.disp.pos])))
    case Return => Collect(s, s.disp.found.value)
    case Skip => s.(disp := Waiting)
    case SetFlag =>
      var w := s.disp.w;
      SetWorker(s, w, s.workers[w].(hasJob := true, job := Some(s.nextJob)))
        .(disp := Flagged(w), nextJob := s.nextJob + 1)
    case TakeCount => s.(free := s.free - 1, disp := Waiting)
  }

  // ---------------------------------------------------------------- counting

  /** A job in hand and a pending give-back each keep the worker out of free_workers. */
  function Load(wr: Worker): nat {
    (if wr.hasJob then 1 else 0) + (if wr.pc.Giving? then 1 else 0)
  }

  function TotalLoad(ws: seq<Worker>): nat {
    if ws == [] then 0 else TotalLoad(ws[..|ws| - 1]) + Load(ws[|ws| - 1])
  }

  lemma {:induction false} LoadUpdate(ws: seq<Worker>, w: nat, wr: Worker)
    requires w < |ws|
    ensures TotalLoad(ws[w := wr]) == TotalLoad(ws) - Load(ws[w]) + Load(wr)
  {
    var last := |ws| - 1;
    if w == last {
      assert ws[w := wr][..last] == ws[..last];
    } else {
      assert ws[w := wr][..last] == ws[..last][w := wr];
      LoadUpdate(ws[..last], w, wr);
    }
  }

  /** If the loads do not add up to the number of workers, somebody is idle. */
  lemma {:induction false} IdleExists(ws: seq<Worker>) returns (w: nat)
    requires TotalLoad(ws) < |ws|
    ensures w < |ws| && !ws[w].hasJob
  {
    var last := |ws| - 1;
    if !ws[last].hasJob {
      w := last;
    } else {
      w := IdleExists(ws[..last]);
    }
  }

  // ---------------------------------------------------------------- timeliness

  function MaxStart(log: seq<Done>): (m: int)
    ensures m >= 0
  {
    if log == [] then 0
    else
      var d, before := log[|log| - 1], MaxStart(log[..|log| - 1]);
      if d.ok && d.start > before then d.start else before
  }

  /** The successful jobs that started after every successful job collected before them. */
  function Records(log: seq<Done>): seq<Done> {
    if log == [] then []
    else
      var front, d := log[..|log| - 1], log[|log| - 1];
      if d.ok && d.start > MaxStart(front) then Records(front) + [d] else Records(front)
  }

  /** The start time of w belongs to a finished job nobody has looked at yet. */
  ghost predicate Fresh(wr: Worker) {
    wr.job.Some? && !wr.failed && (wr.pc.Clearing? || !wr.hasJob)
  }

  ghost predicate WorkerOk(s: State, wr: Worker) {
    && (wr.pc.Running? || wr.pc.Clearing? ==> wr.hasJob)
    && (wr.hasJob ==> wr.job.Some?)
    && (!Fresh(wr) ==> wr.startTs <= s.timelyTs)
    && (wr.job.Some? ==> wr.job.value < s.nextJob)
  }

  ghost predicate InLog(s: State, id: nat) {
    exists i :: 0 <= i < |s.collected| && s.collected[i].id == id
  }

  ghost predicate AtWorker(s: State, id: nat) {
    exists w :: 0 <= w < |s.workers| && s.workers[w].job == Some(id)
  }

  ghost predicate JobsOk(s: State) {
    && (forall v, w | 0 <= v < w < |s.workers| && s.workers[v].job.Some? :: s.workers[v].job != s.workers[w].job)
    && (forall i | 0 <= i < |s.collected| :: s.collected[i].id < s.nextJob)
    && (forall i, j | 0 <= i < j < |s.collected| :: s.collected[i].id != s.collected[j].id)
    && (forall id: nat | id < s.nextJob :: InLog(s, id) <==> !AtWorker(s, id))
  }

  ghost predicate DispatcherOk(n: nat, s: State)
    requires Shape(n, s)
  {
    && (!s.disp.Waiting? ==> s.free >= 1)
    && match s.disp
       case Waiting => true
       case Scanning(pos, found) =>
         if found.Some? then !s.workers[found.value].hasJob
         else exists p :: pos <= p < n && !s.workers[s.order[p]].hasJob
       case Holding(w) => !s.workers[w].hasJob && s.workers[w].job.None?
       case Flagged(_) => true
  }

  ghost predicate Inv(n: nat, s: State) {
    && Shape(n, s)
    && NoDuplicates(s.order)
    && s.free >= 0
    && s.free + TotalLoad(s.workers) == n + (if s.disp.Flagged? then 1 else 0)
    && DispatcherOk(n, s)
    && (forall w | 0 <= w < n :: WorkerOk(s, s.workers[w]))
    && JobsOk(s)
    && s.timelyTs == MaxStart(s.collected)
    && s.exposed == Records(s.collected)
  }

  // ---------------------------------------------------------------- every step keeps the invariant

  lemma InitInv(n: nat)
    ensures Inv(n, Init(n))
  {
    IdleLoad(Init(n).workers);
  }

  lemma {:induction false} IdleLoad(ws: seq<Worker>)
    requires forall w | 0 <= w < |ws| :: Load(ws[w]) == 0
    ensures TotalLoad(ws) == 0
  {
    if ws != [] {
      IdleLoad(ws[..|ws| - 1]);
    }
  }

  /** A worker step: same job, flag never raised, timely clock untouched. */
  lemma WorkerStepInv(n: nat, s: State, w: nat, wr: Worker, given: nat)
    requires Inv(n, s) && w < n && wr.job == s.workers[w].job
    requires wr.hasJob ==> s.workers[w].hasJob
    requires Load(wr) == Load(s.workers[w]) - given
    requires WorkerOk(s, wr)
    ensures Inv(n, SetWorker(s, w, wr).(free := s.free + given))
  {
    LoadUpdate(s.workers, w, wr);
    var s' := SetWorker(s, w, wr).(free := s.free + given);
    SameJobs(s, s');
  }

  lemma SameJobs(s: State, s': State)
    requires |s'.workers| == |s.workers| && s'.collected == s.collected && s'.nextJob == s.nextJob
    requires forall w | 0 <= w < |s.workers| :: s'.workers[w].job == s.workers[w].job
    requires JobsOk(s)
    ensures JobsOk(s')
  {
    forall id: nat | id < s.nextJob
      ensures InLog(s', id) <==> !AtWorker(s', id)
    {
      assert InLog(s', id) <==> InLog(s, id);
      assert AtWorker(s', id) <==> AtWorker(s, id);
    }
  }

  lemma Surjective(n: nat, order: seq<nat>, w: nat) returns (p: nat)
    requires |order| == n && NoDuplicates(order) && (forall i | 0 <= i < n :: order[i] < n) && w < n
    ensures p < n && order[p] == w
  {
    p := IndexOf(order, w);
    if p == n {
      Pigeonhole(order, n, w);
    }
  }

  /** free_workers > 0 was seen: the scan that starts now will meet an idle worker. */
  lemma WaitDoneInv(n: nat, s: State)
    requires Inv(n, s) && Enabled(n, s, WaitDone)
    ensures Inv(n, Step(n, s, WaitDone))
  {
    var w := IdleExists(s.workers);
    var p := Surjective(n, s.order, w);
    SameJobs(s, Step(n, s, WaitDone));
  }

  lemma ScanInv(n: nat, s: State)
    requires Inv(n, s) && Enabled(n, s, Scan)
    ensures Inv(n, Step(n, s, Scan))
  {
    var s' := Step(n, s, Scan);
    SameJobs(s, s');
    if s'.disp.found.None? {
      var p :| s.disp.pos <= p < n && !s.workers[s.order[p]].hasJob;
      assert s.disp.pos + 1 <= p;
    }
  }

  lemma RotateOk(n: nat, order: seq<nat>, p: nat)
    requires |order| == n && NoDuplicates(order) && (forall i | 0 <= i < n :: order[i] < n) && p < n
    ensures var r := order[..p] + order[p + 1..] + [order[p]];
      |r| == n && NoDuplicates(r) && (forall i | 0 <= i < n :: r[i] < n)
  {
    var r := order[..p] + order[p + 1..] + [order[p]];
    assert forall i | 0 <= i < n :: r[i] == order[if i < p then i else if i < n - 1 then i + 1 else p];
  }

  lemma MoveToEndOk(n: nat, order: seq<nat>, w: nat)
    requires |order| == n && NoDuplicates(order) && (forall i | 0 <= i < n :: order[i] < n) && w < n
    ensures var r := MoveToEnd(order, w);
      |r| == n && NoDuplicates(r) && (forall i | 0 <= i < n :: r[i] < n) && r[n - 1] == w
  {
    var p := Surjective(n, order, w);
    RotateOk(n, order, IndexOf(order, w));
  }

  lemma ReturnInv(n: nat, s: State)
    requires Inv(n, s) && Enabled(n, s, Return)
    ensures Inv(n, Step(n, s, Return))
  {
    var w := s.disp.found.value;
    var wr, s' := s.workers[w], Step(n, s, Return);
    MoveToEndOk(n, s.order, w);
    assert WorkerOk(s, wr);
    if wr.job.None? {
      SameJobs(s, s');
    } else {
      LoadUpdate(s.workers, w, wr.(job := None));
      assert s'.collected[..|s.collected|] == s.collected;
      CollectedJobs(s, s', w);
    }
  }

  /** Collecting moves one job number from its worker to the log. */
  lemma CollectedJobs(s: State, s': State, w: nat)
    requires JobsOk(s) && w < |s.workers| && s.workers[w].job.Some? && WorkerOk(s, s.workers[w])
    requires s'.workers == s.workers[w := s.workers[w].(job := None)] && s'.nextJob == s.nextJob
    requires |s'.collected| == |s.collected| + 1 && s'.collected[..|s.collected|] == s.collected
    requires s'.collected[|s.collected|].id == s.workers[w].job.value
    ensures JobsOk(s')
  {
    var n, id0 := |s.collected|, s.workers[w].job.value;
    assert forall i | 0 <= i < n :: s'.collected[i] == s.collected[i];
    assert AtWorker(s, id0);
    forall id: nat | id < s.nextJob
      ensures InLog(s', id) <==> !AtWorker(s', id)
    {
      assert InLog(s, id) <==> !AtWorker(s, id);
      if id == id0 {
        assert s'.collected[n].id == id;
      } else {
        if i :| 0 <= i < n && s.collected[i].id == id {
          assert s'.collected[i].id == id;
        }
        if v :| 0 <= v < |s.workers| && s.workers[v].job == Some(id) {
          assert s'.workers[v].job == Some(id);
        }
      }
    }
    forall i | 0 <= i < n
      ensures s'.collected[i].id != id0
    {
      assert s.collected[i].id == id0 ==> InLog(s, id0);
    }
  }

  lemma SetFlagInv(n: nat, s: State)
    requires Inv(n, s) && Enabled(n, s, SetFlag)
    ensures Inv(n, Step(n, s, SetFlag))
  {
    var w, s' := s.disp.w, Step(n, s, SetFlag);
    LoadUpdate(s.workers, w, s'.workers[w]);
    assert WorkerOk(s, s.workers[w]);
    forall v | 0 <= v < n
      ensures WorkerOk(s', s'.workers[v])
      ensures v != w ==> s'.workers[v].job != Some(s.nextJob)
    {
      assert WorkerOk(s, s.workers[v]);
    }
    forall id: nat | id < s'.nextJob
      ensures InLog(s', id) <==> !AtWorker(s', id)
    {
      assert InLog(s', id) <==> InLog(s, id);
      if id == s.nextJob {
        assert s'.workers[w].job == Some(id);
      } else {
        assert InLog(s, id) <==> !AtWorker(s, id);
        if v :| 0 <= v < |s.workers| && s.workers[v].job == Some(id) {
          assert s'.workers[v].job == Some(id);
        }
      }
    }
  }

  lemma StepInv(n: nat, s: State, a: Action)
    requires Inv(n, s) && Enabled(n, s, a)
    ensures Inv(n, Step(n, s, a))
  {
    match a
    case Tick(_) => SameJobs(s, Step(n, s, a));
    case Wake(w) => WorkerActionInv(n, s, a);
    case Finish(w, _) => WorkerActionInv(n, s, a);
    case Clear(w) => WorkerActionInv(n, s, a);
    case Give(w) => WorkerActionInv(n, s, a);
    case WaitDone => WaitDoneInv(n, s);
    case Scan => ScanInv(n, s);
    case Return => ReturnInv(n, s);
    case Skip => SameJobs(s, Step(n, s, a));
    case SetFlag => SetFlagInv(n, s);
    case TakeCount => SameJobs(s, Step(n, s, a));
  }

  lemma WorkerActionInv(n: nat, s: State, a: Action)
    requires Inv(n, s) && Enabled(n, s, a) && (a.Wake? || a.Finish? || a.Clear? || a.Give?)
    ensures Inv(n, Step(n, s, a))
  {
    var s' := Step(n, s, a);
    assert WorkerOk(s, s.workers[a.w]);
    WorkerStepInv(n, s, a.w, s'.workers[a.w], if a.Give? then 1 else 0);
  }

  // ---------------------------------------------------------------- whole runs

  ghost predicate Link(n: nat, s: State, a: Action, s': State) {
    Shape(n, s) && Enabled(n, s, a) && s' == Step(n, s, a)
  }

  ghost predicate IsRun(n: nat, states: seq<State>, actions: seq<Action>) {
    && |states| == |actions| + 1
    && states[0] == Init(n)
    && forall i | 0 <= i < |actions| :: Link(n, states[i], actions[i], states[i + 1])
  }

  lemma {:induction false} RunInv(n: nat, states: seq<State>, actions: seq<Action>, i: nat)
    requires IsRun(n, states, actions) && i < |states|
    ensures Inv(n, states[i])
  {
    if i == 0 {
      InitInv(n);
    } else {
      RunInv(n, states, actions, i - 1);
      assert Link(n, states[i - 1], actions[i - 1], states[i]);
      StepInv(n, states[i - 1], actions[i - 1]);
    }
  }

  /**
   free_workers plus the jobs in hand plus the pending give-backs is n, and one more only
   inside assign; the unsigned counter never underflows and assert(found) never fails.
   */
  lemma CounterExact(n: nat, states: seq<State>, actions: seq<Action>, i: nat)
    requires IsRun(n, states, actions) && i < |states|
    ensures var s := states[i];
      && s.free + TotalLoad(s.workers) == n + (if s.disp.Flagged? then 1 else 0)
      && 0 <= s.free
      && (s.disp.Flagged? ==> s.free >= 1)
      && (s.disp.Scanning? && s.disp.pos == n ==> s.disp.found.Some?)
  {
    RunInv(n, states, actions, i);
  }

  ghost predicate Increasing(r: seq<Done>) {
    forall i, j | 0 <= i < j < |r| :: r[i].start < r[j].start
  }

  lemma {:induction false} RecordsIncrease(log: seq<Done>)
    ensures Increasing(Records(log))
    ensures forall d | d in Records(log) :: 0 < d.start <= MaxStart(log) && d.ok && d in log
  {
    if log != [] {
      var front := log[..|log| - 1];
      RecordsIncrease(front);
      assert log == front + [log[|log| - 1]];
      assert forall d | d in Records(log) :: d in Records(front) || d == log[|log| - 1];
      assert forall i | 0 <= i < |Records(front)| :: Records(front)[i] in Records(front);
    }
  }

  /** The latest start so far, with 0, where the pool starts out, as the floor. */
  lemma {:induction false} MaxStartBelow(log: seq<Done>, x: int)
    ensures MaxStart(log) < x <==> 0 < x && forall j | 0 <= j < |log| && log[j].ok :: log[j].start < x
  {
    if log != [] {
      var front := log[..|log| - 1];
      MaxStartBelow(front, x);
      assert forall j | 0 <= j < |front| :: front[j] == log[j];
    }
  }

  /** Where a record was collected. */
  lemma {:induction false} RecordAt(log: seq<Done>, d: Done) returns (k: nat)
    requires d in Records(log)
    ensures k < |log| && log[k] == d && d.ok && MaxStart(log[..k]) < d.start
  {
    var last := |log| - 1;
    if d in Records(log[..last]) {
      k := RecordAt(log[..last], d);
      assert log[..last][..k] == log[..k];
    } else {
      k := last;
    }
  }

  lemma {:induction false} LaterRecords(log: seq<Done>, i: nat)
    requires i < |log| && log[i].ok && MaxStart(log[..i]) < log[i].start
    ensures log[i] in Records(log)
  {
    var last := |log| - 1;
    if i < last {
      assert log[..last][..i] == log[..i];
      LaterRecords(log[..last], i);
    }
  }

  ghost predicate DistinctIds(log: seq<Done>) {
    forall p, q | 0 <= p < q < |log| :: log[p].id != log[q].id
  }

  /** A success is a record exactly when it started after reading 0 and after every success before it. */
  lemma RecordsExact(log: seq<Done>, i: nat)
    requires DistinctIds(log) && i < |log| && log[i].ok
    ensures log[i] in Records(log)
       <==> 0 < log[i].start && forall j | 0 <= j < i && log[j].ok :: log[j].start < log[i].start
  {
    MaxStartBelow(log[..i], log[i].start);
    assert forall j | 0 <= j < i :: log[..i][j] == log[j];
    if log[i] in Records(log) {
      var k := RecordAt(log, log[i]);
      assert k == i;
    } else if MaxStart(log[..i]) < log[i].start {
      LaterRecords(log, i);
    }
  }

  /**
   Whatever idle worker the scan picks, the exposed jobs have strictly increasing start
   times, none is exposed twice, and a collected job is exposed exactly when it succeeded,
   started after reading 0 of the clock and started after every success collected before it.
   */
  lemma ExposedInOrder(n: nat, states: seq<State>, actions: seq<Action>, i: nat)
    requires IsRun(n, states, actions) && i < |states|
    ensures var s := states[i];
      && Increasing(s.exposed)
      && (forall p, q | 0 <= p < q < |s.exposed| :: s.exposed[p].id != s.exposed[q].id)
      && (forall d | d in s.exposed :: d.ok && d in s.collected)
      && (forall c | 0 <= c < |s.collected| && s.collected[c].ok ::
            s.collected[c] in s.exposed
            <==> 0 < s.collected[c].start
                 && forall j | 0 <= j < c && s.collected[j].ok :: s.collected[j].start < s.collected[c].start)
  {
    var s := states[i];
    RunInv(n, states, actions, i);
    RecordsIncrease(s.collected);
    forall c | 0 <= c < |s.collected| && s.collected[c].ok
      ensures s.collected[c] in s.exposed
        <==> 0 < s.collected[c].start
             && forall j | 0 <= j < c && s.collected[j].ok :: s.collected[j].start < s.collected[c].start
    {
      RecordsExact(s.collected, c);
    }
    forall p, q | 0 <= p < q < |s.exposed|
      ensures s.exposed[p].id != s.exposed[q].id
    {
      assert s.exposed[p] in s.exposed && s.exposed[q] in s.exposed;
      assert s.exposed[p].start < s.exposed[q].start;
      var x :| 0 <= x < |s.collected| && s.collected[x] == s.exposed[p];
      var y :| 0 <= y < |s.collected| && s.collected[y] == s.exposed[q];
      assert x < y || y < x;
    }
  }

  /** Every assigned job is either still at exactly one worker or was collected exactly once. */
  lemma JobsConserved(n: nat, states: seq<State>, actions: seq<Action>, i: nat, id: nat)
    requires IsRun(n, states, actions) && i < |states| && id < states[i].nextJob
    ensures InLog(states[i], id) <==> !AtWorker(states[i], id)
    ensures forall p, q | 0 <= p < q < |states[i].collected| :: states[i].collected[p].id != states[i].collected[q].id
    ensures forall v, w | 0 <= v < w < |states[i].workers| && states[i].workers[v].job.Some? ::
      states[i].workers[v].job != states[i].workers[w].job
  {
    RunInv(n, states, actions, i);
  }
}
