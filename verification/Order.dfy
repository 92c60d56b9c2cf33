/** Are JPEGs exposed in the order in which their frames were assigned to the encoder pool? */
module ExposureOrder {
  import opened Common
  import opened WorkersPool

  /** Jobs are numbered as they are assigned. */
  ghost predicate InOrder(exposed: seq<Done>) {
    forall p, q | 0 <= p < q < |exposed| :: exposed[p].id < exposed[q].id
  }

  /** The exposed jobs were started in the order of their assignment. */
  ghost predicate StartedInOrder(exposed: seq<Done>) {
    forall p, q | 0 <= p < |exposed| && 0 <= q < |exposed| && exposed[p].id < exposed[q].id ::
      exposed[p].start < exposed[q].start
  }

  /** The timeliness test compares start times, so the order is kept exactly when the workers keep it. */
  lemma InOrderIff(n: nat, states: seq<State>, actions: seq<Action>, i: nat)
    requires IsRun(n, states, actions) && i < |states|
    ensures InOrder(states[i].exposed) <==> StartedInOrder(states[i].exposed)
  {
    ExposedInOrder(n, states, actions, i);
    var exposed := states[i].exposed;
    if StartedInOrder(exposed) {
      forall p, q | 0 <= p < q < |exposed|
        ensures exposed[p].id < exposed[q].id
      {
        assert exposed[p].start < exposed[q].start;
      }
    }
    if InOrder(exposed) {
      forall p, q | 0 <= p < |exposed| && 0 <= q < |exposed| && exposed[p].id < exposed[q].id
        ensures exposed[p].start < exposed[q].start
      {
        assert p < q;
      }
    }
  }

  // ---------------------------------------------------------------- one worker keeps the order

  ghost predicate IdsIncrease(log: seq<Done>) {
    forall p, q | 0 <= p < q < |log| :: log[p].id < log[q].id
  }

  /** A single worker always has the newest job. */
  ghost predicate Solo(s: State) {
    && |s.workers| <= 1
    && (forall w | 0 <= w < |s.workers| && s.workers[w].job.Some? :: s.workers[w].job.value + 1 == s.nextJob)
    && IdsIncrease(s.collected)
  }

  lemma StepSolo(n: nat, s: State, a: Action)
    requires n <= 1 && Inv(n, s) && Enabled(n, s, a) && Solo(s)
    ensures Solo(Step(n, s, a))
  {
    var s' := Step(n, s, a);
    if a.Return? {
      var wr := s.workers[s.disp.found.value];
      if wr.job.Some? {
        forall p | 0 <= p < |s.collected|
          ensures s.collected[p].id < wr.job.value
        {
          assert InLog(s, s.collected[p].id);
          assert AtWorker(s, wr.job.value);
        }
      }
    } else {
      assert s'.collected == s.collected;
    }
  }

  lemma {:induction false} RunSolo(n: nat, states: seq<State>, actions: seq<Action>, i: nat)
    requires n <= 1 && IsRun(n, states, actions) && i < |states|
    ensures Solo(states[i])
  {
    if i > 0 {
      RunSolo(n, states, actions, i - 1);
      RunInv(n, states, actions, i - 1);
      assert Link(n, states[i - 1], actions[i - 1], states[i]);
      StepSolo(n, states[i - 1], actions[i - 1]);
    }
  }

  lemma {:induction false} RecordsIncreaseIds(log: seq<Done>)
    requires IdsIncrease(log)
    ensures InOrder(Records(log))
    ensures forall d | d in Records(log) :: d in log
  {
    if log != [] {
      var front, d := log[..|log| - 1], log[|log| - 1];
      RecordsIncreaseIds(front);
      assert log == front + [d];
      forall p | 0 <= p < |Records(front)|
        ensures Records(front)[p].id < d.id
      {
        assert Records(front)[p] in front;
      }
    }
  }

  // ---------------------------------------------------------------- two workers need not

  ghost function Last(states: seq<State>): State
    requires states != []
  {
    states[|states| - 1]
  }

  /** One more action at the end of a run. */
  lemma Extend(n: nat, states: seq<State>, actions: seq<Action>, a: Action)
      returns (states': seq<State>, actions': seq<Action>)
    requires IsRun(n, states, actions) && Shape(n, Last(states)) && Enabled(n, Last(states), a)
    ensures IsRun(n, states', actions') && Last(states') == Step(n, Last(states), a) && Inv(n, Last(states'))
  {
    states', actions' := states + [Step(n, Last(states), a)], actions + [a];
    forall i | 0 <= i < |actions'|
      ensures Link(n, states'[i], actions'[i], states'[i + 1])
    {
      assert i < |actions| ==> Link(n, states[i], actions[i], states[i + 1]);
    }
    RunInv(n, states', actions', |states'| - 1);
  }

  /** The candidate is at least as late as every idle worker among the first pos of the list. */
  ghost predicate Leads(s: State, pos: nat, found: Option<nat>)
    requires pos <= |s.order| && forall i | 0 <= i < |s.order| :: s.order[i] < |s.workers|
  {
    forall j | 0 <= j < pos && !s.workers[s.order[j]].hasJob ::
      found.Some? && found.value < |s.workers| && s.workers[s.order[j]].startTs <= s.workers[found.value].startTs
  }

  lemma {:induction false} ScanOn(n: nat, states: seq<State>, actions: seq<Action>)
      returns (states': seq<State>, actions': seq<Action>, found: Option<nat>)
    requires IsRun(n, states, actions) && Inv(n, Last(states)) && Last(states).disp.Scanning?
    requires Leads(Last(states), Last(states).disp.pos, Last(states).disp.found)
    ensures IsRun(n, states', actions') && Inv(n, Last(states'))
    ensures Last(states') == Last(states).(disp := Scanning(n, found))
    ensures Leads(Last(states'), n, found)
    decreases n - Last(states).disp.pos
  {
    if Last(states).disp.pos == n {
      return states, actions, Last(states).disp.found;
    }
    states', actions' := Extend(n, states, actions, Scan);
    states', actions', found := ScanOn(n, states', actions');
  }

  /** us_workers_pool_wait while nothing else moves. */
  lemma Wait(n: nat, states: seq<State>, actions: seq<Action>)
      returns (states': seq<State>, actions': seq<Action>, w: nat)
    requires IsRun(n, states, actions) && Inv(n, Last(states)) && Last(states).disp.Waiting? && Last(states).free > 0
    ensures IsRun(n, states', actions') && Inv(n, Last(states'))
    ensures w < n && !Last(states).workers[w].hasJob && Last(states') == Collect(Last(states), w)
    ensures forall v | 0 <= v < n && !Last(states).workers[v].hasJob ::
      Last(states).workers[v].startTs <= Last(states).workers[w].startTs
  {
    var s := Last(states);
    var found;
    states', actions' := Extend(n, states, actions, WaitDone);
    states', actions', found := ScanOn(n, states', actions');
    w := found.value;
    forall v | 0 <= v < n && !s.workers[v].hasJob
      ensures s.workers[v].startTs <= s.workers[w].startTs
    {
      var p := Surjective(n, s.order, v);
    }
    states', actions' := Extend(n, states', actions', Return);
  }

  /** A worker that waits for a job, has none to hand back, and last started at the given time. */
  function Free(startTs: int): Worker {
    Worker(Asleep, false, startTs, false, None)
  }

  ghost predicate OthersFree(n: nat, s: State, a: nat, b: nat) {
    |s.workers| == n && forall w | 0 <= w < n && w != a && w != b :: s.workers[w] == Free(0)
  }

  /** A frame for the next idle worker. */
  lemma Assign(n: nat, states: seq<State>, actions: seq<Action>)
      returns (states': seq<State>, actions': seq<Action>, w: nat)
    requires IsRun(n, states, actions) && Inv(n, Last(states)) && Last(states).disp.Waiting? && Last(states).free > 0
    requires forall v | 0 <= v < n && !Last(states).workers[v].hasJob :: Last(states).workers[v] == Free(0)
    requires Last(states).timelyTs == 0
    ensures IsRun(n, states', actions') && Inv(n, Last(states')) && w < n
    ensures var s, s' := Last(states), Last(states');
      && s.workers[w] == Free(0) && s'.workers == s.workers[w := Free(0).(hasJob := true, job := Some(s.nextJob))]
      && s'.now == s.now && s'.free == s.free - 1 && s'.disp.Waiting? && s'.timelyTs == 0 && s'.nextJob == s.nextJob + 1
      && s'.collected == s.collected && s'.exposed == s.exposed
  {
    states', actions', w := Wait(n, states, actions);
    states', actions' := Extend(n, states', actions', SetFlag);
    states', actions' := Extend(n, states', actions', TakeCount);
  }

  /** A worker with a job wakes up at the next tick of the clock ... */
  lemma WakeUp(n: nat, states: seq<State>, actions: seq<Action>, w: nat)
      returns (states': seq<State>, actions': seq<Action>)
    requires IsRun(n, states, actions) && Inv(n, Last(states)) && w < n
    requires Last(states).workers[w].pc.Asleep? && Last(states).workers[w].hasJob
    ensures IsRun(n, states', actions') && Inv(n, Last(states'))
    ensures var s := Last(states);
      Last(states') == s.(now := s.now + 1, workers := s.workers[w := s.workers[w].(pc := Running(s.now + 1))])
  {
    states', actions' := Extend(n, states, actions, Tick(1));
    states', actions' := Extend(n, states', actions', Wake(w));
  }

  /** ... and finishes it and gives itself back. */
  lemma Complete(n: nat, states: seq<State>, actions: seq<Action>, w: nat)
      returns (states': seq<State>, actions': seq<Action>)
    requires IsRun(n, states, actions) && Inv(n, Last(states)) && w < n && Last(states).workers[w].pc.Running?
    ensures IsRun(n, states', actions') && Inv(n, Last(states'))
    ensures var s := Last(states);
      var wr := s.workers[w];
      Last(states') == s.(free := s.free + 1, workers := s.workers[w := Worker(Asleep, false, wr.pc.t, false, wr.job)])
  {
    states', actions' := Extend(n, states, actions, Finish(w, true));
    states', actions' := Extend(n, states', actions', Clear(w));
    states', actions' := Extend(n, states', actions', Give(w));
  }

  /** The dispatcher collects from the worker that started last, and has no frame for it. */
  lemma CollectFrom(n: nat, states: seq<State>, actions: seq<Action>, w: nat)
      returns (states': seq<State>, actions': seq<Action>)
    requires IsRun(n, states, actions) && Inv(n, Last(states)) && Last(states).disp.Waiting? && Last(states).free > 0
    requires w < n && !Last(states).workers[w].hasJob
    requires forall v | 0 <= v < n && v != w && !Last(states).workers[v].hasJob ::
      Last(states).workers[v].startTs < Last(states).workers[w].startTs
    ensures IsRun(n, states', actions') && Inv(n, Last(states'))
    ensures Last(states') == Collect(Last(states), w).(disp := Waiting)
  {
    var v;
    states', actions', v := Wait(n, states, actions);
    assert v == w;
    states', actions' := Extend(n, states', actions', Skip);
  }

  /** Job 0 for worker a and job 1 for worker b; b wakes up first. */
  lemma BothRunning(n: nat) returns (states: seq<State>, actions: seq<Action>, a: nat, b: nat)
    requires n >= 2
    ensures IsRun(n, states, actions) && Inv(n, Last(states)) && a < n && b < n && a != b
    ensures var s := Last(states);
      && s.workers[a] == Worker(Running(2), true, 0, false, Some(0))
      && s.workers[b] == Worker(Running(1), true, 0, false, Some(1))
      && OthersFree(n, s, a, b)
      && s.free == n - 2 && s.disp.Waiting? && s.timelyTs == 0 && s.collected == [] && s.exposed == []
  {
    states, actions := [Init(n)], [];
    InitInv(n);
    states, actions, a := Assign(n, states, actions);
    states, actions, b := Assign(n, states, actions);
    states, actions := WakeUp(n, states, actions, b);
    states, actions := WakeUp(n, states, actions, a);
  }

  /** Worker b has finished with job 1 while a runs job 0. */
  ghost predicate LaterDone(n: nat, s: State, a: nat, b: nat) {
    && a < n && b < n && a != b && OthersFree(n, s, a, b)
    && s.workers[a] == Worker(Running(2), true, 0, false, Some(0))
    && s.workers[b] == Worker(Asleep, false, 1, false, Some(1))
    && s.free >= 1 && s.disp.Waiting? && s.timelyTs == 0 && s.collected == [] && s.exposed == []
  }

  lemma OneDone(n: nat) returns (states: seq<State>, actions: seq<Action>, a: nat, b: nat)
    requires n >= 2
    ensures IsRun(n, states, actions) && Inv(n, Last(states)) && LaterDone(n, Last(states), a, b)
  {
    states, actions, a, b := BothRunning(n);
    states, actions := Complete(n, states, actions, b);
  }

  lemma CollectLater(n: nat, s: State, a: nat, b: nat)
    requires LaterDone(n, s, a, b)
    ensures forall v | 0 <= v < n && v != b && !s.workers[v].hasJob :: s.workers[v].startTs < s.workers[b].startTs
    ensures var s' := Collect(s, b).(disp := Waiting);
      && s'.workers == s.workers[b := Free(1)] && s'.free == s.free && s'.disp.Waiting? && s'.timelyTs == 1
      && s'.collected == s'.exposed == [Done(1, true, 1)]
  {
  }

  /** The later job is exposed while the earlier one runs. */
  lemma LaterFirst(n: nat) returns (states: seq<State>, actions: seq<Action>, a: nat, b: nat)
    requires n >= 2
    ensures IsRun(n, states, actions) && Inv(n, Last(states)) && a < n && b < n && a != b
    ensures var s := Last(states);
      && s.workers[a] == Worker(Running(2), true, 0, false, Some(0))
      && s.workers[b] == Free(1) && OthersFree(n, s, a, b)
      && s.free >= 1 && s.disp.Waiting? && s.timelyTs == 1
      && s.collected == s.exposed == [Done(1, true, 1)]
  {
    states, actions, a, b := OneDone(n);
    CollectLater(n, Last(states), a, b);
    states, actions := CollectFrom(n, states, actions, b);
  }

  /** And then the earlier one is exposed too. */
  lemma DisorderRun(n: nat) returns (states: seq<State>, actions: seq<Action>)
    requires n >= 2
    ensures IsRun(n, states, actions)
    ensures Last(states).exposed == [Done(1, true, 1), Done(0, true, 2)]
  {
    var a, b;
    states, actions, a, b := LaterFirst(n);
    states, actions := Complete(n, states, actions, a);
    states, actions := CollectFrom(n, states, actions, a);
  }

  ghost predicate Disorder(n: nat, states: seq<State>, actions: seq<Action>) {
    IsRun(n, states, actions) && !InOrder(Last(states).exposed)
  }

  /** JPEGs can be exposed out of the order of their frames exactly when there are two workers or more. */
  lemma DisorderIff(n: nat)
    ensures (exists states, actions :: Disorder(n, states, actions)) <==> n >= 2
  {
    if n >= 2 {
      var states, actions := DisorderRun(n);
      assert Last(states).exposed[0].id == 1 && Last(states).exposed[1].id == 0;
      assert Disorder(n, states, actions);
    } else {
      forall states: seq<State>, actions: seq<Action> | IsRun(n, states, actions)
        ensures InOrder(Last(states).exposed)
      {
        var i := |states| - 1;
        RunInv(n, states, actions, i);
        RunSolo(n, states, actions, i);
        RecordsIncreaseIds(states[i].collected);
      }
    }
  }
}
