/** What the encoder workers answered, and when they started, is what the dispatcher collects and exposes. */
module Answers {
  import opened Common
  import opened WorkersPool

  // ---------------------------------------------------------------- one step, worker by worker

  ghost predicate WorkerLink(w: nat, wr: Worker, now: int, a: Action, wr': Worker) {
    match a
    case Wake(v) => if v == w then wr.pc.Asleep? && wr.hasJob && wr' == wr.(pc := Running(now)) else wr' == wr
    case Finish(v, ok) =>
      if v == w
      then wr.pc.Running? && wr' == wr.(pc := Clearing, failed := !ok, startTs := if ok then wr.pc.t else wr.startTs)
      else wr' == wr
    case Clear(v) => if v == w then wr.pc.Clearing? && wr' == wr.(pc := Giving, hasJob := false) else wr' == wr
    case Give(v) => if v == w then wr.pc.Giving? && wr' == wr.(pc := Asleep) else wr' == wr
    case Return => wr' == wr || (!wr.hasJob && wr' == wr.(job := None))
    case SetFlag => wr' == wr || (!wr.hasJob && wr'.hasJob && wr'.pc == wr.pc)
    case _ => wr' == wr
  }

  /** A collected job is the one of a worker without has_job, with its result and its start time. */
  ghost predicate CollectLink(s: State, s': State) {
    s'.collected == s.collected
    || exists w | 0 <= w < |s.workers| :: CollectsFrom(s, w, s')
  }

  ghost predicate CollectsFrom(s: State, w: nat, s': State)
    requires w < |s.workers|
  {
    var wr := s.workers[w];
    !wr.hasJob && wr.job.Some? && s'.collected == s.collected + [Done(wr.job.value, !wr.failed, wr.startTs)]
  }

  ghost predicate PoolLink(n: nat, s: State, a: Action, s': State) {
    && |s.workers| == |s'.workers| == n
    && (forall w | 0 <= w < n :: WorkerLink(w, s.workers[w], s.now, a, s'.workers[w]))
    && (forall w | 0 <= w < n && (s.workers[w].pc.Running? || s.workers[w].pc.Clearing?) :: s.workers[w].hasJob)
    && (forall w | 0 <= w < n && s.workers[w].hasJob :: s.workers[w].job.Some?)
    && CollectLink(s, s')
  }

  ghost predicate PoolRun(n: nat, states: seq<State>, actions: seq<Action>) {
    && |states| == |actions| + 1 && states[0] == Init(n)
    && forall i | 0 <= i < |actions| :: PoolLink(n, states[i], actions[i], states[i + 1])
  }

  lemma StepPool(n: nat, s: State, a: Action)
    requires Inv(n, s) && Enabled(n, s, a)
    ensures PoolLink(n, s, a, Step(n, s, a))
  {
    var s' := Step(n, s, a);
    forall w | 0 <= w < n
      ensures WorkerOk(s, s.workers[w])
    {
    }
    if a.Return? {
      var w := s.disp.found.value;
      if s.workers[w].job.Some? {
        assert CollectsFrom(s, w, s');
      }
    } else {
      assert s'.collected == s.collected;
    }
  }

  lemma RunPool(n: nat, states: seq<State>, actions: seq<Action>)
    requires IsRun(n, states, actions)
    ensures PoolRun(n, states, actions)
  {
    forall i | 0 <= i < |actions|
      ensures PoolLink(n, states[i], actions[i], states[i + 1])
    {
      RunInv(n, states, actions, i);
      assert Link(n, states[i], actions[i], states[i + 1]);
      StepPool(n, states[i], actions[i]);
    }
  }

  // ---------------------------------------------------------------- whole runs

  /** Before action i, worker w woke up for job id at clock reading t. */
  ghost predicate Woken(states: seq<State>, actions: seq<Action>, i: nat, w: nat, id: nat, t: int)
    requires i <= |actions| < |states|
  {
    exists h | 0 <= h < i ::
      actions[h] == Wake(w) && w < |states[h].workers| && states[h].workers[w].job == Some(id) && states[h].now == t
  }

  /** Before action i, worker w answered for job id, which it had started at t. */
  ghost predicate Answered(states: seq<State>, actions: seq<Action>, i: nat, w: nat, id: nat, ok: bool, t: int)
    requires i <= |actions| < |states|
  {
    exists j | 0 <= j < i ::
      && actions[j] == Finish(w, ok) && w < |states[j].workers|
      && states[j].workers[w].job == Some(id) && states[j].workers[w].pc == Running(t)
      && Woken(states, actions, j, w, id, t)
  }

  /** The answer for job id is the given one. */
  ghost predicate Known(states: seq<State>, actions: seq<Action>, i: nat, w: nat, id: nat, ok: bool, start: int)
    requires i <= |actions| < |states|
  {
    exists t :: Answered(states, actions, i, w, id, ok, t) && (ok ==> t == start)
  }

  ghost predicate WorkerKnown(states: seq<State>, actions: seq<Action>, i: nat, w: nat, wr: Worker)
    requires i <= |actions| < |states|
  {
    wr.job.Some? ==>
      && (wr.pc.Running? ==> Woken(states, actions, i, w, wr.job.value, wr.pc.t))
      && (wr.pc.Clearing? || !wr.hasJob ==> Known(states, actions, i, w, wr.job.value, !wr.failed, wr.startTs))
  }

  ghost predicate DoneKnown(states: seq<State>, actions: seq<Action>, i: nat, d: Done)
    requires i <= |actions| < |states|
  {
    exists w :: Known(states, actions, i, w, d.id, d.ok, d.start)
  }

  lemma KnownLater(states: seq<State>, actions: seq<Action>, i: nat, w: nat, id: nat, ok: bool, start: int)
    requires i < |actions| < |states| && Known(states, actions, i, w, id, ok, start)
    ensures Known(states, actions, i + 1, w, id, ok, start)
  {
    var t :| Answered(states, actions, i, w, id, ok, t) && (ok ==> t == start);
    assert Answered(states, actions, i + 1, w, id, ok, t);
  }

  /** What is known stays known. */
  lemma StaysKnown(states: seq<State>, actions: seq<Action>, i: nat, w: nat, wr: Worker)
    requires i < |actions| < |states| && WorkerKnown(states, actions, i, w, wr)
    ensures WorkerKnown(states, actions, i + 1, w, wr)
  {
    if wr.job.Some? && (wr.pc.Clearing? || !wr.hasJob) {
      KnownLater(states, actions, i, w, wr.job.value, !wr.failed, wr.startTs);
    }
  }

  lemma DoneStaysKnown(states: seq<State>, actions: seq<Action>, i: nat, d: Done)
    requires i < |actions| < |states| && DoneKnown(states, actions, i, d)
    ensures DoneKnown(states, actions, i + 1, d)
  {
    var w :| Known(states, actions, i, w, d.id, d.ok, d.start);
    KnownLater(states, actions, i, w, d.id, d.ok, d.start);
  }

  lemma StepKnown(n: nat, states: seq<State>, actions: seq<Action>, i: nat, w: nat)
    requires PoolRun(n, states, actions) && i < |actions| && w < n
    requires |states[i].workers| == |states[i + 1].workers| == n
    requires WorkerKnown(states, actions, i, w, states[i].workers[w])
    ensures WorkerKnown(states, actions, i + 1, w, states[i + 1].workers[w])
  {
    var wr, wr', a := states[i].workers[w], states[i + 1].workers[w], actions[i];
    assert PoolLink(n, states[i], a, states[i + 1]);
    assert WorkerLink(w, wr, states[i].now, a, wr');
    StaysKnown(states, actions, i, w, wr);
    if wr.job.Some? {
      var id := wr.job.value;
      if a == Wake(w) {
        assert Woken(states, actions, i + 1, w, id, states[i].now);
      } else if a.Finish? && a.w == w {
        assert Answered(states, actions, i + 1, w, id, a.ok, wr.pc.t);
        assert Known(states, actions, i + 1, w, id, !wr'.failed, wr'.startTs);
      }
    }
  }

  lemma {:induction false} RunKnown(n: nat, states: seq<State>, actions: seq<Action>, i: nat, w: nat)
    requires PoolRun(n, states, actions) && i < |states| && w < n
    ensures |states[i].workers| == n && WorkerKnown(states, actions, i, w, states[i].workers[w])
  {
    if i > 0 {
      RunKnown(n, states, actions, i - 1, w);
      assert PoolLink(n, states[i - 1], actions[i - 1], states[i]);
      StepKnown(n, states, actions, i - 1, w);
    }
  }

  lemma IdleKnown(n: nat, states: seq<State>, actions: seq<Action>, i: nat, w: nat)
    requires PoolRun(n, states, actions) && i < |actions| && w < |states[i].workers|
    requires !states[i].workers[w].hasJob && states[i].workers[w].job.Some?
    ensures var wr := states[i].workers[w]; DoneKnown(states, actions, i, Done(wr.job.value, !wr.failed, wr.startTs))
  {
    var wr := states[i].workers[w];
    assert PoolLink(n, states[i], actions[i], states[i + 1]);
    RunKnown(n, states, actions, i, w);
    assert Known(states, actions, i, w, wr.job.value, !wr.failed, wr.startTs);
  }

  lemma NewDone(n: nat, states: seq<State>, actions: seq<Action>, i: nat, p: nat)
    requires PoolRun(n, states, actions) && i < |actions| && |states[i].collected| <= p < |states[i + 1].collected|
    ensures DoneKnown(states, actions, i, states[i + 1].collected[p])
  {
    var s, s' := states[i], states[i + 1];
    assert PoolLink(n, s, actions[i], s');
    var w: nat :| w < |s.workers| && CollectsFrom(s, w, s');
    IdleKnown(n, states, actions, i, w);
  }

  lemma LogGrows(n: nat, states: seq<State>, actions: seq<Action>, i: nat)
    requires PoolRun(n, states, actions) && i < |actions|
    ensures states[i].collected <= states[i + 1].collected
  {
    assert PoolLink(n, states[i], actions[i], states[i + 1]);
  }

  lemma {:induction false} RunDone(n: nat, states: seq<State>, actions: seq<Action>, i: nat, p: nat)
    requires PoolRun(n, states, actions) && i < |states| && p < |states[i].collected|
    ensures DoneKnown(states, actions, i, states[i].collected[p])
  {
    if i > 0 {
      var j: nat := i - 1;
      LogGrows(n, states, actions, j);
      if p < |states[j].collected| {
        RunDone(n, states, actions, j, p);
      } else {
        NewDone(n, states, actions, j, p);
      }
      DoneStaysKnown(states, actions, j, states[i].collected[p]);
    }
  }

  /**
   Every collected job carries the answer its worker gave for it, and a successful one the
   clock reading at which that worker woke up for it.
   */
  lemma CollectedAsAnswered(n: nat, states: seq<State>, actions: seq<Action>, i: nat, p: nat)
      returns (w: nat, h: nat, j: nat)
    requires IsRun(n, states, actions) && i < |states| && p < |states[i].collected|
    ensures var d := states[i].collected[p];
      && h < j < i && w < |states[h].workers| && w < |states[j].workers|
      && actions[h] == Wake(w) && actions[j] == Finish(w, d.ok)
      && states[h].workers[w].job == states[j].workers[w].job == Some(d.id)
      && states[j].workers[w].pc == Running(states[h].now)
      && (d.ok ==> d.start == states[h].now)
  {
    RunPool(n, states, actions);
    RunDone(n, states, actions, i, p);
    var d := states[i].collected[p];
    w :| Known(states, actions, i, w, d.id, d.ok, d.start);
    var t :| Answered(states, actions, i, w, d.id, d.ok, t) && (d.ok ==> t == d.start);
    j :| 0 <= j < i
      && actions[j] == Finish(w, d.ok) && w < |states[j].workers|
      && states[j].workers[w].job == Some(d.id) && states[j].workers[w].pc == Running(t)
      && Woken(states, actions, j, w, d.id, t);
    h :| 0 <= h < j
      && actions[h] == Wake(w) && w < |states[h].workers| && states[h].workers[w].job == Some(d.id) && states[h].now == t;
  }

  /** So what clients are shown was encoded without failure. */
  lemma ExposedSucceeded(n: nat, states: seq<State>, actions: seq<Action>, i: nat, p: nat)
      returns (w: nat, j: nat)
    requires IsRun(n, states, actions) && i < |states| && p < |states[i].exposed|
    ensures j < i && w < |states[j].workers| && actions[j] == Finish(w, true)
    ensures states[j].workers[w].job == Some(states[i].exposed[p].id)
    ensures states[j].workers[w].pc == Running(states[i].exposed[p].start)
  {
    ExposedInOrder(n, states, actions, i);
    var d := states[i].exposed[p];
    assert d in states[i].collected;
    var q :| 0 <= q < |states[i].collected| && states[i].collected[q] == d;
    var h;
    w, h, j := CollectedAsAnswered(n, states, actions, i, q);
  }
}
