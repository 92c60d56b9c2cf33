/** What the main thread of a capture session hands out: the last frame it kept, to every consumer once. */
module Delivery {
  import opened Common
  import opened CaptureSession

  // ---------------------------------------------------------------- the main thread on its own

  /** Where an action of the session takes the main thread. */
  ghost predicate MainLink(k: Config, m: Main, a: Action, m': Main) {
    if !a.Main? then m' == m
    else match a.m
      case Dequeue(b) => m.Grabbing? && m' == Dequeued(m.got, b)
      case CheckFlag => m.Dequeued? && (m'.Closed? || m' == Checked(m.got, m.taken))
      case Requeue => m.Checked? && m' == Grabbing(m.got)
      case Keep => m.Checked? && m' == Grabbing(Some(m.taken))
      case NoMore => m.Grabbing? && m.got.Some? && m' == Taking(m.got.value, JPEG)
      case GrabError => m'.Closed?
      case Take => m.Taking? && m.c < 3 && m' == if k.Has(m.c) then Putting(m.b, m.c) else NextStop(m.b, m.c)
      case Put => m.Putting? && m.c < 3 && m' == NextStop(m.b, m.c)
      case Plan => m.Planning? && m' == Grabbing(None)
  }

  ghost predicate MainRun(k: Config, ms: seq<Main>, actions: seq<Action>) {
    && |ms| == |actions| + 1 && ms[0] == Grabbing(None)
    && forall i | 0 <= i < |actions| :: MainLink(k, ms[i], actions[i], ms[i + 1])
  }

  lemma StepMain(k: Config, s: State, a: Action)
    requires Shape(k, s) && Bounded(k, s) && Enabled(k, s, a)
    ensures MainLink(k, s.main, a, Step(k, s, a).main)
  {
    match a
    case Main(m) =>
    case Consume(c, t) => assert ThreadStep(k, s, c, t).main == s.main;
    case Pool(p) => assert PoolStep(k, s, p).main == s.main;
    case Release(i, r) => assert ReleaserStep(k, s, i, r).main == s.main;
  }

  function Mains(states: seq<State>): (ms: seq<Main>)
    ensures |ms| == |states| && forall i | 0 <= i < |ms| :: ms[i] == states[i].main
  {
    seq(|states|, i requires 0 <= i < |states| => states[i].main)
  }

  lemma RunMain(k: Config, states: seq<State>, actions: seq<Action>)
    requires IsRun(k, states, actions)
    ensures MainRun(k, Mains(states), actions)
  {
    forall i | 0 <= i < |actions|
      ensures MainLink(k, Mains(states)[i], actions[i], Mains(states)[i + 1])
    {
      assert Link(k, states[i], actions[i], states[i + 1]);
      StepMain(k, states[i], actions[i]);
    }
  }

  // ---------------------------------------------------------------- the grab loop keeps the last frame

  /** The buffer of the last dequeue among the first i actions. */
  function LastDequeued(actions: seq<Action>, i: nat): Option<nat>
    requires i <= |actions|
  {
    if i == 0 then None
    else
      match actions[i - 1]
      case Main(Dequeue(b)) => Some(b)
      case _ => LastDequeued(actions, i - 1)
  }

  /** The last frame found intact since the previous frame was handed out. */
  function LastKept(actions: seq<Action>, i: nat): Option<nat>
    requires i <= |actions|
  {
    if i == 0 then None
    else
      match actions[i - 1]
      case Main(Keep) => LastDequeued(actions, i - 1)
      case Main(NoMore) => None
      case _ => LastKept(actions, i - 1)
  }

  ghost predicate GrabOk(m: Main, kept: Option<nat>, dequeued: Option<nat>) {
    match m
    case Grabbing(got) => got == kept
    case Dequeued(got, taken) => got == kept && dequeued == Some(taken)
    case Checked(got, taken) => got == kept && dequeued == Some(taken)
    case Closed(_) => true
    case _ => kept == None
  }

  lemma StepGrab(k: Config, m: Main, a: Action, m': Main, kept: Option<nat>, dequeued: Option<nat>)
    requires MainLink(k, m, a, m') && GrabOk(m, kept, dequeued)
    ensures GrabOk(m',
      if a == Main(Keep) then dequeued else if a == Main(NoMore) then None else kept,
      if a.Main? && a.m.Dequeue? then Some(a.m.b) else dequeued)
  {
  }

  lemma {:induction false} RunGrab(k: Config, ms: seq<Main>, actions: seq<Action>, i: nat)
    requires MainRun(k, ms, actions) && i < |ms|
    ensures GrabOk(ms[i], LastKept(actions, i), LastDequeued(actions, i))
  {
    if i > 0 {
      RunGrab(k, ms, actions, i - 1);
      assert MainLink(k, ms[i - 1], actions[i - 1], ms[i]);
      StepGrab(k, ms[i - 1], actions[i - 1], ms[i], LastKept(actions, i - 1), LastDequeued(actions, i - 1));
    }
  }

  /** The buffer that is fanned out is the last one that was found intact. */
  lemma HandsOutLast(k: Config, states: seq<State>, actions: seq<Action>, i: nat)
    requires IsRun(k, states, actions) && i < |actions| && actions[i] == Main(NoMore)
    ensures LastKept(actions, i).Some? && states[i + 1].main == Taking(LastKept(actions, i).value, JPEG)
  {
    var ms := Mains(states);
    RunMain(k, states, actions);
    RunGrab(k, ms, actions, i);
    assert MainLink(k, ms[i], actions[i], ms[i + 1]);
  }

  // ---------------------------------------------------------------- every consumer is offered it once

  /** How often the buffer in hand was put for consumer c since it was grabbed. */
  function Puts(ms: seq<Main>, actions: seq<Action>, i: nat, c: nat): nat
    requires i < |ms| && |ms| == |actions| + 1
  {
    if i == 0 then 0
    else
      match actions[i - 1]
      case Main(NoMore) => 0
      case Main(Put) => Puts(ms, actions, i - 1, c) + (if ms[i - 1].Putting? && ms[i - 1].c == c then 1 else 0)
      case _ => Puts(ms, actions, i - 1, c)
  }

  /** The consumers up to the one the main thread is at have had their put. */
  ghost predicate PutsOk(k: Config, m: Main, c: nat, puts: nat) {
    match m
    case Taking(_, d) => puts == if c < d && k.Has(c) then 1 else 0
    case Putting(_, d) => (puts == if c < d && k.Has(c) then 1 else 0) && k.Has(d)
    case Planning(_) => puts == if k.Has(c) then 1 else 0
    case _ => true
  }

  lemma StepPuts(k: Config, m: Main, a: Action, m': Main, c: nat, puts: nat)
    requires MainLink(k, m, a, m') && c < 3 && PutsOk(k, m, c, puts)
    ensures PutsOk(k, m', c,
      if a == Main(NoMore) then 0 else if a == Main(Put) && m.Putting? && m.c == c then puts + 1 else puts)
  {
  }

  lemma {:induction false} RunPuts(k: Config, ms: seq<Main>, actions: seq<Action>, i: nat, c: nat)
    requires MainRun(k, ms, actions) && i < |ms| && c < 3
    ensures PutsOk(k, ms[i], c, Puts(ms, actions, i, c))
  {
    if i > 0 {
      RunPuts(k, ms, actions, i - 1, c);
      assert MainLink(k, ms[i - 1], actions[i - 1], ms[i]);
      StepPuts(k, ms[i - 1], actions[i - 1], ms[i], c, Puts(ms, actions, i - 1, c));
    }
  }

  /** When a buffer is planned for release, it has been put exactly once for every consumer there is. */
  lemma OfferedToAll(k: Config, states: seq<State>, actions: seq<Action>, i: nat, c: nat)
    requires IsRun(k, states, actions) && i < |states| && c < 3 && states[i].main.Planning?
    ensures Puts(Mains(states), actions, i, c) == if k.Has(c) then 1 else 0
  {
    RunMain(k, states, actions);
    RunPuts(k, Mains(states), actions, i, c);
  }
}
