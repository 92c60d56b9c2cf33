/**
 Runs of a capture session that are wished for or feared: which ones exist.  The witnesses
 are runs without device faults in which the device fills its buffers in the order in which
 they were queued.
 */
module CaptureRuns {
  import opened Common
  import opened CaptureSession

  ghost function Last(states: seq<State>): State
    requires states != []
  {
    states[|states| - 1]
  }

  // ---------------------------------------------------------------- well-behaved devices

  function Upto(n: nat): (r: seq<nat>)
    ensures |r| == n && forall i | 0 <= i < n :: r[i] == i
  {
    seq(n, i => i)
  }

  /** The buffers an action queues at the device. */
  function Returned(s: State, a: Action): seq<nat> {
    match a
    case Main(m) =>
      if !s.main.Checked? then []
      else if m.Requeue? then [s.main.taken]
      else if m.Keep? && s.main.got.Some? then [s.main.got.value]
      else []
    case Release(i, r) => if r.Qbuf? && i < |s.releasers| && s.releasers[i].Ready? then [s.releasers[i].b] else []
    case _ => []
  }

  /** The device's queue, oldest first, after an action. */
  function After(order: seq<nat>, s: State, a: Action): seq<nat> {
    (if a.Main? && a.m.Dequeue? && order != [] then order[1..] else order) + Returned(s, a)
  }

  /** A dequeue gets the buffer that was queued first. */
  predicate InTurn(order: seq<nat>, a: Action) {
    a.Main? && a.m.Dequeue? ==> order != [] && order[0] == a.m.b
  }

  /** A run with the device's queue before every action and at the end. */
  datatype Trace = Trace(states: seq<State>, actions: seq<Action>, orders: seq<seq<nat>>)

  /** The action is no device fault, a dequeue is in turn, and the queue changes accordingly. */
  ghost predicate Served(s: State, a: Action, order: seq<nat>, order': seq<nat>) {
    a != Main(Requeue) && a != Main(GrabError) && InTurn(order, a) && order' == After(order, s, a)
  }

  /** The session is opened with the buffers queued by index. */
  ghost predicate Natural(k: Config, t: Trace) {
    && IsRun(k, t.states, t.actions)
    && |t.orders| == |t.states| && t.orders[0] == Upto(k.nBufs)
    && forall i | 0 <= i < |t.actions| :: Served(t.states[i], t.actions[i], t.orders[i], t.orders[i + 1])
  }

  /** A well-behaved run that has come to a state, with the device's queue as given. */
  ghost predicate Reaches(k: Config, t: Trace, s: State, order: seq<nat>) {
    Natural(k, t) && Last(t.states) == s && t.orders[|t.orders| - 1] == order && Shape(k, s) && Bounded(k, s)
  }

  lemma ReachesInv(k: Config, t: Trace, s: State, order: seq<nat>)
    requires Reaches(k, t, s, order)
    ensures Inv(k, s)
  {
    RunInv(k, t.states, t.actions, |t.states| - 1);
  }

  lemma Begin(k: Config) returns (t: Trace)
    ensures Reaches(k, t, Init(k), Upto(k.nBufs))
  {
    InitInv(k);
    t := Trace([Init(k)], [], [Upto(k.nBufs)]);
  }

  /** One more action at the end of a run. */
  lemma Extend(k: Config, t: Trace, s: State, order: seq<nat>, a: Action) returns (t': Trace, s': State)
    requires Reaches(k, t, s, order) && Enabled(k, s, a)
    requires InTurn(order, a) && a != Main(Requeue) && a != Main(GrabError)
    ensures s' == Step(k, s, a) && Reaches(k, t', s', After(order, s, a)) && t'.actions == t.actions + [a]
  {
    s' := Step(k, s, a);
    t' := Trace(t.states + [s'], t.actions + [a], t.orders + [After(order, s, a)]);
    var n := |t.actions|;
    forall i | 0 <= i < n + 1
      ensures Link(k, t'.states[i], t'.actions[i], t'.states[i + 1])
      ensures Served(t'.states[i], t'.actions[i], t'.orders[i], t'.orders[i + 1])
    {
      if i < n {
        assert Link(k, t.states[i], t.actions[i], t.states[i + 1]);
        assert Served(t.states[i], t.actions[i], t.orders[i], t.orders[i + 1]);
      }
    }
    RunInv(k, t'.states, t'.actions, n + 1);
  }

  /** An action that does not concern the device. */
  lemma Move(k: Config, t: Trace, s: State, order: seq<nat>, a: Action) returns (t': Trace, s': State)
    requires Reaches(k, t, s, order) && Enabled(k, s, a)
    requires a.Main? ==> a.m.CheckFlag? || a.m.NoMore? || a.m.Take? || a.m.Put? || a.m.Plan?
    requires a.Release? ==> !a.r.Qbuf?
    ensures s' == Step(k, s, a) && Reaches(k, t', s', order)
  {
    t', s' := Extend(k, t, s, order, a);
    assert After(order, s, a) == order + [];
  }

  // ---------------------------------------------------------------- the RAW queue leak

  /** Between two frames, with b at the device and its flag clear. */
  ghost predicate CanGrab(k: Config, s: State, b: nat)
    requires Shape(k, s)
  {
    s.main == Grabbing(None) && b < k.nBufs && b in s.device && !s.grabbed[b]
  }

  /** The main thread alone can grab the first buffer ... */
  lemma GrabOne(k: Config, t: Trace, s: State, order: seq<nat>) returns (t': Trace, s': State)
    requires Reaches(k, t, s, order) && order != [] && CanGrab(k, s, order[0])
    ensures Reaches(k, t', s', order[1..])
    ensures var b := order[0];
      s' == s.(device := s.device - {b}, grabbed := s.grabbed[b := true], refs := s.refs[b := 0], main := Taking(b, JPEG))
  {
    t', s' := Extend(k, t, s, order, Main(Dequeue(order[0])));
    assert After(order, s, Main(Dequeue(order[0]))) == order[1..];
    t', s' := Move(k, t', s', order[1..], Main(CheckFlag));
    assert After(order[1..], s', Main(Keep)) == order[1..];
    t', s' := Extend(k, t', s', order[1..], Main(Keep));
    t', s' := Move(k, t', s', order[1..], Main(NoMore));
  }

  function Given(k: Config, con: Consumer, c: nat, b: nat): Consumer {
    if k.Has(c) then PutInto(con, k.Capacity(c), b) else con
  }

  /** ... and offer it to a consumer ... */
  lemma Offer(k: Config, t: Trace, s: State, order: seq<nat>) returns (t': Trace, s': State)
    requires Reaches(k, t, s, order) && s.main.Taking?
    ensures Reaches(k, t', s', order)
    ensures var b, c := s.main.b, s.main.c;
      s' == s.(main := NextStop(b, c), cons := s.cons[c := Given(k, s.cons[c], c, b)], refs := s'.refs)
  {
    t', s' := Move(k, t, s, order, Main(Take));
    if k.Has(s.main.c) {
      t', s' := Move(k, t', s', order, Main(Put));
    } else {
      assert s.cons[s.main.c := s.cons[s.main.c]] == s.cons;
    }
  }

  /** ... and so fan it out. */
  lemma FanOut(k: Config, t: Trace, s: State, order: seq<nat>) returns (t': Trace, s': State)
    requires Reaches(k, t, s, order) && s.main.Taking? && s.main.c == JPEG && s.plans[s.main.b] == []
    ensures Reaches(k, t', s', order)
    ensures var b := s.main.b;
      var cons := [Given(k, s.cons[JPEG], JPEG, b), Given(k, s.cons[RAW], RAW, b), Given(k, s.cons[H264], H264, b)];
      s' == s.(main := Grabbing(None), cons := cons, plans := s.plans[b := [b]], refs := s'.refs)
  {
    t', s' := Offer(k, t, s, order);
    t', s' := Offer(k, t', s', order);
    t', s' := Offer(k, t', s', order);
    var b := s.main.b;
    ThreeUpdates(s.cons, Given(k, s.cons[JPEG], JPEG, b), Given(k, s.cons[RAW], RAW, b), Given(k, s.cons[H264], H264, b));
    assert s.plans[b] + [b] == [b];
    t', s' := Move(k, t', s', order, Main(Plan));
  }

  lemma ThreeUpdates<T>(s: seq<T>, x: T, y: T, z: T)
    requires |s| == 3
    ensures s[0 := x][1 := y][2 := z] == [x, y, z]
  {
  }

  lemma CaptureOne(k: Config, t: Trace, s: State, order: seq<nat>) returns (t': Trace, s': State)
    requires Reaches(k, t, s, order) && order != [] && CanGrab(k, s, order[0]) && s.plans[order[0]] == [] && k.rawSink
    ensures Reaches(k, t', s', order[1..])
    ensures var b := order[0];
      && s'.main == Grabbing(None) && s'.device == s.device - {b} && s'.grabbed == s.grabbed[b := true]
      && s'.plans == s.plans[b := [b]] && s'.cons[RAW] == PutInto(s.cons[RAW], 2, b)
  {
    t', s' := GrabOne(k, t, s, order);
    t', s' := FanOut(k, t', s', order[1..]);
  }

  /** Three frames while the RAW thread is not scheduled. */
  lemma RefusalRun(k: Config) returns (t: Trace)
    requires k.rawSink && k.nBufs >= 3
    ensures Natural(k, t) && |Last(t.states).cons| == 3
    ensures Last(t.states).cons[RAW].refused == multiset{2}
  {
    t := Begin(k);
    var s, order := Init(k), Upto(k.nBufs);
    t, s := CaptureOne(k, t, s, order);
    t, s := CaptureOne(k, t, s, order[1..]);
    t, s := CaptureOne(k, t, s, order[1..][1..]);
  }

  ghost predicate Refuses(k: Config, states: seq<State>, actions: seq<Action>) {
    IsRun(k, states, actions) && |Last(states).cons| == 3 && Last(states).cons[RAW].refused != multiset{}
  }

  /** The leak can happen, and on a well-behaved device, exactly when there is a RAW sink and at least three buffers. */
  lemma LeakIff(k: Config)
    ensures (exists states, actions :: Refuses(k, states, actions)) <==> k.rawSink && k.nBufs >= 3
    ensures k.rawSink && k.nBufs >= 3 ==> exists t :: Natural(k, t) && Refuses(k, t.states, t.actions)
  {
    forall states, actions | Refuses(k, states, actions)
      ensures k.rawSink && k.nBufs >= 3
    {
      RunInv(k, states, actions, |states| - 1);
      assert ConsumerOk(k, Last(states), RAW);
    }
    if k.rawSink && k.nBufs >= 3 {
      var t := RefusalRun(k);
      assert Natural(k, t) && Refuses(k, t.states, t.actions);
    }
  }

  // ---------------------------------------------------------------- the grabbed-flag race

  /** A consumer that has buffer 0 queued, or nothing. */
  function Waits(queued: bool): Consumer {
    Consumer(if queued then [0] else [], Idle, multiset{})
  }

  /** Buffer 0 is planned for release and still queued for some of the consumers, the others are untouched. */
  ghost predicate Fanned(k: Config, s: State, jpeg: bool, raw: bool, h264: bool)
    requires Shape(k, s)
  {
    && k.nBufs >= 1
    && s.main == Grabbing(None) && s.grabbed[0] && s.plans[0] == [0] && s.releasers[0].Waiting?
    && s.cons == [Waits(jpeg), Waits(raw), Waits(h264)]
    && (forall w | 0 <= w < k.nWorkers :: s.jobs[w].None? && !s.busy[w]) && s.current.None?
    && (forall b | 1 <= b < k.nBufs :: b in s.device && !s.grabbed[b])
  }

  lemma InitConsumers(k: Config)
    ensures Init(k).cons == [Waits(false), Waits(false), Waits(false)]
  {
  }

  lemma GivenFirst(k: Config, c: nat)
    requires k.nBufs >= 1
    ensures Given(k, Waits(false), c, 0) == Waits(k.Has(c))
  {
    assert [] + [0] == [0];
  }

  /** Grab buffer 0 and fan it out. */
  lemma PlanOne(k: Config) returns (t: Trace, s: State)
    requires k.nBufs >= 1
    ensures Reaches(k, t, s, Upto(k.nBufs)[1..]) && Fanned(k, s, true, k.rawSink, k.h264Sink)
  {
    t := Begin(k);
    InitConsumers(k);
    GivenFirst(k, JPEG);
    GivenFirst(k, RAW);
    GivenFirst(k, H264);
    t, s := GrabOne(k, t, Init(k), Upto(k.nBufs));
    t, s := FanOut(k, t, s, Upto(k.nBufs)[1..]);
  }

  /** A consumer takes its only queued buffer, keeps it at the look and finishes with it. */
  lemma ConsumeOne(k: Config, t: Trace, s: State, order: seq<nat>, c: nat) returns (t': Trace, s': State)
    requires Reaches(k, t, s, order) && k.nBufs >= 1
    requires c < 3 && k.Has(c) && s.cons[c] == Waits(true) && (c == JPEG ==> s.current.Some?)
    ensures Reaches(k, t', s', order)
    ensures s' == s.(cons := s.cons[c := Waits(false)], current := if c == JPEG then None else s.current, refs := s'.refs)
  {
    t', s' := Move(k, t, s, order, Consume(c, Get));
    t', s' := Move(k, t', s', order, Consume(c, Look));
    t', s' := Move(k, t', s', order, Consume(c, Finish));
  }

  lemma ConsumeAll(k: Config, t: Trace, s: State, order: seq<nat>) returns (t': Trace, s': State)
    requires Reaches(k, t, s, order) && k.nWorkers >= 1 && Fanned(k, s, true, k.rawSink, k.h264Sink)
    ensures Reaches(k, t', s', order) && Fanned(k, s', false, false, false)
  {
    t', s' := Move(k, t, s, order, Pool(Collect(0)));
    t', s' := ConsumeOne(k, t', s', order, JPEG);
    if k.rawSink {
      t', s' := ConsumeOne(k, t', s', order, RAW);
    }
    if k.h264Sink {
      t', s' := ConsumeOne(k, t', s', order, H264);
    }
  }

  /** Buffer 0 is back at the device behind the others, and its releaser has not stored the flag yet. */
  ghost predicate Stalled(k: Config, s: State, order: seq<nat>)
    requires Shape(k, s)
  {
    && k.nBufs >= 1 && s.main.Grabbing? && s.grabbed[0]
    && NoDuplicates(order)
    && (forall b | b in order :: b < k.nBufs && b in s.device && (b != 0 ==> !s.grabbed[b]))
    && (s.main.got.Some? ==> s.main.got.value != 0 && s.main.got.value !in order)
  }

  /** Nothing refers to buffer 0 any more. */
  lemma NoRefs(k: Config, s: State)
    requires Inv(k, s) && Fanned(k, s, false, false, false)
    ensures s.refs[0] == 0
  {
    assert BufferInv(k, s, 0);
    assert Some(0) !in s.jobs && Tokens(s, JPEG, 0) == 0;
  }

  lemma ReleaseOne(k: Config, t: Trace, s: State) returns (t': Trace, s': State)
    requires k.nBufs >= 1 && Reaches(k, t, s, Upto(k.nBufs)[1..]) && Fanned(k, s, false, false, false)
    ensures Reaches(k, t', s', Upto(k.nBufs)[1..] + [0])
    ensures s'.main == s.main && s'.grabbed == s.grabbed && s'.device == s.device + {0}
  {
    var order := Upto(k.nBufs)[1..];
    ReachesInv(k, t, s, order);
    NoRefs(k, s);
    t', s' := Move(k, t, s, order, Release(0, PlanGet));
    t', s' := Move(k, t', s', order, Release(0, SeeZero));
    t', s' := Extend(k, t', s', order, Release(0, Qbuf));
  }

  lemma Stall(k: Config, s: State, s': State)
    requires Shape(k, s) && Shape(k, s') && Fanned(k, s, false, false, false)
    requires s'.main == s.main && s'.grabbed == s.grabbed && s'.device == s.device + {0}
    ensures Stalled(k, s', Upto(k.nBufs)[1..] + [0])
  {
    var order := Upto(k.nBufs)[1..] + [0];
    assert forall i | 0 <= i < |order| :: order[i] == if i < k.nBufs - 1 then i + 1 else 0;
  }

  function Held(m: Main): seq<nat>
    requires m.Grabbing?
  {
    if m.got.Some? then [m.got.value] else []
  }

  /** Buffer b was taken from the front of the queue and the held one went to its end. */
  lemma StillStalled(k: Config, s: State, order: seq<nat>, s': State, order': seq<nat>)
    requires Shape(k, s) && Shape(k, s') && Stalled(k, s, order) && order != [] && order[0] != 0
    requires order' == order[1..] + Held(s.main) && s'.main == Grabbing(Some(order[0]))
    requires forall x | x in order' :: x in s'.device
    requires |s'.grabbed| == |s.grabbed|
    requires forall x | 0 <= x < k.nBufs && x != order[0] :: s'.grabbed[x] == (s.grabbed[x] && s.main.got != Some(x))
    ensures Stalled(k, s', order')
  {
    assert forall x | x in order' :: x in order[1..] || s.main.got == Some(x);
    assert forall x | x in order[1..] :: x in order && x != order[0];
  }

  /** The first buffer is not 0: the grab loop takes it and gives back the one it held. */
  lemma GrabAnother(k: Config, t: Trace, s: State, order: seq<nat>) returns (t': Trace, s': State)
    requires Reaches(k, t, s, order) && Stalled(k, s, order) && order != [] && order[0] != 0
    ensures Reaches(k, t', s', order[1..] + Held(s.main)) && Stalled(k, s', order[1..] + Held(s.main))
  {
    var b := order[0];
    t', s' := Extend(k, t, s, order, Main(Dequeue(b)));
    assert After(order, s, Main(Dequeue(b))) == order[1..];
    t', s' := Move(k, t', s', order[1..], Main(CheckFlag));
    assert After(order[1..], s', Main(Keep)) == order[1..] + Held(s.main);
    t', s' := Extend(k, t', s', order[1..], Main(Keep));
    StillStalled(k, s, order, s', order[1..] + Held(s.main));
  }

  /** A run whose last action is the flag check that finds the buffer "already used". */
  ghost predicate Raises(k: Config, states: seq<State>, actions: seq<Action>) {
    && IsRun(k, states, actions) && actions != []
    && actions[|actions| - 1] == Main(CheckFlag) && Last(states).main.Closed?
  }

  /** The grab loop goes on until it is the turn of buffer 0. */
  lemma {:induction false} GrabUntil(k: Config, t: Trace, s: State, order: seq<nat>, i: nat) returns (t': Trace)
    requires Reaches(k, t, s, order) && Stalled(k, s, order) && i < |order| && order[i] == 0
    ensures Natural(k, t') && Raises(k, t'.states, t'.actions)
    decreases i
  {
    var s';
    if i == 0 {
      t', s' := Extend(k, t, s, order, Main(Dequeue(0)));
      assert After(order, s, Main(Dequeue(0))) == order[1..];
      t', s' := Extend(k, t', s', order[1..], Main(CheckFlag));
    } else {
      t', s' := GrabAnother(k, t, s, order);
      t' := GrabUntil(k, t', s', order[1..] + Held(s.main), i - 1);
    }
  }

  /** With any sinks and on a well-behaved device, a session can end with the "already used" error. */
  lemma RaceRun(k: Config) returns (t: Trace)
    requires k.nBufs >= 1 && k.nWorkers >= 1
    ensures Natural(k, t) && Raises(k, t.states, t.actions)
  {
    var s, s';
    var order := Upto(k.nBufs)[1..];
    t, s := PlanOne(k);
    t, s := ConsumeAll(k, t, s, order);
    t, s' := ReleaseOne(k, t, s);
    Stall(k, s, s');
    t := GrabUntil(k, t, s', order + [0], |order|);
  }

  /** Without workers the JPEG thread never takes a buffer, so none is ever given back. */
  ghost predicate Stuck(k: Config, s: State)
    requires Shape(k, s)
  {
    forall b | 0 <= b < k.nBufs ::
      && !s.releasers[b].Ready? && !s.releasers[b].Clearing?
      && (ReleaserOwns(s, b) || Offered(s.main, b, JPEG) ==> b in s.cons[JPEG].queue)
  }

  lemma MainStuck(k: Config, s: State, m: MainAction)
    requires Shape(k, s) && Stuck(k, s) && MainEnabled(k, s, m) && Shape(k, MainStep(k, s, m))
    requires s.main.Putting? ==> |s.cons[s.main.c].queue| < k.nBufs
    ensures Stuck(k, MainStep(k, s, m))
  {
    var s' := MainStep(k, s, m);
    assert s'.releasers == s.releasers;
    assert forall b | b in s.cons[JPEG].queue :: b in s'.cons[JPEG].queue;
  }

  lemma ReleaserStuck(k: Config, s: State, i: nat, r: ReleaserAction)
    requires Shape(k, s) && Bounded(k, s) && Stuck(k, s) && i < k.nBufs && BufferInv(k, s, i) && ReleaserEnabled(k, s, i, r)
    ensures Stuck(k, ReleaserStep(k, s, i, r))
  {
    assert i in s.cons[JPEG].queue ==> Tokens(s, JPEG, i) >= 1;
  }

  lemma StepStuck(k: Config, s: State, a: Action)
    requires Inv(k, s) && Enabled(k, s, a) && k.nWorkers == 0 && Stuck(k, s) && Shape(k, Step(k, s, a))
    ensures Stuck(k, Step(k, s, a))
  {
    match a
    case Main(m) =>
      if s.main.Putting? {
        RoomForPut(k, s);
      }
      MainStuck(k, s, m);
    case Consume(c, t) => assert c != JPEG;
    case Pool(p) =>
    case Release(i, r) => ReleaserStuck(k, s, i, r);
  }

  lemma LinkStuck(k: Config, s: State, a: Action, s': State)
    requires Inv(k, s) && Link(k, s, a, s') && k.nWorkers == 0 && Stuck(k, s)
    ensures Shape(k, s') && Stuck(k, s')
  {
    StepInv(k, s, a);
    StepStuck(k, s, a);
  }

  lemma OneLink(k: Config, states: seq<State>, actions: seq<Action>, i: nat)
    requires IsRun(k, states, actions) && i < |actions|
    ensures Link(k, states[i], actions[i], states[i + 1]) && Inv(k, states[i])
  {
    RunInv(k, states, actions, i);
  }

  lemma {:induction false} RunStuck(k: Config, states: seq<State>, actions: seq<Action>, i: nat)
    requires IsRun(k, states, actions) && i < |states| && k.nWorkers == 0
    ensures Shape(k, states[i]) && Stuck(k, states[i])
  {
    if i > 0 {
      RunStuck(k, states, actions, i - 1);
      OneLink(k, states, actions, i - 1);
      LinkStuck(k, states[i - 1], actions[i - 1], states[i]);
    }
  }

  /** The race exists, and on a well-behaved device, exactly when there is a buffer and a worker. */
  lemma RaceIff(k: Config)
    ensures (exists states, actions :: Raises(k, states, actions)) <==> k.nBufs >= 1 && k.nWorkers >= 1
    ensures k.nBufs >= 1 && k.nWorkers >= 1 ==> exists t :: Natural(k, t) && Raises(k, t.states, t.actions)
  {
    forall states, actions | Raises(k, states, actions)
      ensures k.nBufs >= 1 && k.nWorkers >= 1
    {
      var i := |actions| - 1;
      AlreadyUsedIffClearing(k, states, actions, i);
      RunInv(k, states, actions, i);
      if k.nWorkers == 0 {
        RunStuck(k, states, actions, i);
      }
    }
    if k.nBufs >= 1 && k.nWorkers >= 1 {
      var t := RaceRun(k);
      assert Natural(k, t) && Raises(k, t.states, t.actions);
    }
  }
}
