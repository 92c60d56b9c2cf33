/**
 One capture session of the streaming loop: the main thread grabs V4L2 buffers and fans
 them out, the JPEG, RAW and H264 threads consume them, the encoder workers read them and
 one releaser thread per buffer gives them back to the device.  Every shared-memory access
 of the threads is one action; a run is any sequence of enabled actions.
 */
module CaptureSession {
  import opened Common

  const JPEG := 0
  const RAW := 1
  const H264 := 2

  /** What the session is opened with: n_bufs, the encoder pool size and the optional sinks. */
  datatype Config = Config(nBufs: nat, nWorkers: nat, rawSink: bool, h264Sink: bool) {
    predicate Has(c: nat) {
      c == JPEG || (c == RAW && rawSink) || (c == H264 && h264Sink)
    }

    function Capacity(c: nat): nat {
      if c == RAW then 2 else nBufs
    }
  }

  /** Where the main thread is. */
  datatype Main =
    | Grabbing(got: Option<nat>)             // about to call VIDIOC_DQBUF
    | Dequeued(got: Option<nat>, taken: nat)   // DQBUF returned, the grabbed flag is not checked yet
    | Checked(got: Option<nat>, taken: nat)    // the flag is set, the frame is not validated yet
    | Taking(b: nat, c: nat)                 // about to take a reference for consumer c
    | Putting(b: nat, c: nat)                // about to put the buffer into consumer c's queue
    | Planning(b: nat)                       // about to put it into its releaser's queue
    | Closed(lost: set<nat>)                 // any grab error ends the session
  {
    ghost predicate Owns(x: nat) {
      match this
      case Grabbing(got) => got == Some(x)
      case Dequeued(got, taken) => got == Some(x) || taken == x
      case Checked(got, taken) => got == Some(x) || taken == x
      case Taking(b, _) => b == x
      case Putting(b, _) => b == x
      case Planning(b) => b == x
      case Closed(lost) => x in lost
    }
  }

  /** Where a consumer thread is: inside _get_latest_hw, or working on the buffer it returned. */
  datatype Pc = Idle | Looking(b: nat) | Dropping(b: nat) | Refetching | Using(b: nat) {
    ghost function Holds(x: nat): nat {
      if (Looking? || Dropping? || Using?) && b == x then 1 else 0
    }
  }

  /** A consumer thread with its queue; refused counts the puts its full queue turned away. */
  datatype Consumer = Consumer(queue: seq<nat>, pc: Pc, refused: multiset<nat>) {
    predicate Bounded(n: nat) {
      && (forall x | x in queue :: x < n)
      && (pc.Looking? || pc.Dropping? || pc.Using? ==> pc.b < n)
    }
  }

  /** A releaser thread: waiting, spinning on refs, having seen refs == 0, or past QBUF. */
  datatype Releaser = Waiting | Spinning(b: nat) | Ready(b: nat) | Clearing(b: nat)

  datatype State = State(
    device: set<nat>,               // buffers queued at the device
    refs: seq<int>,
    grabbed: seq<bool>,
    main: Main,
    cons: seq<Consumer>,
    jobs: seq<Option<nat>>,         // job->hw of every encoder worker
    busy: seq<bool>,                // has_job of every encoder worker
    current: Option<nat>,           // the worker the JPEG thread got from the pool
    plans: seq<seq<nat>>,           // the releasers' queues, one slot each
    releasers: seq<Releaser>)

  datatype Action =
    | Main(m: MainAction)
    | Consume(c: nat, t: ThreadAction)
    | Pool(p: PoolAction)
    | Release(i: nat, r: ReleaserAction)

  datatype MainAction =
    | Dequeue(b: nat) | CheckFlag | Requeue | Keep | NoMore | GrabError  // us_capture_hwbuf_grab
    | Take | Put | Plan                                                  // the fan-out
  datatype ThreadAction = Get | Look | Drop | Refetch | Finish           // a consumer thread
  datatype PoolAction = Collect(w: nat) | Timeout | Assign | JobDone(w: nat)
  datatype ReleaserAction = PlanGet | SeeZero | Qbuf | ClearFlag

  function Init(k: Config): State {
    State(
      Range(k.nBufs),
      seq(k.nBufs, _ => 0), seq(k.nBufs, _ => false),
      Grabbing(None),
      seq(3, _ => Consumer([], Idle, multiset{})),
      seq(k.nWorkers, _ => None), seq(k.nWorkers, _ => false), None,
      seq(k.nBufs, _ => []), seq(k.nBufs, _ => Waiting))
  }

  predicate Shape(k: Config, s: State) {
    && |s.refs| == |s.grabbed| == |s.plans| == |s.releasers| == k.nBufs
    && |s.cons| == 3
    && |s.jobs| == |s.busy| == k.nWorkers
    && (s.current.Some? ==> s.current.value < k.nWorkers)
    && match s.main
       case Grabbing(got) => (got.Some? ==> got.value < k.nBufs)
       case Dequeued(got, taken) => (got.Some? ==> got.value < k.nBufs) && taken < k.nBufs
       case Checked(got, taken) => (got.Some? ==> got.value < k.nBufs) && taken < k.nBufs
       case Taking(b, c) => b < k.nBufs && c < 3
       case Putting(b, c) => b < k.nBufs && c < 3
       case Planning(b) => b < k.nBufs
       case Closed(_) => true
  }

  /** Buffers a consumer handles are real ones, so refs can be indexed by them. */
  predicate Bounded(k: Config, s: State)
    requires Shape(k, s)
  {
    && s.cons[JPEG].Bounded(k.nBufs) && s.cons[RAW].Bounded(k.nBufs) && s.cons[H264].Bounded(k.nBufs)
    && (forall w | 0 <= w < k.nWorkers :: s.jobs[w].Some? ==> s.jobs[w].value < k.nBufs)
    && (forall i | 0 <= i < k.nBufs :: !s.releasers[i].Waiting? ==> s.releasers[i].b < k.nBufs)
  }

  predicate Enabled(k: Config, s: State, a: Action)
    requires Shape(k, s) && Bounded(k, s)
  {
    match a
    case Main(m) => MainEnabled(k, s, m)
    case Consume(c, t) => c < 3 && ThreadEnabled(k, s, c, t)
    case Pool(p) => PoolEnabled(k, s, p)
    case Release(i, r) => i < k.nBufs && ReleaserEnabled(k, s, i, r)
  }

  predicate MainEnabled(k: Config, s: State, m: MainAction) {
    match m
    case Dequeue(b) => s.main.Grabbing? && b in s.device && b < k.nBufs
    case CheckFlag => s.main.Dequeued?
    case Requeue => s.main.Checked?
    case Keep => s.main.Checked?
    case NoMore => s.main.Grabbing? && s.main.got.Some?
    case GrabError => s.main.Grabbing? || s.main.Dequeued? || s.main.Checked?
    case Take => s.main.Taking?
    case Put => s.main.Putting?
    case Plan => s.main.Planning?
  }

  predicate ThreadEnabled(k: Config, s: State, c: nat, t: ThreadAction)
    requires c < |s.cons|
  {
    var con := s.cons[c];
    match t
    case Get => k.Has(c) && con.pc.Idle? && con.queue != [] && (c == JPEG ==> s.current.Some?)
    case Look => con.pc.Looking?
    case Drop => con.pc.Dropping?
    case Refetch => con.pc.Refetching? && con.queue != []
    case Finish => con.pc.Using?
  }

  predicate PoolEnabled(k: Config, s: State, p: PoolAction)
    requires Shape(k, s)
  {
    match p
    case Collect(w) => w < k.nWorkers && s.cons[JPEG].pc.Idle? && s.current.None? && !s.busy[w]
    case Timeout => s.cons[JPEG].pc.Idle? && s.current.Some?
    case Assign => s.cons[JPEG].pc.Using? && s.current.Some?
    case JobDone(w) => w < k.nWorkers && s.busy[w]
  }

  predicate ReleaserEnabled(k: Config, s: State, i: nat, r: ReleaserAction)
    requires Shape(k, s) && Bounded(k, s) && i < k.nBufs
  {
    match r
    case PlanGet => s.releasers[i].Waiting? && s.plans[i] != []
    case SeeZero => s.releasers[i].Spinning? && s.refs[s.releasers[i].b] <= 0
    case Qbuf => s.releasers[i].Ready?
    case ClearFlag => s.releasers[i].Clearing?
  }

  /** us_queue_put with a zero timeout: refused, and nothing else happens, when the queue is full. */
  function PutInto(con: Consumer, capacity: nat, b: nat): Consumer {
    if |con.queue| == capacity
    then con.(refused := con.refused + multiset{b})
    else con.(queue := con.queue + [b])
  }

  /** The next stop of the fan-out: consumers in order, then the releaser. */
  function NextStop(b: nat, c: nat): Main {
    if c < 2 then Taking(b, c + 1) else Planning(b)
  }

  function SetPc(s: State, c: nat, pc: Pc): State
    requires c < |s.cons|
  {
    s.(cons := s.cons[c := s.cons[c].(pc := pc)])
  }

  function TakeHead(s: State, c: nat): State
    requires c < |s.cons| && s.cons[c].queue != []
  {
    var q := s.cons[c].queue;
    s.(cons := s.cons[c := s.cons[c].(queue := q[1..], pc := Looking(q[0]))])
  }

  function AddRef(s: State, b: nat, delta: int): State
    requires b < |s.refs|
  {
    s.(refs := s.refs[b := s.refs[b] + delta])
  }

  function Step(k: Config, s: State, a: Action): State
    requires Shape(k, s) && Bounded(k, s) && Enabled(k, s, a)
  {
    match a
    case Main(m) => MainStep(k, s, m)
    case Consume(c, t) => ThreadStep(k, s, c, t)
    case Pool(p) => PoolStep(k, s, p)
    case Release(i, r) => ReleaserStep(k, s, i, r)
  }

  function MainStep(k: Config, s: State, m: MainAction): State
    requires Shape(k, s) && MainEnabled(k, s, m)
  {
    match m
    case Dequeue(b) => s.(device := s.device - {b}, main := Dequeued(s.main.got, b))
    case CheckFlag =>
      var got, taken := s.main.got, s.main.taken;
      if s.grabbed[taken]
      then s.(main := Closed(Lost(got, taken)))
      else s.(grabbed := s.grabbed[taken := true], main := Checked(got, taken))
    case Requeue =>
      var taken := s.main.taken;
      s.(device := s.device + {taken}, grabbed := s.grabbed[taken := false], main := Grabbing(s.main.got))
    case Keep =>
      var got, taken := s.main.got, s.main.taken;
      if got.Some?
      then s.(device := s.device + {got.value}, grabbed := s.grabbed[got.value := false], main := Grabbing(Some(taken)))
      else s.(main := Grabbing(Some(taken)))
    case NoMore =>
      var b := s.main.got.value;
      s.(refs := s.refs[b := 0], main := Taking(b, JPEG))
    case GrabError => s.(main := Closed(MainBufs(s.main)))
    case Take =>
      var b, c := s.main.b, s.main.c;
      if k.Has(c) then AddRef(s, b, 1).(main := Putting(b, c)) else s.(main := NextStop(b, c))
    case Put =>
      var b, c := s.main.b, s.main.c;
      s.(cons := s.cons[c := PutInto(s.cons[c], k.Capacity(c), b)], main := NextStop(b, c))
    case Plan =>
      var b := s.main.b;
      var q := if |s.plans[b]| == 1 then s.plans[b] else s.plans[b] + [b];
      s.(plans := s.plans[b := q], main := Grabbing(None))
  }

  function ThreadStep(k: Config, s: State, c: nat, t: ThreadAction): State
    requires Shape(k, s) && Bounded(k, s) && c < 3 && ThreadEnabled(k, s, c, t)
  {
    match t
    case Get => TakeHead(s, c)
    case Look =>
      // us_queue_is_empty answers "not full"
      var b := s.cons[c].pc.b;
      SetPc(s, c, if |s.cons[c].queue| == k.Capacity(c) then Dropping(b) else Using(b))
    case Drop => SetPc(AddRef(s, s.cons[c].pc.b, -1), c, Refetching)
    case Refetch => TakeHead(s, c)
    case Finish =>
      SetPc(AddRef(s, s.cons[c].pc.b, -1), c, Idle).(current := if c == JPEG then None else s.current)
  }

  function PoolStep(k: Config, s: State, p: PoolAction): State
    requires Shape(k, s) && Bounded(k, s) && PoolEnabled(k, s, p)
  {
    match p
    case Collect(w) =>
      var s' := s.(current := Some(w), jobs := s.jobs[w := None]);
      if s.jobs[w].Some? then AddRef(s', s.jobs[w].value, -1) else s'
    case Timeout => s.(current := None)
    case Assign =>
      var w := s.current.value;
      SetPc(s, JPEG, Idle).(jobs := s.jobs[w := Some(s.cons[JPEG].pc.b)], busy := s.busy[w := true], current := None)
    case JobDone(w) => s.(busy := s.busy[w := false])
  }

  function ReleaserStep(k: Config, s: State, i: nat, r: ReleaserAction): State
    requires Shape(k, s) && Bounded(k, s) && i < k.nBufs && ReleaserEnabled(k, s, i, r)
  {
    match r
    case PlanGet =>
      s.(plans := s.plans[i := s.plans[i][1..]], releasers := s.releasers[i := Spinning(s.plans[i][0])])
    case SeeZero => s.(releasers := s.releasers[i := Ready(s.releasers[i].b)])
    case Qbuf =>
      var b := s.releasers[i].b;
      s.(device := s.device + {b}, releasers := s.releasers[i := Clearing(b)])
    case ClearFlag =>
      s.(grabbed := s.grabbed[s.releasers[i].b := false], releasers := s.releasers[i := Waiting])
  }

  function Lost(got: Option<nat>, taken: nat): set<nat> {
    if got.Some? then {got.value, taken} else {taken}
  }

  function MainBufs(m: Main): set<nat>
    requires m.Grabbing? || m.Dequeued? || m.Checked?
  {
    match m
    case Grabbing(got) => if got.Some? then {got.value} else {}
    case Dequeued(got, taken) => Lost(got, taken)
    case Checked(got, taken) => Lost(got, taken)
  }

  // ---------------------------------------------------------------- the invariant

  /** References consumer c accounts for: queued, held, refused and, for JPEG, in encoder jobs. */
  ghost function Tokens(s: State, c: nat, b: nat): nat
    requires c < |s.cons|
  {
    multiset(s.cons[c].queue)[b] + s.cons[c].pc.Holds(b) + s.cons[c].refused[b]
    + (if c == JPEG then multiset(s.jobs)[Some(b)] else 0)
  }

  ghost predicate ReleaserOwns(s: State, b: nat)
    requires b < |s.plans| && b < |s.releasers|
  {
    s.plans[b] != [] || s.releasers[b].Spinning? || s.releasers[b].Ready?
  }

  /** The main thread has already offered b to consumer c. */
  ghost predicate Offered(m: Main, b: nat, c: nat) {
    ((m.Taking? || m.Putting?) && m.b == b && c < m.c) || m == Planning(b)
  }

  /** Exactly one party owns b. */
  ghost predicate OnePlace(k: Config, s: State, b: nat)
    requires Shape(k, s) && b < k.nBufs
  {
    && (b in s.device ==> !s.main.Owns(b) && !ReleaserOwns(s, b))
    && (s.main.Owns(b) ==> !ReleaserOwns(s, b))
    && (b in s.device || s.main.Owns(b) || ReleaserOwns(s, b))
  }

  ghost predicate TokenOk(s: State, b: nat, c: nat)
    requires c < |s.cons| && b < |s.plans| && b < |s.releasers|
  {
    && Tokens(s, c, b) <= 1
    && (Tokens(s, c, b) > 0 ==> (ReleaserOwns(s, b) && !s.releasers[b].Ready?) || Offered(s.main, b, c))
  }

  ghost predicate TokensOk(k: Config, s: State, b: nat)
    requires Shape(k, s) && b < k.nBufs
  {
    TokenOk(s, b, JPEG) && TokenOk(s, b, RAW) && TokenOk(s, b, H264)
  }

  ghost predicate RefsOk(k: Config, s: State, b: nat)
    requires Shape(k, s) && b < k.nBufs
  {
    s.refs[b] == Tokens(s, JPEG, b) + Tokens(s, RAW, b) + Tokens(s, H264, b)
                 + (if s.main.Putting? && s.main.b == b then 1 else 0)
  }

  ghost predicate ReleaserOk(k: Config, s: State, b: nat)
    requires Shape(k, s) && b < k.nBufs
  {
    && (s.plans[b] == [] || (s.plans[b] == [b] && (s.releasers[b].Waiting?)))
    && (!s.releasers[b].Waiting? ==> s.releasers[b].b == b)
  }

  /** The grabbed flag lags behind ownership only while the releaser is between QBUF and its store. */
  ghost predicate FlagOk(k: Config, s: State, b: nat)
    requires Shape(k, s) && b < k.nBufs
  {
    && (b in s.device || (s.main.Dequeued? && s.main.taken == b) ==> (s.grabbed[b] <==> s.releasers[b].Clearing?))
    && (ReleaserOwns(s, b) || (s.main.Owns(b) && !s.main.Closed? && !(s.main.Dequeued? && s.main.taken == b)) ==> s.grabbed[b])
    && (s.releasers[b].Clearing? ==> b in s.device || (s.main.Dequeued? && s.main.taken == b) || s.main.Closed?)
  }

  ghost predicate BufferInv(k: Config, s: State, b: nat)
    requires Shape(k, s) && b < k.nBufs
  {
    OnePlace(k, s, b) && TokensOk(k, s, b) && RefsOk(k, s, b) && ReleaserOk(k, s, b) && FlagOk(k, s, b)
  }

  ghost predicate ConsumerOk(k: Config, s: State, c: nat)
    requires c < |s.cons|
  {
    var con := s.cons[c];
    && (!k.Has(c) ==> con == Consumer([], Idle, multiset{}))
    && (con.pc.Dropping? || con.pc.Refetching? ==> con.queue != [])
  }

  ghost predicate ThreadInv(k: Config, s: State)
    requires Shape(k, s)
  {
    && s.device <= Range(k.nBufs)
    && (s.main.Dequeued? || s.main.Checked? ==> s.main.got != Some(s.main.taken))
    && ConsumerOk(k, s, JPEG) && ConsumerOk(k, s, RAW) && ConsumerOk(k, s, H264)
    && s.cons[JPEG].refused == s.cons[H264].refused == multiset{}
    && (s.cons[RAW].refused != multiset{} ==> k.nBufs >= 3)
    && (s.main.Putting? ==> k.Has(s.main.c))
    && (forall w | 0 <= w < k.nWorkers :: s.busy[w] ==> s.jobs[w].Some?)
    && (s.current.Some? ==> s.jobs[s.current.value].None?)
    && (!s.cons[JPEG].pc.Idle? ==> s.current.Some?)
  }

  ghost predicate Inv(k: Config, s: State) {
    && Shape(k, s)
    && Bounded(k, s)
    && ThreadInv(k, s)
    && forall b | 0 <= b < k.nBufs :: BufferInv(k, s, b)
  }

  lemma InitBuffer(k: Config, b: nat)
    requires b < k.nBufs
    ensures Shape(k, Init(k)) && BufferInv(k, Init(k), b)
  {
    var s := Init(k);
    assert Some(b) !in s.jobs;
    assert Tokens(s, JPEG, b) == 0 && Tokens(s, RAW, b) == 0 && Tokens(s, H264, b) == 0;
  }

  lemma InitInv(k: Config)
    ensures Inv(k, Init(k))
  {
    var s := Init(k);
    assert Shape(k, s) && Bounded(k, s) && ThreadInv(k, s);
    forall b | 0 <= b < k.nBufs
      ensures BufferInv(k, s, b)
    {
      InitBuffer(k, b);
    }
  }

  /** A step that leaves the consumers and the jobs alone keeps every token. */
  lemma SameTokens(s: State, s': State, b: nat, c: nat)
    requires s'.cons == s.cons && s'.jobs == s.jobs && c < |s.cons|
    ensures Tokens(s', c, b) == Tokens(s, c, b)
  {
  }

  ghost predicate SameOwners(s: State, s': State) {
    && s'.device == s.device && s'.main == s.main && s'.grabbed == s.grabbed
    && s'.plans == s.plans && s'.releasers == s.releasers
  }

  /** A consumer step gives up d references of b and changes nobody's ownership. */
  lemma ConsumerFrame(k: Config, s: State, s': State, b: nat, c0: nat, d: nat)
    requires Shape(k, s) && Shape(k, s') && b < k.nBufs && BufferInv(k, s, b)
    requires SameOwners(s, s') && c0 < 3
    requires Tokens(s', JPEG, b) == Tokens(s, JPEG, b) - (if c0 == JPEG then d else 0)
    requires Tokens(s', RAW, b) == Tokens(s, RAW, b) - (if c0 == RAW then d else 0)
    requires Tokens(s', H264, b) == Tokens(s, H264, b) - (if c0 == H264 then d else 0)
    requires s'.refs[b] == s.refs[b] - d
    ensures BufferInv(k, s', b)
  {
  }

  ghost predicate ThreadsOk(k: Config, s: State) {
    Shape(k, s) && Bounded(k, s) && ThreadInv(k, s)
  }

  lemma StepInv(k: Config, s: State, a: Action)
    requires Inv(k, s) && Enabled(k, s, a)
    ensures Inv(k, Step(k, s, a))
  {
    match a
    case Main(m) => MainInv(k, s, m);
    case Consume(c, t) => ThreadStepInv(k, s, c, t);
    case Pool(p) => PoolInv(k, s, p);
    case Release(i, r) => ReleaserInv(k, s, i, r);
  }

  // The main thread

  lemma MainInv(k: Config, s: State, m: MainAction)
    requires Inv(k, s) && MainEnabled(k, s, m)
    ensures Inv(k, MainStep(k, s, m))
  {
    MainThreads(k, s, m);
    forall b | 0 <= b < k.nBufs
      ensures BufferInv(k, MainStep(k, s, m), b)
    {
      assert BufferInv(k, s, b);
      if m.Put? {
        PutBuffer(k, s, b);
      } else {
        MainBuffer(k, s, m, b);
      }
    }
  }

  lemma MainThreads(k: Config, s: State, m: MainAction)
    requires Inv(k, s) && MainEnabled(k, s, m)
    ensures ThreadsOk(k, MainStep(k, s, m))
  {
    if m.Put? {
      RoomForPut(k, s);
      PutBounded(k, s);
      PutThreadInv(k, s);
    } else {
      assert MainStep(k, s, m).cons == s.cons && MainStep(k, s, m).jobs == s.jobs;
      assert m.Dequeue? ==> BufferInv(k, s, m.b);
      MainThreadInv(k, s, m);
    }
  }

  lemma PutBounded(k: Config, s: State)
    requires Shape(k, s) && Bounded(k, s) && s.main.Putting?
    ensures Bounded(k, MainStep(k, s, Put))
  {
    assert s.cons[s.main.c].Bounded(k.nBufs);
    assert PutInto(s.cons[s.main.c], k.Capacity(s.main.c), s.main.b).Bounded(k.nBufs);
  }

  lemma PutThreadInv(k: Config, s: State)
    requires Shape(k, s) && ThreadInv(k, s) && s.main.Putting?
    requires |s.cons[s.main.c].queue| < k.nBufs
    ensures Shape(k, MainStep(k, s, Put)) && ThreadInv(k, MainStep(k, s, Put))
  {
    assert ConsumerOk(k, s, s.main.c);
  }

  lemma MainShape(k: Config, s: State, m: MainAction)
    requires Shape(k, s) && MainEnabled(k, s, m) && !m.Put?
    ensures var s' := MainStep(k, s, m);
      Shape(k, s') && s'.cons == s.cons && s'.jobs == s.jobs && s'.busy == s.busy && s'.current == s.current
  {
  }

  lemma MainThreadInv(k: Config, s: State, m: MainAction)
    requires Shape(k, s) && ThreadInv(k, s) && MainEnabled(k, s, m) && !m.Put?
    requires m.Dequeue? ==> BufferInv(k, s, m.b)
    ensures Shape(k, MainStep(k, s, m)) && ThreadInv(k, MainStep(k, s, m))
  {
    var s' := MainStep(k, s, m);
    MainShape(k, s, m);
    assert s'.device <= Range(k.nBufs);
  }

  /** An action inside the grab loop. */
  lemma GrabBuffer(k: Config, s: State, m: MainAction, b: nat)
    requires Shape(k, s) && MainEnabled(k, s, m) && !m.Take? && !m.Put? && !m.Plan? && b < k.nBufs && BufferInv(k, s, b)
    requires s.main.Dequeued? || s.main.Checked? ==> s.main.got != Some(s.main.taken)
    requires Shape(k, MainStep(k, s, m))
    ensures BufferInv(k, MainStep(k, s, m), b)
  {
    var s' := MainStep(k, s, m);
    SameTokens(s, s', b, JPEG);
    SameTokens(s, s', b, RAW);
    SameTokens(s, s', b, H264);
    assert s'.plans == s.plans && s'.releasers == s.releasers;
  }

  /** An action of the fan-out. */
  lemma FanBuffer(k: Config, s: State, m: MainAction, b: nat)
    requires Shape(k, s) && MainEnabled(k, s, m) && (m.Take? || m.Plan?) && b < k.nBufs && BufferInv(k, s, b)
    requires Shape(k, MainStep(k, s, m))
    ensures BufferInv(k, MainStep(k, s, m), b)
  {
    var s' := MainStep(k, s, m);
    SameTokens(s, s', b, JPEG);
    SameTokens(s, s', b, RAW);
    SameTokens(s, s', b, H264);
    assert s'.device == s.device && s'.grabbed == s.grabbed && s'.releasers == s.releasers;
  }

  lemma MainBuffer(k: Config, s: State, m: MainAction, b: nat)
    requires Shape(k, s) && MainEnabled(k, s, m) && !m.Put? && b < k.nBufs && BufferInv(k, s, b)
    requires s.main.Dequeued? || s.main.Checked? ==> s.main.got != Some(s.main.taken)
    requires Shape(k, MainStep(k, s, m))
    ensures BufferInv(k, MainStep(k, s, m), b)
  {
    if m.Take? || m.Plan? {
      FanBuffer(k, s, m, b);
    } else {
      GrabBuffer(k, s, m, b);
    }
  }

  /** A buffer about to be put is in no queue of that consumer, so n_bufs slots are enough. */
  lemma RoomForPut(k: Config, s: State)
    requires Inv(k, s) && s.main.Putting?
    ensures |s.cons[s.main.c].queue| < k.nBufs
  {
    var b, c := s.main.b, s.main.c;
    var q := s.cons[c].queue;
    assert BufferInv(k, s, b) && Tokens(s, c, b) == 0;
    assert s.cons[c].Bounded(k.nBufs);
    forall x | x in q
      ensures multiset(q)[x] <= 1
    {
      assert BufferInv(k, s, x) && Tokens(s, c, x) <= 1;
    }
    DistinctByCount(q);
    assert multiset(q)[b] == 0;
    assert b !in q;
    Pigeonhole(q, k.nBufs, b);
  }

  lemma AppendTokens(q: seq<nat>, b: nat, x: nat)
    ensures multiset(q + [b])[x] == multiset(q)[x] + (if b == x then 1 else 0)
  {
  }

  /** A put adds one token of its buffer, queued or refused, to its consumer. */
  lemma PutTokens(k: Config, s: State, b: nat, d: nat)
    requires Shape(k, s) && s.main.Putting? && d < 3
    ensures var s' := MainStep(k, s, Put);
      |s'.cons| == 3 && Tokens(s', d, b) == Tokens(s, d, b) + (if d == s.main.c && b == s.main.b then 1 else 0)
  {
    AppendTokens(s.cons[s.main.c].queue, s.main.b, b);
  }

  lemma PutBuffer(k: Config, s: State, b: nat)
    requires Shape(k, s) && s.main.Putting? && b < k.nBufs && BufferInv(k, s, b)
    requires Shape(k, MainStep(k, s, Put))
    ensures BufferInv(k, MainStep(k, s, Put), b)
  {
    PutTokens(k, s, b, JPEG);
    PutTokens(k, s, b, RAW);
    PutTokens(k, s, b, H264);
  }

  // The consumer threads

  lemma ThreadStepInv(k: Config, s: State, c: nat, t: ThreadAction)
    requires Inv(k, s) && c < 3 && ThreadEnabled(k, s, c, t)
    ensures Inv(k, ThreadStep(k, s, c, t))
  {
    ThreadThreads(k, s, c, t);
    forall b | 0 <= b < k.nBufs
      ensures BufferInv(k, ThreadStep(k, s, c, t), b)
    {
      assert BufferInv(k, s, b);
      ThreadBuffer(k, s, c, t, b);
    }
  }

  lemma ThreadThreads(k: Config, s: State, c: nat, t: ThreadAction)
    requires ThreadsOk(k, s) && c < 3 && ThreadEnabled(k, s, c, t)
    ensures ThreadsOk(k, ThreadStep(k, s, c, t))
  {
    ThreadBounded(k, s, c, t);
    var s' := ThreadStep(k, s, c, t);
    assert s'.main == s.main && s'.device == s.device && s'.jobs == s.jobs && s'.busy == s.busy;
    assert s'.cons == s.cons[c := s'.cons[c]] && s'.cons[c].refused == s.cons[c].refused;
    assert ConsumerOk(k, s, c) && ConsumerOk(k, s', c);
  }

  lemma ThreadBounded(k: Config, s: State, c: nat, t: ThreadAction)
    requires Shape(k, s) && Bounded(k, s) && c < 3 && ThreadEnabled(k, s, c, t)
    ensures Shape(k, ThreadStep(k, s, c, t)) && Bounded(k, ThreadStep(k, s, c, t))
  {
    var con := s.cons[c];
    assert con.Bounded(k.nBufs);
    if t.Get? || t.Refetch? {
      assert con.queue[0] in con.queue;
      assert forall x | x in con.queue[1..] :: x in con.queue;
    }
    assert ThreadStep(k, s, c, t).cons[c].Bounded(k.nBufs);
  }

  lemma HeadTokens(q: seq<nat>, x: nat)
    requires q != []
    ensures multiset(q[1..])[x] + (if q[0] == x then 1 else 0) == multiset(q)[x]
  {
    assert q == [q[0]] + q[1..];
  }

  lemma ThreadTokens(k: Config, s: State, c: nat, t: ThreadAction, b: nat, d: nat)
    requires Shape(k, s) && Bounded(k, s) && c < 3 && d < 3 && ThreadEnabled(k, s, c, t)
    ensures Tokens(ThreadStep(k, s, c, t), d, b)
         == Tokens(s, d, b) - (if d == c && (t.Drop? || t.Finish?) && b == s.cons[c].pc.b then 1 else 0)
  {
    var s' := ThreadStep(k, s, c, t);
    assert s'.jobs == s.jobs && s'.cons == s.cons[c := s'.cons[c]];
    if t.Get? || t.Refetch? {
      HeadTokens(s.cons[c].queue, b);
    }
  }

  lemma ThreadBuffer(k: Config, s: State, c: nat, t: ThreadAction, b: nat)
    requires ThreadsOk(k, s) && c < 3 && ThreadEnabled(k, s, c, t) && b < k.nBufs && BufferInv(k, s, b)
    requires Shape(k, ThreadStep(k, s, c, t))
    ensures BufferInv(k, ThreadStep(k, s, c, t), b)
  {
    ThreadTokens(k, s, c, t, b, JPEG);
    ThreadTokens(k, s, c, t, b, RAW);
    ThreadTokens(k, s, c, t, b, H264);
    var d := if (t.Drop? || t.Finish?) && b == s.cons[c].pc.b then 1 else 0;
    ConsumerFrame(k, s, ThreadStep(k, s, c, t), b, c, d);
  }

  // The encoder pool, as the JPEG thread sees it

  lemma PoolInv(k: Config, s: State, p: PoolAction)
    requires Inv(k, s) && PoolEnabled(k, s, p)
    ensures Inv(k, PoolStep(k, s, p))
  {
    PoolThreads(k, s, p);
    forall b | 0 <= b < k.nBufs
      ensures BufferInv(k, PoolStep(k, s, p), b)
    {
      assert BufferInv(k, s, b);
      PoolBuffer(k, s, p, b);
    }
  }

  lemma PoolBounded(k: Config, s: State, p: PoolAction)
    requires Shape(k, s) && Bounded(k, s) && PoolEnabled(k, s, p)
    ensures Shape(k, PoolStep(k, s, p)) && Bounded(k, PoolStep(k, s, p))
  {
    var s' := PoolStep(k, s, p);
    assert s'.cons[JPEG].queue == s.cons[JPEG].queue && s'.cons[JPEG].pc in {s.cons[JPEG].pc, Idle};
    assert s'.cons[RAW] == s.cons[RAW] && s'.cons[H264] == s.cons[H264] && s'.releasers == s.releasers;
    assert forall w | 0 <= w < k.nWorkers :: s'.jobs[w] == s.jobs[w] || s'.jobs[w].None? || s'.jobs[w] == Some(s.cons[JPEG].pc.b);
  }

  lemma PoolThreadInv(k: Config, s: State, p: PoolAction)
    requires Shape(k, s) && Bounded(k, s) && ThreadInv(k, s) && PoolEnabled(k, s, p) && Shape(k, PoolStep(k, s, p))
    ensures ThreadInv(k, PoolStep(k, s, p))
  {
    var s' := PoolStep(k, s, p);
    assert s'.cons[JPEG].queue == s.cons[JPEG].queue && s'.cons[JPEG].refused == s.cons[JPEG].refused;
    assert s'.cons[RAW] == s.cons[RAW] && s'.cons[H264] == s.cons[H264];
    assert s'.main == s.main && s'.device == s.device;
  }

  lemma PoolThreads(k: Config, s: State, p: PoolAction)
    requires ThreadsOk(k, s) && PoolEnabled(k, s, p)
    ensures ThreadsOk(k, PoolStep(k, s, p))
  {
    PoolBounded(k, s, p);
    PoolThreadInv(k, s, p);
  }

  lemma JobsUpdate(jobs: seq<Option<nat>>, w: nat, v: Option<nat>, x: Option<nat>)
    requires w < |jobs|
    ensures multiset(jobs[w := v])[x] + (if jobs[w] == x then 1 else 0)
         == multiset(jobs)[x] + (if v == x then 1 else 0)
  {
  }

  lemma PoolJobs(k: Config, s: State, p: PoolAction, b: nat)
    requires Shape(k, s) && Bounded(k, s) && PoolEnabled(k, s, p)
    requires s.current.Some? ==> s.jobs[s.current.value].None?
    ensures multiset(PoolStep(k, s, p).jobs)[Some(b)] + (if p.Collect? && s.jobs[p.w] == Some(b) then 1 else 0)
         == multiset(s.jobs)[Some(b)] + (if p.Assign? && s.cons[JPEG].pc.b == b then 1 else 0)
  {
    if p.Collect? {
      JobsUpdate(s.jobs, p.w, None, Some(b));
    } else if p.Assign? {
      JobsUpdate(s.jobs, s.current.value, Some(s.cons[JPEG].pc.b), Some(b));
    }
  }

  lemma PoolTokens(k: Config, s: State, p: PoolAction, b: nat)
    requires Shape(k, s) && Bounded(k, s) && PoolEnabled(k, s, p)
    requires s.current.Some? ==> s.jobs[s.current.value].None?
    ensures var s' := PoolStep(k, s, p);
      && Tokens(s', JPEG, b) == Tokens(s, JPEG, b) - (if p.Collect? && s.jobs[p.w] == Some(b) then 1 else 0)
      && Tokens(s', RAW, b) == Tokens(s, RAW, b)
      && Tokens(s', H264, b) == Tokens(s, H264, b)
  {
    var s' := PoolStep(k, s, p);
    PoolJobs(k, s, p, b);
    assert s'.cons[RAW] == s.cons[RAW] && s'.cons[H264] == s.cons[H264];
    assert s'.cons[JPEG] == if p.Assign? then s.cons[JPEG].(pc := Idle) else s.cons[JPEG];
  }

  lemma PoolOwners(k: Config, s: State, p: PoolAction, b: nat)
    requires Shape(k, s) && Bounded(k, s) && PoolEnabled(k, s, p) && b < k.nBufs
    ensures var s' := PoolStep(k, s, p);
      SameOwners(s, s') && |s'.refs| == |s.refs|
      && s'.refs[b] == s.refs[b] - (if p.Collect? && s.jobs[p.w] == Some(b) then 1 else 0)
  {
  }

  lemma PoolBuffer(k: Config, s: State, p: PoolAction, b: nat)
    requires Shape(k, s) && Bounded(k, s) && PoolEnabled(k, s, p) && b < k.nBufs && BufferInv(k, s, b)
    requires s.current.Some? ==> s.jobs[s.current.value].None?
    requires Shape(k, PoolStep(k, s, p))
    ensures BufferInv(k, PoolStep(k, s, p), b)
  {
    PoolTokens(k, s, p, b);
    PoolOwners(k, s, p, b);
    ConsumerFrame(k, s, PoolStep(k, s, p), b, JPEG, if p.Collect? && s.jobs[p.w] == Some(b) then 1 else 0);
  }

  // The releasers

  lemma ReleaserInv(k: Config, s: State, i: nat, r: ReleaserAction)
    requires Inv(k, s) && i < k.nBufs && ReleaserEnabled(k, s, i, r)
    ensures Inv(k, ReleaserStep(k, s, i, r))
  {
    assert BufferInv(k, s, i);
    ReleaserThreads(k, s, i, r);
    forall b | 0 <= b < k.nBufs
      ensures BufferInv(k, ReleaserStep(k, s, i, r), b)
    {
      assert BufferInv(k, s, b);
      ReleaserBuffer(k, s, i, r, b);
    }
  }

  lemma ReleaserThreads(k: Config, s: State, i: nat, r: ReleaserAction)
    requires ThreadsOk(k, s) && i < k.nBufs && BufferInv(k, s, i) && ReleaserEnabled(k, s, i, r)
    ensures ThreadsOk(k, ReleaserStep(k, s, i, r))
  {
  }

  lemma ReleaserOthers(k: Config, s: State, i: nat, r: ReleaserAction, b: nat)
    requires Shape(k, s) && Bounded(k, s) && i < k.nBufs && ReleaserOk(k, s, i) && ReleaserEnabled(k, s, i, r)
    requires b < k.nBufs && b != i
    ensures var s' := ReleaserStep(k, s, i, r);
      && s'.plans[b] == s.plans[b] && s'.releasers[b] == s.releasers[b]
      && s'.grabbed[b] == s.grabbed[b] && (b in s'.device <==> b in s.device)
  {
  }

  lemma ReleaserBuffer(k: Config, s: State, i: nat, r: ReleaserAction, b: nat)
    requires Shape(k, s) && Bounded(k, s) && i < k.nBufs && BufferInv(k, s, i) && ReleaserEnabled(k, s, i, r)
    requires b < k.nBufs && BufferInv(k, s, b) && Shape(k, ReleaserStep(k, s, i, r))
    ensures BufferInv(k, ReleaserStep(k, s, i, r), b)
  {
    var s' := ReleaserStep(k, s, i, r);
    SameTokens(s, s', b, JPEG);
    SameTokens(s, s', b, RAW);
    SameTokens(s, s', b, H264);
    assert s'.main == s.main && s'.refs == s.refs;
    if b != i {
      ReleaserOthers(k, s, i, r, b);
    }
  }

  // ---------------------------------------------------------------- whole runs

  ghost predicate Link(k: Config, s: State, a: Action, s': State) {
    Shape(k, s) && Bounded(k, s) && Enabled(k, s, a) && s' == Step(k, s, a)
  }

  /** An interleaving of the threads, starting when the session is opened. */
  ghost predicate IsRun(k: Config, states: seq<State>, actions: seq<Action>) {
    && |states| == |actions| + 1
    && states[0] == Init(k)
    && forall i | 0 <= i < |actions| :: Link(k, states[i], actions[i], states[i + 1])
  }

  lemma {:induction false} RunInv(k: Config, states: seq<State>, actions: seq<Action>, i: nat)
    requires IsRun(k, states, actions) && i < |states|
    ensures Inv(k, states[i])
  {
    if i == 0 {
      InitInv(k);
    } else {
      RunInv(k, states, actions, i - 1);
      assert Link(k, states[i - 1], actions[i - 1], states[i]);
      StepInv(k, states[i - 1], actions[i - 1]);
    }
  }

  ghost function Occurrences(jobs: seq<Option<nat>>, b: nat): nat {
    multiset(jobs)[Some(b)]
  }

  /** No early release: what the device owns, nobody in the session can touch. */
  lemma DeviceOwnsAlone(k: Config, states: seq<State>, actions: seq<Action>, i: nat, b: nat)
    requires IsRun(k, states, actions) && i < |states| && b in states[i].device
    ensures b < |states[i].refs| && states[i].refs[b] == 0 && !states[i].main.Owns(b)
    ensures forall c | 0 <= c < |states[i].cons| ::
      b !in states[i].cons[c].queue && states[i].cons[c].pc.Holds(b) == 0
    ensures Some(b) !in states[i].jobs
  {
    var s := states[i];
    RunInv(k, states, actions, i);
    assert BufferInv(k, s, b);
    forall c | 0 <= c < |s.cons|
      ensures b !in s.cons[c].queue && s.cons[c].pc.Holds(b) == 0
    {
      assert Tokens(s, c, b) == 0;
      assert multiset(s.cons[c].queue)[b] == 0;
    }
    assert Tokens(s, JPEG, b) == 0 && multiset(s.jobs)[Some(b)] == 0;
  }

  /**
   refs counts exactly the queued copies, the threads holding the buffer, the encoder jobs,
   the refused RAW puts and the put in flight; and no consumer ever has a buffer twice.
   */
  lemma RefCount(k: Config, states: seq<State>, actions: seq<Action>, i: nat, b: nat)
    requires IsRun(k, states, actions) && i < |states| && b < k.nBufs
    ensures var s := states[i];
      && Shape(k, s)
      && s.refs[b] == multiset(s.cons[JPEG].queue)[b] + multiset(s.cons[RAW].queue)[b] + multiset(s.cons[H264].queue)[b]
                      + s.cons[JPEG].pc.Holds(b) + s.cons[RAW].pc.Holds(b) + s.cons[H264].pc.Holds(b)
                      + Occurrences(s.jobs, b) + s.cons[RAW].refused[b]
                      + (if s.main.Putting? && s.main.b == b then 1 else 0)
      && multiset(s.cons[JPEG].queue)[b] + s.cons[JPEG].pc.Holds(b) + Occurrences(s.jobs, b) <= 1
      && multiset(s.cons[RAW].queue)[b] + s.cons[RAW].pc.Holds(b) + s.cons[RAW].refused[b] <= 1
      && multiset(s.cons[H264].queue)[b] + s.cons[H264].pc.Holds(b) <= 1
  {
    RunInv(k, states, actions, i);
    assert BufferInv(k, states[i], b);
  }

  lemma ReadyMeansZero(k: Config, s: State)
    requires Inv(k, s)
    ensures forall r | 0 <= r < k.nBufs && s.releasers[r].Ready? :: s.releasers[r].b == r && s.refs[r] == 0
  {
    forall r | 0 <= r < k.nBufs && s.releasers[r].Ready?
      ensures s.releasers[r].b == r && s.refs[r] == 0
    {
      assert BufferInv(k, s, r);
    }
  }

  lemma PutsSucceed(k: Config, s: State)
    requires Inv(k, s)
    ensures s.main.Putting? && s.main.c != RAW ==> |s.cons[s.main.c].queue| < k.Capacity(s.main.c)
    ensures s.main.Planning? ==> s.plans[s.main.b] == []
    ensures forall c | 0 <= c < 3 && s.cons[c].pc.Refetching? :: s.cons[c].queue != []
  {
    if s.main.Putting? {
      RoomForPut(k, s);
    }
    if s.main.Planning? {
      assert BufferInv(k, s, s.main.b);
    }
    assert ConsumerOk(k, s, JPEG) && ConsumerOk(k, s, RAW) && ConsumerOk(k, s, H264);
  }

  /** The assertions and the unchecked calls of the threads are always safe. */
  lemma NoAssertFails(k: Config, states: seq<State>, actions: seq<Action>, i: nat)
    requires IsRun(k, states, actions) && i < |states|
    ensures var s := states[i];
      && Shape(k, s)
      // us_capture_hwbuf_release: refs == 0
      && (forall r | 0 <= r < k.nBufs && s.releasers[r].Ready? :: s.releasers[r].b == r && s.refs[r] == 0)
      // the unchecked puts into the JPEG and H264 queues and into the one-slot releaser queues
      && (s.main.Putting? && s.main.c != RAW ==> |s.cons[s.main.c].queue| < k.Capacity(s.main.c))
      && (s.main.Planning? ==> s.plans[s.main.b] == [])
      // the asserted get inside _get_latest_hw
      && (forall c | 0 <= c < 3 && s.cons[c].pc.Refetching? :: s.cons[c].queue != [])
  {
    RunInv(k, states, actions, i);
    ReadyMeansZero(k, states[i]);
    PutsSucceed(k, states[i]);
  }

  /**
   The "already used" error of the grab loop is raised exactly when the releaser of that
   buffer has called QBUF but has not stored its flag yet.
   */
  lemma AlreadyUsedIffClearing(k: Config, states: seq<State>, actions: seq<Action>, i: nat)
    requires IsRun(k, states, actions) && i < |actions| && actions[i] == Main(CheckFlag)
    ensures states[i].main.Dequeued? && states[i].main.taken < |states[i].releasers|
    ensures states[i + 1].main.Closed? <==> states[i].releasers[states[i].main.taken].Clearing?
  {
    RunInv(k, states, actions, i);
    assert Link(k, states[i], actions[i], states[i + 1]);
    assert BufferInv(k, states[i], states[i].main.taken);
  }

  // ---------------------------------------------------------------- the RAW queue leak

  lemma RefusedGrows(k: Config, s: State, a: Action)
    requires Shape(k, s) && Bounded(k, s) && Enabled(k, s, a)
    ensures |Step(k, s, a).cons| == 3 && s.cons[RAW].refused <= Step(k, s, a).cons[RAW].refused
  {
    match a
    case Main(m) =>
    case Consume(c, t) =>
    case Pool(p) =>
    case Release(i, r) =>
  }

  lemma {:induction false} RefusedStays(k: Config, states: seq<State>, actions: seq<Action>, i: nat, j: nat)
    requires IsRun(k, states, actions) && i <= j < |states|
    ensures |states[i].cons| == |states[j].cons| == 3
    ensures states[i].cons[RAW].refused <= states[j].cons[RAW].refused
    decreases j - i
  {
    RunInv(k, states, actions, i);
    if i < j {
      assert Link(k, states[i], actions[i], states[i + 1]);
      RefusedGrows(k, states[i], actions[i]);
      RefusedStays(k, states, actions, i + 1, j);
    }
  }

  /** A buffer whose RAW put was refused never goes back to the device in that session. */
  lemma RefusedBufferIsLost(k: Config, states: seq<State>, actions: seq<Action>, i: nat, j: nat, b: nat)
    requires IsRun(k, states, actions) && i <= j < |states|
    requires |states[i].cons| == 3 && b in states[i].cons[RAW].refused && b < k.nBufs
    ensures b !in states[j].device
    ensures |states[j].refs| == k.nBufs && states[j].refs[b] >= 1
  {
    RefusedStays(k, states, actions, i, j);
    RunInv(k, states, actions, j);
    assert BufferInv(k, states[j], b);
    assert Tokens(states[j], RAW, b) >= 1;
  }
}
