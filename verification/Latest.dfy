/** _get_latest_hw inside a capture session: which consumers ever drop a buffer, and which one they return. */
module LatestInRuns {
  import opened Common
  import opened CaptureSession
  import opened Delivery
  import Queues

  // ---------------------------------------------------------------- one consumer on its own

  /** The actions that concern consumer c. */
  predicate Concerns(m: Main, a: Action, c: nat) {
    match a
    case Main(x) => x.Put? && m.Putting? && m.c == c
    case Consume(d, _) => d == c
    case Pool(p) => p.Assign? && c == JPEG
    case Release(_, _) => false
  }

  /** And what they do to it. */
  ghost predicate ConsumerLink(k: Config, c: nat, con: Consumer, m: Main, a: Action, con': Consumer) {
    if !Concerns(m, a, c) then con' == con
    else match a
      case Main(_) => con' == PutInto(con, k.Capacity(c), m.b)
      case Consume(_, t) =>
        (match t
         case Get => con.pc.Idle? && con.queue != [] && con' == con.(queue := con.queue[1..], pc := Looking(con.queue[0]))
         case Look =>
           con.pc.Looking? && con' == con.(pc := if |con.queue| == k.Capacity(c) then Dropping(con.pc.b) else Using(con.pc.b))
         case Drop => con.pc.Dropping? && con' == con.(pc := Refetching)
         case Refetch => con.pc.Refetching? && con.queue != [] && con' == con.(queue := con.queue[1..], pc := Looking(con.queue[0]))
         case Finish => con.pc.Using? && con' == con.(pc := Idle))
      case Pool(_) => con.pc.Using? && con' == con.(pc := Idle)
      case Release(_, _) => true
  }

  lemma StepConsumer(k: Config, s: State, a: Action, c: nat)
    requires Shape(k, s) && Bounded(k, s) && Enabled(k, s, a) && c < 3
    ensures |Step(k, s, a).cons| == 3 && ConsumerLink(k, c, s.cons[c], s.main, a, Step(k, s, a).cons[c])
  {
    match a
    case Main(m) => MainConsumer(k, s, m, c);
    case Consume(d, t) => ThreadConsumer(k, s, d, t, c);
    case Pool(p) => PoolConsumer(k, s, p, c);
    case Release(i, r) =>
  }

  lemma MainConsumer(k: Config, s: State, m: MainAction, c: nat)
    requires Shape(k, s) && MainEnabled(k, s, m) && c < 3
    ensures var s' := MainStep(k, s, m);
      |s'.cons| == 3 && s'.cons[c] == if m.Put? && s.main.c == c then PutInto(s.cons[c], k.Capacity(c), s.main.b) else s.cons[c]
  {
  }

  lemma ThreadConsumer(k: Config, s: State, d: nat, t: ThreadAction, c: nat)
    requires Shape(k, s) && Bounded(k, s) && d < 3 && ThreadEnabled(k, s, d, t) && c < 3
    ensures var s' := ThreadStep(k, s, d, t);
      |s'.cons| == 3 && ConsumerLink(k, c, s.cons[c], s.main, Consume(d, t), s'.cons[c])
  {
  }

  lemma PoolConsumer(k: Config, s: State, p: PoolAction, c: nat)
    requires Shape(k, s) && Bounded(k, s) && PoolEnabled(k, s, p) && c < 3
    ensures var s' := PoolStep(k, s, p);
      |s'.cons| == 3 && s'.cons[c] == if p.Assign? && c == JPEG then s.cons[c].(pc := Idle) else s.cons[c]
  {
  }

  /** The run as consumer c sees it. */
  ghost predicate ConsumerRun(k: Config, c: nat, cs: seq<Consumer>, ms: seq<Main>, actions: seq<Action>) {
    && |cs| == |ms| == |actions| + 1 && cs[0] == Consumer([], Idle, multiset{})
    && forall i | 0 <= i < |actions| :: ConsumerLink(k, c, cs[i], ms[i], actions[i], cs[i + 1])
  }

  function Consumers(states: seq<State>, c: nat): (cs: seq<Consumer>)
    ensures |cs| == |states| && forall i | 0 <= i < |cs| && c < |states[i].cons| :: cs[i] == states[i].cons[c]
  {
    seq(|states|, i requires 0 <= i < |states| =>
      if c < |states[i].cons| then states[i].cons[c] else Consumer([], Idle, multiset{}))
  }

  lemma ThreeConsumers(k: Config, states: seq<State>, actions: seq<Action>, i: nat)
    requires IsRun(k, states, actions) && i < |states|
    ensures |states[i].cons| == 3
  {
    if i > 0 {
      assert Link(k, states[i - 1], actions[i - 1], states[i]);
      StepConsumer(k, states[i - 1], actions[i - 1], RAW);
    }
  }

  lemma RunConsumer(k: Config, states: seq<State>, actions: seq<Action>, c: nat)
    requires IsRun(k, states, actions) && c < 3
    ensures forall i | 0 <= i < |states| :: |states[i].cons| == 3
    ensures ConsumerRun(k, c, Consumers(states, c), Mains(states), actions)
  {
    forall i | 0 <= i < |states|
      ensures |states[i].cons| == 3
    {
      ThreeConsumers(k, states, actions, i);
    }
    var cs, ms := Consumers(states, c), Mains(states);
    forall i | 0 <= i < |actions|
      ensures ConsumerLink(k, c, cs[i], ms[i], actions[i], cs[i + 1])
    {
      assert Link(k, states[i], actions[i], states[i + 1]);
      StepConsumer(k, states[i], actions[i], c);
    }
  }

  // ---------------------------------------------------------------- only the RAW thread drops

  ghost predicate NeverDrops(s: State, c: nat)
    requires c < |s.cons|
  {
    !s.cons[c].pc.Dropping? && !s.cons[c].pc.Refetching?
  }

  /** The held buffer and the different ones in the queue leave one of n_bufs slots free. */
  lemma RoomAtLook(k: Config, s: State, c: nat)
    requires Inv(k, s) && c < 3 && s.cons[c].pc.Looking?
    ensures |s.cons[c].queue| < k.nBufs
  {
    var b, q := s.cons[c].pc.b, s.cons[c].queue;
    assert s.cons[c].Bounded(k.nBufs);
    assert BufferInv(k, s, b) && Tokens(s, c, b) <= 1;
    forall x | x in q
      ensures multiset(q)[x] <= 1
    {
      assert BufferInv(k, s, x) && Tokens(s, c, x) <= 1;
    }
    DistinctByCount(q);
    assert multiset(q)[b] == 0;
    assert b !in q;
    Pigeonhole(q, k.nBufs, b);
  }

  lemma StepNeverDrops(k: Config, s: State, a: Action, c: nat)
    requires Inv(k, s) && Enabled(k, s, a) && c < 3 && c != RAW && NeverDrops(s, c)
    ensures |Step(k, s, a).cons| == 3 && NeverDrops(Step(k, s, a), c)
  {
    StepConsumer(k, s, a, c);
    if a == Consume(c, Look) {
      RoomAtLook(k, s, c);
    }
  }

  /** The JPEG and the H264 thread return the oldest frame of their queue, every time. */
  lemma {:induction false} OnlyRawDrops(k: Config, states: seq<State>, actions: seq<Action>, i: nat, c: nat)
    requires IsRun(k, states, actions) && i < |states| && c < 3 && c != RAW
    ensures |states[i].cons| == 3 && NeverDrops(states[i], c)
  {
    if i > 0 {
      OnlyRawDrops(k, states, actions, i - 1, c);
      RunInv(k, states, actions, i - 1);
      assert Link(k, states[i - 1], actions[i - 1], states[i]);
      StepNeverDrops(k, states[i - 1], actions[i - 1], c);
    }
  }

  // ---------------------------------------------------------------- queues stay within their capacity

  lemma {:induction false} RunFits(k: Config, c: nat, cs: seq<Consumer>, ms: seq<Main>, actions: seq<Action>, i: nat)
    requires ConsumerRun(k, c, cs, ms, actions) && i < |cs|
    ensures |cs[i].queue| <= k.Capacity(c)
  {
    if i > 0 {
      RunFits(k, c, cs, ms, actions, i - 1);
      assert ConsumerLink(k, c, cs[i - 1], ms[i - 1], actions[i - 1], cs[i]);
    }
  }

  // ---------------------------------------------------------------- a call that is interrupted anywhere

  /**
   What one call has seen: the queue it began with, the batches of puts in front of the looks
   that found the queue full, the buffers it let go, the queue after its last get and the
   puts since then.
   */
  datatype Call = Call(start: seq<nat>, front: seq<seq<nat>>, dropped: seq<nat>, rest: seq<nat>, batch: seq<nat>)

  function Begins(q: seq<nat>): Call
    requires q != []
  {
    Call(q, [], [], q[1..], [])
  }

  /** The record after an action of the session. */
  function Noted(call: Call, con: Consumer, m: Main, c: nat, a: Action): Call {
    if a == Main(Put) && m.Putting? && m.c == c && con.pc.Looking? then call.(batch := call.batch + [m.b])
    else if a == Consume(c, Drop) && con.pc.Dropping? then call.(dropped := call.dropped + [con.pc.b])
    else if a == Consume(c, Refetch) && con.queue != [] then
      call.(front := call.front + [call.batch], rest := con.queue[1..], batch := [])
    else call
  }

  function Record(cs: seq<Consumer>, ms: seq<Main>, actions: seq<Action>, i: nat, m: nat, c: nat): (call: Call)
    requires i < m < |cs| == |ms| == |actions| + 1 && cs[i].queue != []
    ensures call.start == cs[i].queue
    decreases m
  {
    if m == i + 1 then Begins(cs[i].queue)
    else Noted(Record(cs, ms, actions, i, m - 1, c), cs[m - 1], ms[m - 1], c, actions[m - 1])
  }

  /** What the loop still has to do from here is what is left of the whole call. */
  ghost predicate Continues(call: Call, front: seq<seq<nat>>, capacity: nat, b: nat, rest: seq<nat>)
    requires 0 < |call.start| <= capacity && |rest| < capacity
  {
    forall y :: Queues.Settle(call.start[0], call.start[1..], capacity, front + y)
      == Queues.After(call.dropped, Queues.Settle(b, rest, capacity, y))
  }

  ghost predicate CallOk(k: Config, con: Consumer, c: nat, call: Call) {
    var n := k.Capacity(c);
    && 0 < |call.start| <= n && |call.rest| < n
    && con.queue == call.rest + Queues.Accepted(n - |call.rest|, call.batch)
    && match con.pc
       case Looking(b) => Continues(call, call.front, n, b, call.rest)
       case Dropping(b) => |con.queue| == n && Continues(call, call.front, n, b, call.rest)
       case Refetching => |con.queue| == n && Continues(call, call.front + [call.batch], n, con.queue[0], con.queue[1..])
       case _ => true
  }

  ghost predicate InCall(con: Consumer) {
    con.pc.Looking? || con.pc.Dropping? || con.pc.Refetching?
  }

  lemma BeginsOk(k: Config, con: Consumer, con': Consumer, c: nat)
    requires 0 < |con.queue| <= k.Capacity(c)
    requires con'.queue == con.queue[1..] && con'.pc == Looking(con.queue[0])
    ensures CallOk(k, con', c, Begins(con.queue))
  {
    var n, q := k.Capacity(c), con.queue;
    assert q[1..] + Queues.Accepted(n - |q[1..]|, []) == q[1..];
    forall y
      ensures Queues.Settle(q[0], q[1..], n, [] + y) == Queues.After([], Queues.Settle(q[0], q[1..], n, y))
    {
      assert [] + y == y;
      var o := Queues.Settle(q[0], q[1..], n, y);
      assert [] + o.dropped == o.dropped;
    }
  }

  lemma AcceptedMore(room: nat, batch: seq<nat>, b: nat)
    ensures Queues.Accepted(room, batch + [b])
      == if |Queues.Accepted(room, batch)| < room then Queues.Accepted(room, batch) + [b] else Queues.Accepted(room, batch)
  {
  }

  /** A put between a get and the look behind it joins the batch; during a drop the full queue refuses it. */
  lemma PutOk(k: Config, con: Consumer, c: nat, call: Call, b: nat)
    requires CallOk(k, con, c, call) && InCall(con)
    ensures con.pc.Looking? ==> CallOk(k, PutInto(con, k.Capacity(c), b), c, call.(batch := call.batch + [b]))
    ensures !con.pc.Looking? ==> CallOk(k, PutInto(con, k.Capacity(c), b), c, call)
  {
    var room := k.Capacity(c) - |call.rest|;
    if con.pc.Looking? {
      AcceptedMore(room, call.batch, b);
      var call' := call.(batch := call.batch + [b]);
      assert call.rest + (Queues.Accepted(room, call.batch) + [b]) == con.queue + [b];
      assert Continues(call', call'.front, k.Capacity(c), con.pc.b, call'.rest);
    }
  }

  /** The buffer at a full look is let go, and the call goes on as the loop on values does. */
  lemma DropOk(k: Config, con: Consumer, c: nat, call: Call)
    requires CallOk(k, con, c, call) && con.pc.Dropping?
    ensures CallOk(k, con.(pc := Refetching), c, call.(dropped := call.dropped + [con.pc.b]))
  {
    var n, b, q := k.Capacity(c), con.pc.b, con.queue;
    var call' := call.(dropped := call.dropped + [b]);
    forall y
      ensures Queues.Settle(call.start[0], call.start[1..], n, call.front + [call.batch] + y)
        == Queues.After(call'.dropped, Queues.Settle(q[0], q[1..], n, y))
    {
      Associate(call.front, [call.batch], y);
      assert ([call.batch] + y)[1..] == y;
      Queues.LetGo(b, call.rest, n, [call.batch] + y, call.dropped, q[0], q[1..]);
    }
  }

  lemma RefetchOk(k: Config, con: Consumer, c: nat, call: Call)
    requires CallOk(k, con, c, call) && con.pc.Refetching?
    ensures con.queue != []
    ensures CallOk(k, con.(queue := con.queue[1..], pc := Looking(con.queue[0])), c,
      call.(front := call.front + [call.batch], rest := con.queue[1..], batch := []))
  {
    var n, q := k.Capacity(c), con.queue;
    assert q[1..] + Queues.Accepted(n - |q[1..]|, []) == q[1..];
    var call' := call.(front := call.front + [call.batch], rest := q[1..], batch := []);
    assert Continues(call', call'.front, n, q[0], q[1..]);
  }

  lemma StepCall(k: Config, c: nat, con: Consumer, m: Main, a: Action, con': Consumer, call: Call)
    requires ConsumerLink(k, c, con, m, a, con') && InCall(con) && CallOk(k, con, c, call)
    ensures CallOk(k, con', c, Noted(call, con, m, c, a))
  {
    if Concerns(m, a, c) {
      match a
      case Main(_) => PutOk(k, con, c, call, m.b);
      case Consume(_, t) =>
        if t.Drop? {
          DropOk(k, con, c, call);
        } else if t.Refetch? {
          RefetchOk(k, con, c, call);
        }
      case Pool(_) =>
      case Release(_, _) =>
    }
  }

  /** At every moment of a call, whatever other threads do meanwhile. */
  lemma {:induction false} DuringCall(k: Config, c: nat, cs: seq<Consumer>, ms: seq<Main>, actions: seq<Action>, i: nat, m: nat)
    requires ConsumerRun(k, c, cs, ms, actions) && i < m < |cs| && actions[i] == Consume(c, Get)
    requires forall j | i < j < m :: InCall(cs[j])
    ensures cs[i].queue != [] && CallOk(k, cs[m], c, Record(cs, ms, actions, i, m, c))
    decreases m
  {
    if m == i + 1 {
      assert ConsumerLink(k, c, cs[i], ms[i], actions[i], cs[m]);
      RunFits(k, c, cs, ms, actions, i);
      BeginsOk(k, cs[i], cs[m], c);
    } else {
      DuringCall(k, c, cs, ms, actions, i, m - 1);
      assert ConsumerLink(k, c, cs[m - 1], ms[m - 1], actions[m - 1], cs[m]);
      StepCall(k, c, cs[m - 1], ms[m - 1], actions[m - 1], cs[m], Record(cs, ms, actions, i, m - 1, c));
    }
  }

  /**
   _get_latest_hw between any actions of the other threads: when the look at the end of a call
   lets the consumer keep its buffer, that buffer, the ones let go and what is left in the queue
   are those of the loop on values for the puts that were made during the call.
   */
  lemma CallIsSettle(k: Config, states: seq<State>, actions: seq<Action>, i: nat, m: nat, c: nat)
    requires IsRun(k, states, actions) && i < m < |actions| && c < 3
    requires actions[i] == Consume(c, Get) && actions[m] == Consume(c, Look)
    requires forall j | i < j <= m :: InCall(Consumers(states, c)[j])
    requires Consumers(states, c)[m + 1].pc.Using?
    ensures var cs := Consumers(states, c);
      var q, con' := cs[i].queue, cs[m + 1];
      && 0 < |q| <= k.Capacity(c)
      && var call := Record(cs, Mains(states), actions, i, m, c);
         Queues.Outcome(con'.pc.b, call.dropped, con'.queue)
         == Queues.Settle(q[0], q[1..], k.Capacity(c), call.front + [call.batch])
  {
    var cs, ms := Consumers(states, c), Mains(states);
    RunConsumer(k, states, actions, c);
    RunFits(k, c, cs, ms, actions, i);
    DuringCall(k, c, cs, ms, actions, i, m);
    assert ConsumerLink(k, c, cs[m], ms[m], actions[m], cs[m + 1]);
    LastLook(k, c, cs[m], ms[m], cs[m + 1], Record(cs, ms, actions, i, m, c));
  }

  lemma LastLook(k: Config, c: nat, con: Consumer, m: Main, con': Consumer, call: Call)
    requires ConsumerLink(k, c, con, m, Consume(c, Look), con') && InCall(con) && CallOk(k, con, c, call) && con'.pc.Using?
    ensures Queues.Outcome(con'.pc.b, call.dropped, con'.queue)
      == Queues.Settle(call.start[0], call.start[1..], k.Capacity(c), call.front + [call.batch])
  {
    Queues.Stop(con.pc.b, call.rest, k.Capacity(c), [call.batch], call.dropped);
  }
}
