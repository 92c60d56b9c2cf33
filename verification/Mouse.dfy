/** The rate-limited mouse of the web client. */
module RateLimiting {
  import opened Common

  /** What can happen to the limiter; `Fire` is its timeout running out. */
  datatype Input<E> = High(event: E) | Low(event: E) | Fire

  /** The limiter and the events it has handed to its send function so far. */
  datatype Limiter<E> = Limiter(queued: Option<E>, timer: bool, sent: seq<E>)

  function Step<E>(m: Limiter<E>, x: Input<E>): Limiter<E> {
    match x
    case High(e) => Limiter(None, true, m.sent + [e])
    case Low(e) => if m.timer then m.(queued := Some(e)) else Limiter(m.queued, true, m.sent + [e])
    case Fire =>
      // a cleared timeout never fires
      if !m.timer then m
      else if m.queued.Some? then Limiter(None, true, m.sent + [m.queued.value])
      else m.(timer := false)
  }

  function Run<E>(xs: seq<Input<E>>): Limiter<E> {
    if xs == [] then Limiter(None, false, [])
    else Step(Run(xs[..|xs| - 1]), xs[|xs| - 1])
  }

  /** The mouse events among the inputs. */
  function Events<E>(xs: seq<Input<E>>): (r: seq<Input<E>>)
    ensures forall i | 0 <= i < |r| :: !r[i].Fire?
  {
    if xs == [] then []
    else Events(xs[..|xs| - 1]) + if xs[|xs| - 1].Fire? then [] else [xs[|xs| - 1]]
  }

  ghost predicate Increasing(pos: seq<nat>, bound: nat) {
    && (forall i, j | 0 <= i < j < |pos| :: pos[i] < pos[j])
    && (forall i | 0 <= i < |pos| :: pos[i] < bound)
  }

  /** `pos` says which of the events were sent. */
  ghost predicate Explains<E>(sent: seq<E>, es: seq<Input<E>>, pos: seq<nat>) {
    && (forall i | 0 <= i < |es| :: !es[i].Fire?)
    && |pos| == |sent| && Increasing(pos, |es|)
    && (forall i | 0 <= i < |pos| :: sent[i] == es[pos[i]].event)
    && (forall k | 0 <= k < |es| && es[k].High? :: k in pos)
  }

  /** The latest event is the last one sent, or it waits for a timeout that is under way. */
  ghost predicate Latest<E>(m: Limiter<E>, es: seq<Input<E>>, pos: seq<nat>) {
    && (m.timer ==> pos != [])
    && match m.queued
    case None => (es == [] && pos == []) || (es != [] && pos != [] && pos[|pos| - 1] == |es| - 1)
    case Some(e) =>
      && m.timer && es != [] && es[|es| - 1] == Low(e)
      && pos != [] && pos[|pos| - 1] < |es| - 1
  }

  /** Sending event number k, which comes after everything sent before. */
  lemma Sent<E>(sent: seq<E>, es: seq<Input<E>>, pos: seq<nat>, k: nat)
    requires Explains(sent, es, pos)
    requires k < |es| && (pos != [] ==> pos[|pos| - 1] < k)
    ensures Explains(sent + [es[k].event], es, pos + [k])
  {
    forall h | 0 <= h < |es| && es[h].High?
      ensures h in pos + [k]
    {
      assert h in pos;
    }
  }

  /** A new event that is not a high-priority one is explained by not being sent. */
  lemma Arrives<E>(sent: seq<E>, es: seq<Input<E>>, pos: seq<nat>, x: Input<E>)
    requires Explains(sent, es, pos) && x.Low?
    ensures Explains(sent, es + [x], pos)
  {
  }

  lemma ArrivesHigh<E>(sent: seq<E>, es: seq<Input<E>>, pos: seq<nat>, x: Input<E>)
    requires Explains(sent, es, pos) && !x.Fire?
    ensures Explains(sent + [x.event], es + [x], pos + [|es|])
  {
    forall h | 0 <= h < |es + [x]| && (es + [x])[h].High?
      ensures h in pos + [|es|]
    {
      if h < |es| {
        assert es[h].High? && h in pos;
      } else {
        assert (pos + [|es|])[|pos|] == h;
      }
    }
  }

  lemma FireInOrder<E>(m: Limiter<E>, es: seq<Input<E>>, pos: seq<nat>) returns (next: seq<nat>)
    requires Explains(m.sent, es, pos) && Latest(m, es, pos)
    ensures Explains(Step(m, Fire).sent, es, next) && Latest(Step(m, Fire), es, next)
  {
    if m.timer && m.queued.Some? {
      Sent(m.sent, es, pos, |es| - 1);
      return pos + [|es| - 1];
    }
    return pos;
  }

  lemma LowInOrder<E>(m: Limiter<E>, es: seq<Input<E>>, pos: seq<nat>, x: Input<E>) returns (next: seq<nat>)
    requires Explains(m.sent, es, pos) && Latest(m, es, pos) && x.Low?
    ensures Explains(Step(m, x).sent, es + [x], next) && Latest(Step(m, x), es + [x], next)
  {
    if m.timer {
      Arrives(m.sent, es, pos, x);
      return pos;
    }
    ArrivesHigh(m.sent, es, pos, x);
    return pos + [|es|];
  }

  lemma StepInOrder<E>(m: Limiter<E>, es: seq<Input<E>>, pos: seq<nat>, x: Input<E>) returns (next: seq<nat>)
    requires Explains(m.sent, es, pos) && Latest(m, es, pos)
    ensures var es' := if x.Fire? then es else es + [x];
      Explains(Step(m, x).sent, es', next) && Latest(Step(m, x), es', next)
  {
    match x
    case Fire => next := FireInOrder(m, es, pos);
    case Low(_) => next := LowInOrder(m, es, pos, x);
    case High(_) =>
      ArrivesHigh(m.sent, es, pos, x);
      next := pos + [|es|];
  }

  /**
   For every interleaving of events and timeouts: what was sent is an in-order selection of
   the events that contains every high-priority one, and the latest event is either the last
   one sent or the queued one, for which a timeout is running.
   */
  lemma {:induction false} SentInOrder<E>(xs: seq<Input<E>>) returns (pos: seq<nat>)
    ensures Explains(Run(xs).sent, Events(xs), pos)
    ensures Latest(Run(xs), Events(xs), pos)
  {
    if xs == [] {
      return [];
    }
    var front, x := xs[..|xs| - 1], xs[|xs| - 1];
    pos := SentInOrder(front);
    assert Events(xs) == if x.Fire? then Events(front) else Events(front) + [x];
    pos := StepInOrder(Run(front), Events(front), pos, x);
  }

  /** Input i made the limiter send something. */
  ghost predicate Sends<E>(xs: seq<Input<E>>, i: nat)
    requires i < |xs|
  {
    |Run(xs[..i + 1]).sent| > |Run(xs[..i]).sent|
  }

  lemma OneStep<E>(xs: seq<Input<E>>, i: nat)
    requires i < |xs|
    ensures Run(xs[..i + 1]) == Step(Run(xs[..i]), xs[i])
  {
    assert xs[..i + 1][..i] == xs[..i];
  }

  /** After a send, the window stays open until a timeout. */
  lemma {:induction false} WindowOpen<E>(xs: seq<Input<E>>, i: nat, j: nat)
    requires i < j <= |xs| && Sends(xs, i) && forall k | i < k < j :: !xs[k].Fire?
    ensures Run(xs[..j]).timer
    decreases j
  {
    OneStep(xs, j - 1);
    if j > i + 1 {
      WindowOpen(xs, i, j - 1);
    }
  }

  /** No low-priority event is sent on arrival unless a timeout ran out since the last send. */
  lemma Spaced<E>(xs: seq<Input<E>>, i: nat, j: nat)
    requires i < j < |xs| && Sends(xs, i) && Sends(xs, j) && xs[j].Low?
    ensures exists k :: i < k < j && xs[k].Fire?
  {
    OneStep(xs, j);
    if forall k | i < k < j :: !xs[k].Fire? {
      WindowOpen(xs, i, j);
    }
  }

  /** A high-priority event is sent at once, whatever was queued. */
  lemma HighAtOnce<E>(xs: seq<Input<E>>, i: nat)
    requires i < |xs| && xs[i].High?
    ensures Sends(xs, i) && Run(xs[..i + 1]).sent == Run(xs[..i]).sent + [xs[i].event] && Run(xs[..i + 1]).queued == None
  {
    OneStep(xs, i);
  }

  function Highs<E>(xs: seq<Input<E>>): nat {
    if xs == [] then 0 else Highs(xs[..|xs| - 1]) + if xs[|xs| - 1].High? then 1 else 0
  }

  function Fires<E>(xs: seq<Input<E>>): nat {
    if xs == [] then 0 else Fires(xs[..|xs| - 1]) + if xs[|xs| - 1].Fire? then 1 else 0
  }

  /** The limit: apart from high-priority events, at most one event per timeout, plus the first. */
  lemma {:induction false} RateLimited<E>(xs: seq<Input<E>>)
    ensures var m := Run(xs); |m.sent| <= Highs(xs) + Fires(xs) + if m.timer then 1 else 0
  {
    if xs != [] {
      RateLimited(xs[..|xs| - 1]);
    }
  }

  /** One timeout after the last event, nothing is left unsent; after two, the window is shut. */
  lemma TimeoutDrains<E>(xs: seq<Input<E>>) returns (pos: seq<nat>)
    ensures var m, es := Run(xs + [Fire]), Events(xs);
      && m.queued.None? && Explains(m.sent, es, pos)
      && (es != [] ==> pos != [] && pos[|pos| - 1] == |es| - 1)
    ensures !Run(xs + [Fire] + [Fire]).timer
  {
    pos := SentInOrder(xs + [Fire]);
    assert (xs + [Fire])[..|xs|] == xs;
    assert (xs + [Fire] + [Fire])[..|xs| + 1] == xs + [Fire];
    var before := SentInOrder(xs);
  }

  /** The object: `queued` and `timer` as in the source, `sent` what the send function got. */
  class RateLimitedMouse<E> {
    var queued: Option<E>
    var timer: bool
    var sent: seq<E>

    ghost function State(): (m: Limiter<E>)
      reads this
    {
      Limiter(queued, timer, sent)
    }

    constructor ()
      ensures State() == Run([])
    {
      queued, timer, sent := None, false, [];
    }

    method ProcessHighPriority(e: E)
      modifies this
      ensures State() == Step(old(State()), High(e))
    {
      queued := None;
      Emit(e);
    }

    method ProcessLowPriority(e: E)
      modifies this
      ensures State() == Step(old(State()), Low(e))
    {
      if timer {
        queued := Some(e);
      } else {
        Emit(e);
      }
    }

    method Emit(e: E)
      modifies this`sent, this`timer
      ensures sent == old(sent) + [e] && timer
    {
      sent := sent + [e];
      timer := false;
      timer := true;
    }

    /** The callback of the running timeout. */
    method OnTimeout()
      requires timer
      modifies this
      ensures State() == Step(old(State()), Fire)
    {
      timer := false;
      if queued.Some? {
        Emit(queued.value);
      }
      queued := None;
    }
  }
}
