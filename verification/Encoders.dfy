/** The encoder workers of a capture session: a buffer is given up only after a worker is done with it. */
module EncoderJobs {
  import opened Common
  import opened CaptureSession
  import opened Delivery

  /** What an action of the session does to the job and the has_job flag of worker w. */
  ghost predicate JobLink(s: State, a: Action, s': State, w: nat)
    requires w < |s.jobs| == |s.busy| == |s'.jobs| == |s'.busy| && |s.cons| == 3
  {
    if a == Pool(Collect(w)) then !s.busy[w] && s'.busy[w] == s.busy[w] && s'.jobs[w] == None
    else if a == Pool(JobDone(w)) then s.busy[w] && !s'.busy[w] && s'.jobs[w] == s.jobs[w]
    else if a == Pool(Assign) && s.current == Some(w) then
      s.cons[JPEG].pc.Using? && s'.busy[w] && s'.jobs[w] == Some(s.cons[JPEG].pc.b)
    else s'.busy[w] == s.busy[w] && s'.jobs[w] == s.jobs[w]
  }

  lemma StepJob(k: Config, s: State, a: Action, w: nat)
    requires Shape(k, s) && Bounded(k, s) && Enabled(k, s, a) && w < k.nWorkers
    ensures |Step(k, s, a).jobs| == |Step(k, s, a).busy| == k.nWorkers && JobLink(s, a, Step(k, s, a), w)
  {
    match a
    case Main(m) =>
    case Consume(c, t) =>
    case Pool(p) =>
    case Release(i, r) =>
  }

  ghost predicate AssignedAt(states: seq<State>, actions: seq<Action>, h: nat, w: nat, b: nat)
    requires |states| == |actions| + 1 && h < |actions|
  {
    actions[h] == Pool(Assign) && states[h].current == Some(w) && |states[h].cons| == 3 && states[h].cons[JPEG].pc == Using(b)
  }

  /** Worker w answered at some point between h and i. */
  ghost predicate AnsweredSince(actions: seq<Action>, h: nat, i: nat, w: nat)
    requires i <= |actions|
  {
    exists j | h < j < i :: actions[j] == Pool(JobDone(w))
  }

  /** Where the job of worker w comes from; it is still being worked on, or it was answered. */
  ghost predicate JobKnown(states: seq<State>, actions: seq<Action>, i: nat, w: nat)
    requires i < |states| == |actions| + 1 && w < |states[i].jobs| == |states[i].busy|
  {
    states[i].jobs[w].Some? ==>
      exists h | 0 <= h < i ::
        AssignedAt(states, actions, h, w, states[i].jobs[w].value) && (states[i].busy[w] || AnsweredSince(actions, h, i, w))
  }

  lemma StepKnown(states: seq<State>, actions: seq<Action>, i: nat, w: nat)
    requires i < |actions| && |states| == |actions| + 1 && |states[i].cons| == 3
    requires w < |states[i].jobs| == |states[i].busy| == |states[i + 1].jobs| == |states[i + 1].busy|
    requires JobKnown(states, actions, i, w) && JobLink(states[i], actions[i], states[i + 1], w)
    ensures JobKnown(states, actions, i + 1, w)
  {
    if actions[i] == Pool(Assign) && states[i].current == Some(w) {
      assert AssignedAt(states, actions, i, w, states[i].cons[JPEG].pc.b);
    } else if states[i + 1].jobs[w].Some? {
      var h :| 0 <= h < i && AssignedAt(states, actions, h, w, states[i].jobs[w].value)
        && (states[i].busy[w] || AnsweredSince(actions, h, i, w));
      assert states[i + 1].busy[w] || AnsweredSince(actions, h, i + 1, w);
    }
  }

  lemma {:induction false} RunKnown(k: Config, states: seq<State>, actions: seq<Action>, i: nat, w: nat)
    requires IsRun(k, states, actions) && i < |states| && w < k.nWorkers
    ensures |states[i].jobs| == |states[i].busy| == k.nWorkers && JobKnown(states, actions, i, w)
  {
    if i > 0 {
      RunKnown(k, states, actions, i - 1, w);
      assert Link(k, states[i - 1], actions[i - 1], states[i]);
      StepJob(k, states[i - 1], actions[i - 1], w);
      StepKnown(states, actions, i - 1, w);
    }
  }

  /** The dispatcher gives up the buffer of a job only after the worker it was assigned to has answered for it. */
  lemma EncodedBeforeGivenUp(k: Config, states: seq<State>, actions: seq<Action>, i: nat, w: nat)
      returns (h: nat, j: nat)
    requires IsRun(k, states, actions) && i < |actions| && w < k.nWorkers
    requires actions[i] == Pool(Collect(w)) && |states[i].jobs| == k.nWorkers && states[i].jobs[w].Some?
    ensures h < j < i && |states[h].cons| == 3
    ensures actions[h] == Pool(Assign) && states[h].current == Some(w) && states[h].cons[JPEG].pc == Using(states[i].jobs[w].value)
    ensures actions[j] == Pool(JobDone(w))
  {
    RunKnown(k, states, actions, i, w);
    assert Link(k, states[i], actions[i], states[i + 1]);
    StepJob(k, states[i], actions[i], w);
    h :| 0 <= h < i && AssignedAt(states, actions, h, w, states[i].jobs[w].value)
      && (states[i].busy[w] || AnsweredSince(actions, h, i, w));
    j :| h < j < i && actions[j] == Pool(JobDone(w));
  }
}
