/** us_capture_hwbuf_grab against a script of what the device answers. */
module Grabbing {
  import opened Common

  /**
   One answer to VIDIOC_DQBUF: a buffer with a valid or a broken frame, together with whether
   the QBUF call it leads to succeeds; or an ioctl failure.  The end of the script is EAGAIN.
   */
  datatype Answer = Buffer(index: nat, intact: bool, requeues: bool) | IoctlError

  datatype Result = Got(index: nat) | NoData | Failed

  /** The frame the caller should see: the last intact one. */
  function LastIntact(script: seq<Answer>): Option<nat> {
    if script == [] then None
    else
      var a := script[|script| - 1];
      if a.Buffer? && a.intact then Some(a.index) else LastIntact(script[..|script| - 1])
  }

  /** What ends a round, with `got` held and the flags as they were when the call began. */
  predicate Fails(a: Answer, got: Option<nat>, grabbed: seq<bool>) {
    || a.IoctlError?
    || a.index >= |grabbed|
    || grabbed[a.index] || got == Some(a.index)             // "already used"
    || (!a.requeues && (!a.intact || got.Some?))            // a buffer has to go back and cannot
  }

  /** No round of the call fails. */
  predicate Works(script: seq<Answer>, grabbed: seq<bool>) {
    script == [] ||
    var front := script[..|script| - 1];
    Works(front, grabbed) && !Fails(script[|script| - 1], LastIntact(front), grabbed)
  }

  /** A device without failures that hands out real buffers the session does not have never makes a call fail. */
  lemma {:induction false} CleanWorks(script: seq<Answer>, grabbed: seq<bool>)
    requires forall k | 0 <= k < |script| ::
      && script[k].Buffer? && script[k].requeues && script[k].index < |grabbed|
      && !grabbed[script[k].index] && Some(script[k].index) != LastIntact(script[..k])
    ensures Works(script, grabbed)
  {
    if script != [] {
      var front := script[..|script| - 1];
      forall k | 0 <= k < |front|
        ensures Some(front[k].index) != LastIntact(front[..k])
      {
        assert front[..k] == script[..k];
      }
      CleanWorks(front, grabbed);
    }
  }

  lemma {:induction false} WorksPrefix(script: seq<Answer>, grabbed: seq<bool>, k: nat)
    requires k <= |script| && Works(script, grabbed)
    ensures Works(script[..k], grabbed)
  {
    if k < |script| {
      WorksPrefix(script[..|script| - 1], grabbed, k);
      assert script[..|script| - 1][..k] == script[..k];
    } else {
      assert script[..k] == script;
    }
  }

  /** What one more answer means for the call. */
  lemma OneMore(script: seq<Answer>, grabbed: seq<bool>, k: nat)
    requires k < |script| && Works(script[..k], grabbed)
    ensures var a, got := script[k], LastIntact(script[..k]);
      && LastIntact(script[..k + 1]) == (if a.Buffer? && a.intact then Some(a.index) else got)
      && (Fails(a, got, grabbed) ==> !Works(script, grabbed))
      && (!Fails(a, got, grabbed) ==> Works(script[..k + 1], grabbed))
  {
    assert script[..k + 1][..k] == script[..k];
    if Works(script, grabbed) {
      WorksPrefix(script, grabbed, k + 1);
    }
  }

  function Held(got: Option<nat>): set<nat> {
    if got.Some? then {got.value} else {}
  }

  function Taken(a: Answer): set<nat> {
    if a.Buffer? then {a.index} else {}
  }

  lemma AtMostTwo(d: set<nat>, got: Option<nat>, a: Answer)
    ensures d - Held(got) - Taken(a) <= d && |d - (d - Held(got) - Taken(a))| <= 2
  {
    SubsetSize(d - (d - Held(got) - Taken(a)), Held(got) + Taken(a));
  }

  function Marked(grabbed: seq<bool>, got: Option<nat>): seq<bool> {
    if got.Some? && got.value < |grabbed| then grabbed[got.value := true] else grabbed
  }

  /** A buffer that comes back leaves everything as it was before it was taken. */
  lemma Restored(d: set<nat>, held: set<nat>, g: seq<bool>, i: nat)
    requires i in d && i !in held && i < |g| && !g[i]
    ensures d - held - {i} + {i} == d - held && g[i := true][i := false] == g
  {
  }

  /** Of two buffers taken in turn the first one comes back. */
  lemma Exchanged(d: set<nat>, g: seq<bool>, i: nat, j: nat)
    requires i in d && j in d && i != j && i < |g| && j < |g| && !g[j]
    ensures d - {j} - {i} + {j} == d - {i}
    ensures g[j := true][i := true][j := false] == g[i := true]
  {
  }

  class Capture {
    const nBufs: nat
    var grabbed: seq<bool>
    var device: set<nat>     // buffers that are queued at the device

    /** A buffer that is away from the device is flagged; after QBUF the flag may lag behind. */
    ghost predicate Valid()
      reads this
    {
      && |grabbed| == nBufs && device <= Range(nBufs)
      && forall i: nat | i < nBufs && i !in device :: grabbed[i]
    }

    constructor (nBufs: nat)
      ensures Valid() && this.nBufs == nBufs && device == Range(nBufs)
    {
      this.nBufs := nBufs;
      grabbed := seq(nBufs, _ => false);
      device := Range(nBufs);
    }

    /** The state while the loop holds the buffer got. */
    ghost predicate Holding(got: Option<nat>, device0: set<nat>, grabbed0: seq<bool>)
      reads this
    {
      && Valid()
      && |grabbed0| == nBufs && device0 <= Range(nBufs)
      && (forall k: nat | k < nBufs && k !in device0 :: grabbed0[k])
      && (got.Some? ==> got.value in device0 && got.value < nBufs && !grabbed0[got.value])
      && device == device0 - Held(got)
      && grabbed == Marked(grabbed0, got)
    }

    /** The state while buffer i is dequeued besides the held one. */
    ghost predicate HoldingTwo(got: Option<nat>, i: nat, device0: set<nat>, grabbed0: seq<bool>)
      reads this
    {
      && |grabbed0| == nBufs && device0 <= Range(nBufs) && i in device0 && i < nBufs && !grabbed0[i] && got != Some(i)
      && (forall k: nat | k < nBufs && k !in device0 :: grabbed0[k])
      && (got.Some? ==> got.value in device0 && got.value < nBufs && !grabbed0[got.value])
      && device == device0 - Held(got) - {i}
      && grabbed == Marked(grabbed0, got)[i := true]
    }

    /** DQBUF with the checks of its result; a buffer that fails them stays away from the device. */
    method Dequeue(i: nat, ghost got: Option<nat>, ghost device0: set<nat>, ghost grabbed0: seq<bool>) returns (ok: bool)
      requires Holding(got, device0, grabbed0)
      modifies this
      ensures device == device0 - Held(got) - {i}
      ensures ok <==> i < |grabbed0| && !grabbed0[i] && got != Some(i)
      ensures ok ==> HoldingTwo(got, i, device0, grabbed0)
    {
      device := device - {i};
      ok := i < nBufs && !grabbed[i];
      if ok {
        grabbed := grabbed[i := true];
      }
    }

    /** QBUF of a broken buffer: the state is what it was before. */
    method GiveBack(i: nat, ghost got: Option<nat>, ghost device0: set<nat>, ghost grabbed0: seq<bool>)
      requires HoldingTwo(got, i, device0, grabbed0)
      modifies this
      ensures Holding(got, device0, grabbed0)
    {
      device := device + {i};
      grabbed := grabbed[i := false];
      Restored(device0, Held(got), Marked(grabbed0, got), i);
    }

    /** QBUF of the held buffer j when a newer intact one was dequeued. */
    method Exchange(i: nat, j: nat, ghost device0: set<nat>, ghost grabbed0: seq<bool>)
      requires HoldingTwo(Some(j), i, device0, grabbed0)
      modifies this
      ensures Holding(Some(i), device0, grabbed0)
    {
      device := device + {j};
      grabbed := grabbed[j := false];
      Exchanged(device0, grabbed0, i, j);
    }

    /**
     One round of the loop: the dequeued buffer replaces the held one if it is intact and goes
     back if it is broken.  A round that fails leaves the dequeued buffer away from the device.
     */
    method Round(a: Answer, got: Option<nat>, ghost device0: set<nat>, ghost grabbed0: seq<bool>)
        returns (ok: bool, now: Option<nat>)
      requires Holding(got, device0, grabbed0)
      modifies this
      ensures ok <==> !Fails(a, got, grabbed0)
      ensures ok ==> Holding(now, device0, grabbed0) && now == if a.intact then Some(a.index) else got
      ensures !ok ==> device == device0 - Held(got) - Taken(a)
    {
      now := got;
      if a.IoctlError? {
        return false, now;
      }
      ok := Dequeue(a.index, got, device0, grabbed0);
      if !ok {
        return;
      }
      if !a.intact {
        if !a.requeues {
          return false, now;
        }
        GiveBack(a.index, got, device0, grabbed0);
      } else {
        if got.Some? {
          if !a.requeues {
            return false, now;
          }
          Exchange(a.index, got.value, device0, grabbed0);
        }
        now := Some(a.index);
      }
    }

    /**
     Whatever the device answers, a successful call takes exactly one buffer, a call without
     data takes none and a failing one loses at most two.  It fails exactly when a round does
     or nothing was there; otherwise the buffer is the last intact one, if there is one.
     */
    method Grab(script: seq<Answer>) returns (r: Result)
      requires Valid()
      modifies this
      ensures r.Got? ==>
        && r.index in old(device) && device == old(device) - {r.index}
        && Valid() && grabbed == old(grabbed)[r.index := true]
      ensures r.NoData? ==> device == old(device) && grabbed == old(grabbed)
      ensures r.Failed? ==> device <= old(device) && |old(device) - device| <= 2
      ensures r ==
        if !Works(script, old(grabbed)) || script == [] then Failed
        else match LastIntact(script)
          case Some(i) => Got(i)
          case None => NoData
    {
      var got: Option<nat>, broken := None, false;
      for pos := 0 to |script|
        invariant Holding(got, old(device), old(grabbed)) && got == LastIntact(script[..pos])
        invariant got.None? ==> (broken <==> pos > 0)
        invariant Works(script[..pos], old(grabbed))
      {
        OneMore(script, old(grabbed), pos);
        var ok, now := Round(script[pos], got, old(device), old(grabbed));
        if !ok {
          AtMostTwo(old(device), got, script[pos]);
          return Failed;
        }
        got, broken := now, !script[pos].intact;
      }
      assert script[..|script|] == script;
      if got.Some? {
        return Got(got.value);
      }
      return if broken then NoData else Failed;
    }
  }
}
