/**
 Key frame requests: a client asks for a key frame in the sink, the server learns of it from
 its puts and forces the H.264 encoder.
 */
module KeyFrameRequests {
  import opened Common
  import opened Frames
  import opened MemorySink

  /** One call of _stream_encode_expose_h264 with what its environment answers. */
  datatype Encode = Encode(
    decoded: bool,             // false: the source was JPEG and could not be decoded
    force: bool,               // the caller's force_key
    output: Option<Image>,     // None: the compressor failed
    locked: bool,              // the sink could be locked
    id: bv64)

  /** The sink and the server's h264_key_requested. */
  datatype Pipe = Pipe(mem: Mem, flag: bool)

  datatype Event = Server(e: Encode) | Client(lastId: bv64, keyRequired: bool, now: real)

  predicate Forced(p: Pipe, e: Encode) {
    e.force || p.flag
  }

  /** The encode reaches the sink and the put is not refused. */
  predicate Publishes(p: Pipe, e: Encode) {
    e.decoded && e.output.Some? && |e.output.value.data| <= |p.mem.data| && e.locked
  }

  predicate PublishesKey(p: Pipe, ev: Event) {
    ev.Server? && Publishes(p, ev.e) && ev.e.output.value.meta.key
  }

  function EncodeStep(p: Pipe, e: Encode): Pipe {
    if !e.decoded then p
    else if !Publishes(p, e) then Pipe(p.mem, false)
    else
      var mem := PutMem(p.mem, e.output.value, e.id);
      Pipe(mem, mem.keyRequested)
  }

  function Step(p: Pipe, ev: Event): Pipe
    requires p.mem.used <= |p.mem.data|
  {
    match ev
    case Server(e) => EncodeStep(p, e)
    case Client(lastId, keyRequired, now) => p.(mem := GetMem(p.mem, lastId, keyRequired, now))
  }

  ghost predicate IsRun(ps: seq<Pipe>, evs: seq<Event>) {
    && |ps| == |evs| + 1
    && ps[0].mem.used <= |ps[0].mem.data| && !ps[0].flag
    && forall i | 0 <= i < |evs| :: ps[i].mem.used <= |ps[i].mem.data| && ps[i + 1] == Step(ps[i], evs[i])
  }

  /** The event is an encode whose source could be decoded, so that the compressor is called. */
  predicate Reaches(ev: Event) {
    ev.Server? && ev.e.decoded
  }

  /** The last of the first i events that reached the compressor. */
  function LastReach(evs: seq<Event>, i: nat): (r: Option<nat>)
    requires i <= |evs|
    ensures r.Some? ==> r.value < i && Reaches(evs[r.value])
    ensures forall k | (if r.Some? then r.value < k else 0 <= k) && k < i :: !Reaches(evs[k])
  {
    if i == 0 then None
    else if Reaches(evs[i - 1]) then Some(i - 1)
    else LastReach(evs, i - 1)
  }

  /** Event j published its frame, and the request was still in the sink afterwards. */
  ghost predicate ReportedPending(ps: seq<Pipe>, evs: seq<Event>, j: nat)
    requires |ps| == |evs| + 1 && j < |evs|
  {
    evs[j].Server? && Publishes(ps[j], evs[j].e) && ps[j + 1].mem.keyRequested
  }

  /** The server's flag, in terms of what happened to the frames and to the sink. */
  lemma {:induction false} FlagHistory(ps: seq<Pipe>, evs: seq<Event>, i: nat)
    requires IsRun(ps, evs) && i <= |evs|
    ensures ps[i].flag <==> LastReach(evs, i).Some? && ReportedPending(ps, evs, LastReach(evs, i).value)
  {
    if i > 0 {
      FlagHistory(ps, evs, i - 1);
      assert ps[i] == Step(ps[i - 1], evs[i - 1]);
    }
  }

  /**
   When is the compressor forced?  Exactly when the caller asks for it, or the encode before it
   that reached the compressor was published, and left a request pending in the sink.
   */
  lemma ForcedIff(ps: seq<Pipe>, evs: seq<Event>, i: nat)
    requires IsRun(ps, evs) && i < |evs| && Reaches(evs[i])
    ensures Forced(ps[i], evs[i].e)
       <==> evs[i].e.force || (LastReach(evs, i).Some? && ReportedPending(ps, evs, LastReach(evs, i).value))
  {
    FlagHistory(ps, evs, i);
  }

  /** A request stays in the sink until a key frame is put, over any run. */
  lemma {:induction false} RequestStays(ps: seq<Pipe>, evs: seq<Event>, i: nat, j: nat)
    requires IsRun(ps, evs) && i <= j < |ps| && ps[i].mem.keyRequested
    requires forall k | i <= k < j :: !PublishesKey(ps[k], evs[k])
    ensures ps[j].mem.keyRequested
    decreases j - i
  {
    if i < j {
      assert ps[i + 1] == Step(ps[i], evs[i]) && !PublishesKey(ps[i], evs[i]);
      RequestStays(ps, evs, i + 1, j);
    }
  }

  /** A client that finds a frame asks for a key frame. */
  predicate Asks(p: Pipe, ev: Event)
    requires p.mem.used <= |p.mem.data|
  {
    ev.Client? && ev.keyRequired && GetOutcome(p.mem, ev.lastId).Got?
  }

  /** No key frame was published by the events from i on, up to j. */
  ghost predicate NoKey(ps: seq<Pipe>, evs: seq<Event>, i: nat, j: nat)
    requires j <= |evs| < |ps|
  {
    forall k | i <= k < j :: !PublishesKey(ps[k], evs[k])
  }

  ghost predicate AskedSince(ps: seq<Pipe>, evs: seq<Event>, i: nat)
    requires i <= |evs| < |ps| && forall k | 0 <= k < |evs| :: ps[k].mem.used <= |ps[k].mem.data|
  {
    exists j | 0 <= j < i :: Asks(ps[j], evs[j]) && NoKey(ps, evs, j + 1, i)
  }

  /** A request is pending exactly when somebody asked, or had asked at first, and no key frame was published since. */
  lemma {:induction false} PendingIff(ps: seq<Pipe>, evs: seq<Event>, i: nat)
    requires IsRun(ps, evs) && i <= |evs|
    ensures ps[i].mem.keyRequested <==> (ps[0].mem.keyRequested && NoKey(ps, evs, 0, i)) || AskedSince(ps, evs, i)
  {
    if i > 0 {
      PendingIff(ps, evs, i - 1);
      var p, ev := ps[i - 1], evs[i - 1];
      assert ps[i] == Step(p, ev);
      if Asks(p, ev) {
        assert NoKey(ps, evs, i, i);
      } else if PublishesKey(p, ev) {
        assert !AskedSince(ps, evs, i);
      } else {
        SameAsked(ps, evs, i);
      }
    }
  }

  lemma SameAsked(ps: seq<Pipe>, evs: seq<Event>, i: nat)
    requires 0 < i <= |evs| < |ps| && forall k | 0 <= k < |evs| :: ps[k].mem.used <= |ps[k].mem.data|
    requires !Asks(ps[i - 1], evs[i - 1]) && !PublishesKey(ps[i - 1], evs[i - 1])
    ensures AskedSince(ps, evs, i) <==> AskedSince(ps, evs, i - 1)
    ensures NoKey(ps, evs, 0, i) <==> NoKey(ps, evs, 0, i - 1)
  {
    if j :| 0 <= j < i - 1 && Asks(ps[j], evs[j]) && NoKey(ps, evs, j + 1, i - 1) {
      assert NoKey(ps, evs, j + 1, i);
    }
    if j :| 0 <= j < i && Asks(ps[j], evs[j]) && NoKey(ps, evs, j + 1, i) {
      assert NoKey(ps, evs, j + 1, i - 1);
    }
  }

  /** Neither clients nor sources that fail to decode touch the server's flag. */
  ghost predicate Quiet(ev: Event) {
    ev.Client? || !ev.e.decoded
  }

  lemma {:induction false} FlagStays(ps: seq<Pipe>, evs: seq<Event>, i: nat, j: nat)
    requires IsRun(ps, evs) && i <= j < |ps|
    requires forall k | i <= k < j :: Quiet(evs[k])
    ensures ps[j].flag == ps[i].flag
    decreases j - i
  {
    if i < j {
      assert ps[i + 1] == Step(ps[i], evs[i]) && Quiet(evs[i]);
      FlagStays(ps, evs, i + 1, j);
    }
  }

  /**
   A request is never lost: while it is pending every put that goes through without a key
   frame reports it, and the next encode that reaches the compressor, however many clients
   read or sources fail to decode in between, is forced.
   */
  lemma RequestForcesNext(ps: seq<Pipe>, evs: seq<Event>, i: nat, j: nat, k: nat)
    requires IsRun(ps, evs) && i <= j < k < |evs| && ps[i].mem.keyRequested
    requires forall m | i <= m <= j :: !PublishesKey(ps[m], evs[m])
    requires evs[j].Server? && Publishes(ps[j], evs[j].e)
    requires forall m | j < m < k :: Quiet(evs[m])
    requires evs[k].Server? && evs[k].e.decoded
    ensures ps[j + 1].mem.keyRequested && ps[j + 1].flag
    ensures Forced(ps[k], evs[k].e)
  {
    RequestStays(ps, evs, i, j);
    assert ps[j + 1] == Step(ps[j], evs[j]) && !PublishesKey(ps[j], evs[j]);
    FlagStays(ps, evs, j + 1, k);
  }

  /** If the encoder honours the force flag, two published encodes in a row answer the request. */
  lemma TwoEncodesAnswer(ps: seq<Pipe>, evs: seq<Event>, i: nat, j: nat, k: nat)
    requires IsRun(ps, evs) && i <= j < k < |evs| && ps[i].mem.keyRequested
    requires evs[j].Server? && Publishes(ps[j], evs[j].e)
    requires forall m | j < m < k :: Quiet(evs[m])
    requires evs[k].Server? && Publishes(ps[k], evs[k].e)
    requires Forced(ps[k], evs[k].e) ==> evs[k].e.output.value.meta.key
    ensures exists m :: i <= m <= k && PublishesKey(ps[m], evs[m])
  {
    if forall m | i <= m <= j :: !PublishesKey(ps[m], evs[m]) {
      RequestForcesNext(ps, evs, i, j, k);
      assert PublishesKey(ps[k], evs[k]);
    }
  }

  /**
   The request is not always served by the very next encode: the flag is cleared before the
   compressor runs, so after a failed forced encode the next one is not forced although the
   request is still pending.
   */
  lemma FailedCompressionForgets(ps: seq<Pipe>, evs: seq<Event>, j: nat, k: nat)
    requires IsRun(ps, evs) && j < k < |evs| && ps[j].mem.keyRequested
    requires Reaches(evs[j]) && !Publishes(ps[j], evs[j].e)
    requires forall m | j < m < k :: Quiet(evs[m])
    requires Reaches(evs[k]) && !evs[k].e.force
    ensures ps[k].mem.keyRequested && !Forced(ps[k], evs[k].e)
  {
    assert forall m | j <= m < k :: !PublishesKey(ps[m], evs[m]);
    RequestStays(ps, evs, j, k);
    assert ps[j + 1] == Step(ps[j], evs[j]);
    FlagStays(ps, evs, j + 1, k);
  }

  /**
   Such a run from any sink: a frame is published, a client asks for a key frame, the next
   frame goes out without one, the forced compression fails, and the encode after it is not
   forced while the request still waits.
   */
  lemma ForgottenRequest(mem: Mem, meta: Meta) returns (ps: seq<Pipe>, evs: seq<Event>)
    requires mem.used <= |mem.data| && !meta.key
    ensures IsRun(ps, evs) && |evs| == 5 && ps[0].mem == mem
    ensures Reaches(evs[3]) && Forced(ps[3], evs[3].e) && evs[3].e.output.None?
    ensures Reaches(evs[4]) && !Forced(ps[4], evs[4].e) && ps[4].mem.keyRequested
  {
    var frame := Some(Image([], meta));
    evs := [
      Server(Encode(true, false, frame, true, 1)),
      Client(0, true, 0.0),
      Server(Encode(true, false, frame, true, 2)),
      Server(Encode(true, false, None, true, 3)),
      Server(Encode(true, false, frame, true, 4))];
    var p0 := Pipe(mem, false);
    var p1 := Step(p0, evs[0]);
    var p2 := Step(p1, evs[1]);
    var p3 := Step(p2, evs[2]);
    var p4 := Step(p3, evs[3]);
    ps := [p0, p1, p2, p3, p4, Step(p4, evs[4])];
  }
}
