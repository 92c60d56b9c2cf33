/**
 The H.264 RTP packetiser: Annex B splitting, single NAL unit and FU-A packets and the RTP
 header, against a depacketiser written from sections 5.6 and 5.8 of RFC 6184 and a header
 reader written from section 5.1 of RFC 3550.

 Bytes are integers below 256.  Where the code joins bit fields with `|`, the fields do not
 overlap and the model adds them; the Bits lemmas justify every such sum on bit-vectors.
 */
module RtpVideo {
  import opened Common

  type Bytes = seq<Byte>
  type U32 = x: int | 0 <= x < 0x1_0000_0000
  type U16 = x: int | 0 <= x < 0x1_0000

  const HEADER_SIZE := 12
  const DATAGRAM_SIZE := 1200
  const FU_OVERHEAD := HEADER_SIZE + 2
  const FRAGMENT_SIZE := DATAGRAM_SIZE - FU_OVERHEAD
  const PRE := 3

  // ---------------------------------------------------------------- the RTP header

  lemma BitsOfWord0(payload: bv32, sn: bv32)
    requires sn <= 0xFFFF
    ensures (0x80000000 | (1 << 23)) | ((payload & 0x7F) << 16) | sn == 0x80800000 + (payload & 0x7F) * 0x10000 + sn
    ensures 0x80000000 | ((payload & 0x7F) << 16) | sn == 0x80000000 + (payload & 0x7F) * 0x10000 + sn
  {
  }

  lemma BitsOfFu(head: bv8)
    ensures 28 | (((head >> 5) & 3) << 5) == 28 + ((head >> 5) & 3) * 32
    ensures ((head & 0x1F) | 0x80) | 0x40 == (head & 0x1F) + 0xC0
    ensures (head & 0x1F) | 0x80 == (head & 0x1F) + 0x80 && (head & 0x1F) | 0x40 == (head & 0x1F) + 0x40
    ensures (head >> 5) & 3 == (head / 32) % 4 && head & 0x1F == head % 32
  {
  }

  function BigEndian(w: U32): (r: Bytes)
    ensures |r| == 4
  {
    var w1 := w / 256;
    var w2 := w1 / 256;
    [w2 / 256, w2 % 256, w1 % 256, w % 256]
  }

  /** The fields of the stream that do not change from packet to packet. */
  datatype Stream = Stream(payload: U32, ssrc: U32)

  function Word0(st: Stream, sn: U16, marked: bool): U32 {
    0x8000_0000 + (if marked then 0x80_0000 else 0) + st.payload % 128 * 0x1_0000 + sn
  }

  /** What one call of the callback hands out. */
  datatype Packet = Packet(sn: U16, pts: U32, marked: bool, body: Bytes)

  function Header(st: Stream, p: Packet): (r: Bytes)
    ensures |r| == HEADER_SIZE
  {
    BigEndian(Word0(st, p.sn, p.marked)) + BigEndian(p.pts) + BigEndian(st.ssrc)
  }

  function Datagram(st: Stream, p: Packet): Bytes {
    Header(st, p) + p.body
  }

  function Wire(st: Stream, ps: seq<Packet>): (r: seq<Bytes>)
    ensures |r| == |ps|
    ensures forall i | 0 <= i < |ps| :: r[i] == Datagram(st, ps[i])
  {
    seq(|ps|, i requires 0 <= i < |ps| => Datagram(st, ps[i]))
  }

  // Section 5.1 of RFC 3550

  function ReadWord(d: Bytes, i: nat): int
    requires i + 4 <= |d|
  {
    (((d[i] as int) * 256 + d[i + 1]) * 256 + d[i + 2]) * 256 + d[i + 3]
  }

  datatype Fields = Fields(version: int, marker: bool, payloadType: int, sn: int, timestamp: int, ssrc: int)

  function ReadHeader(d: Bytes): Fields
    requires |d| >= HEADER_SIZE
  {
    Fields(d[0] / 64, d[1] >= 128, d[1] % 128, (d[2] as int) * 256 + d[3], ReadWord(d, 4), ReadWord(d, 8))
  }

  lemma WordRoundTrip(w: U32)
    ensures ReadWord(BigEndian(w), 0) == w
  {
  }

  lemma Word0Fields(st: Stream, sn: U16, marked: bool)
    ensures var b := BigEndian(Word0(st, sn, marked));
      && b[0] / 64 == 2 && (b[1] >= 128 <==> marked) && b[1] % 128 == st.payload % 128
      && (b[2] as int) * 256 + b[3] == sn
  {
    var w, pt, m := Word0(st, sn, marked), st.payload % 128, if marked then 128 else 0;
    assert w / 256 == (0x8000 + m + pt) * 256 + sn / 256;
    assert w / 256 / 256 == 0x8000 + m + pt;
  }

  /** A standard reader finds in every datagram the fields it was built from. */
  lemma HeaderRoundTrip(st: Stream, p: Packet)
    ensures ReadHeader(Datagram(st, p)) == Fields(2, p.marked, st.payload % 128, p.sn, p.pts, st.ssrc)
    ensures Datagram(st, p)[HEADER_SIZE..] == p.body
  {
    var d := Datagram(st, p);
    Word0Fields(st, p.sn, p.marked);
    WordRoundTrip(p.pts);
    WordRoundTrip(st.ssrc);
    assert d[..4] == BigEndian(Word0(st, p.sn, p.marked));
    assert d[4..8] == BigEndian(p.pts) && d[8..12] == BigEndian(st.ssrc);
    assert ReadWord(d, 4) == ReadWord(d[4..8], 0) && ReadWord(d, 8) == ReadWord(d[8..12], 0);
  }

  /** The next sequence number of a 16-bit counter. */
  function Succ(sn: U16): U16 {
    if sn == 0xFFFF then 0 else sn + 1
  }

  function Advance(sn: U16, k: nat): U16 {
    if k == 0 then sn else Succ(Advance(sn, k - 1))
  }

  lemma {:induction false} AdvanceTwice(sn: U16, j: nat, k: nat)
    ensures Advance(Advance(sn, j), k) == Advance(sn, j + k)
  {
    if k > 0 {
      AdvanceTwice(sn, j, k - 1);
    }
  }

  // ---------------------------------------------------------------- one NAL unit

  function FuIndicator(head: Byte): Byte {
    28 + head / 32 % 4 * 32
  }

  function FuHeader(head: Byte, first: bool, last: bool): Byte {
    head % 32 + (if first then 0x80 else 0) + (if last then 0x40 else 0)
  }

  /** How many bytes the next fragment takes. */
  function FragSize(rest: Bytes): nat {
    if |rest| <= FRAGMENT_SIZE then |rest| else FRAGMENT_SIZE
  }

  function FuBody(head: Byte, rest: Bytes, first: bool): Bytes {
    [FuIndicator(head), FuHeader(head, first, |rest| <= FRAGMENT_SIZE)] + rest[..FragSize(rest)]
  }

  /** The FU-A packets of the bytes that follow the NAL header. */
  function Fragments(sn: U16, head: Byte, rest: Bytes, first: bool, pts: U32, marked: bool): seq<Packet>
    decreases |rest|
  {
    if rest == [] then []
    else
      [Packet(sn, pts, marked && |rest| <= FRAGMENT_SIZE, FuBody(head, rest, first))]
      + Fragments(Succ(sn), head, rest[FragSize(rest)..], false, pts, marked)
  }

  function NaluPackets(sn: U16, nal: Bytes, pts: U32, marked: bool): seq<Packet> {
    if |nal| + HEADER_SIZE <= DATAGRAM_SIZE
    then [Packet(sn, pts, marked, nal)]
    else Fragments(sn, nal[0], nal[1..], true, pts, marked)
  }

  // ---------------------------------------------------------------- a whole frame

  /** A 00 00 01 start code at i. */
  predicate StartAt(data: Bytes, i: int) {
    0 <= i && i + PRE <= |data| && data[i] == 0 && data[i + 1] == 0 && data[i + 2] == 1
  }

  /** The first start code at or after a position. */
  function NextStart(data: Bytes, from: nat): (r: Option<nat>)
    ensures r.Some? ==> from <= r.value && StartAt(data, r.value)
    ensures forall i | from <= i && StartAt(data, i) :: r.Some? && r.value <= i
    decreases |data| - from
  {
    if from + PRE > |data| then None
    else if StartAt(data, from) then Some(from)
    else NextStart(data, from + 1)
  }

  /** The unit between two start codes, without one trailing zero byte. */
  function UnitBetween(data: Bytes, last: nat, next: nat): Bytes
    requires StartAt(data, last) && last + PRE <= next <= |data|
  {
    data[last + PRE..if data[next - 1] == 0 then next - 1 else next]
  }

  /** The NAL units from the start code at last to the end of the frame. */
  function UnitsFrom(data: Bytes, last: nat): (units: seq<Bytes>)
    requires StartAt(data, last)
    ensures units != []
    decreases |data| - last
  {
    match NextStart(data, last + PRE)
    case None => [data[last + PRE..]]
    case Some(next) => [UnitBetween(data, last, next)] + UnitsFrom(data, next)
  }

  function SplitAnnexB(data: Bytes): seq<Bytes> {
    match NextStart(data, 0)
    case None => []
    case Some(first) => UnitsFrom(data, first)
  }

  /** The packets of a list of NAL units; the marker goes to the last one. */
  function FramePackets(sn: U16, nals: seq<Bytes>, pts: U32): seq<Packet>
    decreases |nals|
  {
    if nals == [] then []
    else
      var ps := NaluPackets(sn, nals[0], pts, |nals| == 1);
      ps + FramePackets(Advance(sn, |ps|), nals[1..], pts)
  }

  // ---------------------------------------------------------------- what the packets look like

  /** A run of packets that starts at sn, of which at most the last carries the marker. */
  ghost predicate GroupOk(ps: seq<Packet>, sn: U16, pts: U32, marked: bool) {
    forall i | 0 <= i < |ps| ::
      && |ps[i].body| + HEADER_SIZE <= DATAGRAM_SIZE
      && ps[i].sn == Advance(sn, i) && ps[i].pts == pts
      && (ps[i].marked <==> marked && i == |ps| - 1)
  }

  lemma JoinGroups(a: seq<Packet>, b: seq<Packet>, sn: U16, pts: U32, marked: bool)
    requires GroupOk(a, sn, pts, false) && GroupOk(b, Advance(sn, |a|), pts, marked)
    requires b == [] ==> !marked
    ensures GroupOk(a + b, sn, pts, marked)
  {
    forall i | 0 <= i < |b|
      ensures Advance(Advance(sn, |a|), i) == Advance(sn, |a| + i)
    {
      AdvanceTwice(sn, |a|, i);
    }
  }

  lemma {:induction false} FragmentsOk(sn: U16, head: Byte, rest: Bytes, first: bool, pts: U32, marked: bool)
    requires rest != []
    ensures Fragments(sn, head, rest, first, pts, marked) != []
    ensures GroupOk(Fragments(sn, head, rest, first, pts, marked), sn, pts, marked)
    decreases |rest|
  {
    var one := [Packet(sn, pts, marked && |rest| <= FRAGMENT_SIZE, FuBody(head, rest, first))];
    var more := Fragments(Succ(sn), head, rest[FragSize(rest)..], false, pts, marked);
    if |rest| <= FRAGMENT_SIZE {
      assert one + more == one;
    } else {
      FragmentsOk(Succ(sn), head, rest[FragSize(rest)..], false, pts, marked);
      assert Advance(sn, 1) == Succ(Advance(sn, 0));
      JoinGroups(one, more, sn, pts, marked);
    }
  }

  lemma NaluOk(sn: U16, nal: Bytes, pts: U32, marked: bool)
    ensures NaluPackets(sn, nal, pts, marked) != []
    ensures GroupOk(NaluPackets(sn, nal, pts, marked), sn, pts, marked)
  {
    if |nal| + HEADER_SIZE > DATAGRAM_SIZE {
      FragmentsOk(sn, nal[0], nal[1..], true, pts, marked);
    }
  }

  /**
   Every packet of a frame fits in a datagram, the sequence numbers are consecutive mod 2^16,
   all carry the frame's timestamp, and only the very last one carries the marker bit.
   */
  lemma {:induction false} FrameOk(sn: U16, nals: seq<Bytes>, pts: U32)
    ensures GroupOk(FramePackets(sn, nals, pts), sn, pts, true)
    ensures nals != [] ==> FramePackets(sn, nals, pts) != []
    decreases |nals|
  {
    if nals != [] {
      var ps := NaluPackets(sn, nals[0], pts, |nals| == 1);
      var more := FramePackets(Advance(sn, |ps|), nals[1..], pts);
      NaluOk(sn, nals[0], pts, |nals| == 1);
      FrameOk(Advance(sn, |ps|), nals[1..], pts);
      if |nals| == 1 {
        assert ps + more == ps;
      } else {
        JoinGroups(ps, more, sn, pts, true);
      }
    }
  }

  /** Fragments that leave no byte of room but in the last one, with the start and the end bit where they belong. */
  ghost predicate FragmentShape(ps: seq<Packet>, count: nat, first: bool) {
    && 1186 * (|ps| - 1) < count <= 1186 * |ps|
    && forall i | 0 <= i < |ps| ::
      && |ps[i].body| > 2 && ps[i].body[0] % 32 == 28
      && (ps[i].body[1] >= 0x80 <==> first && i == 0)
      && (ps[i].body[1] % 0x80 >= 0x40 <==> i == |ps| - 1)
      && (i < |ps| - 1 ==> |ps[i].body| == 1188)
  }

  lemma FuShape(head: Byte, rest: Bytes, first: bool)
    requires rest != []
    ensures var body := FuBody(head, rest, first);
      && |body| > 2 && body[0] % 32 == 28
      && (body[1] >= 0x80 <==> first)
      && (body[1] % 0x80 >= 0x40 <==> |rest| <= FRAGMENT_SIZE)
      && (|rest| > FRAGMENT_SIZE ==> |body| == 1188)
  {
  }

  lemma {:induction false} FragmentsShape(sn: U16, head: Byte, rest: Bytes, first: bool, pts: U32, marked: bool)
    requires rest != []
    ensures FragmentShape(Fragments(sn, head, rest, first, pts, marked), |rest|, first)
    decreases |rest|
  {
    var ps, more := Fragments(sn, head, rest, first, pts, marked), rest[FragSize(rest)..];
    FuShape(head, rest, first);
    assert ps[0].body == FuBody(head, rest, first) && ps[1..] == Fragments(Succ(sn), head, more, false, pts, marked);
    if more != [] {
      FragmentsShape(Succ(sn), head, more, false, pts, marked);
      assert forall i | 1 <= i < |ps| :: ps[i] == ps[1..][i - 1];
    }
  }

  /** A fragmented unit has at least two fragments, and none has both the start and the end bit. */
  lemma NoLoneFragment(sn: U16, head: Byte, rest: Bytes, first: bool, pts: U32, marked: bool)
    requires first ==> |rest| > FRAGMENT_SIZE
    ensures var ps := Fragments(sn, head, rest, first, pts, marked);
      && (first ==> |ps| >= 2)
      && (forall i | 0 <= i < |ps| :: |ps[i].body| > 2 && ps[i].body[1] < 0xC0)
  {
    if rest != [] {
      FragmentsShape(sn, head, rest, first, pts, marked);
    }
  }

  /** How a unit leaves: whole if it fits in a datagram, else in as few fragments as possible. */
  ghost predicate UnitShape(ps: seq<Packet>, nal: Bytes) {
    if |nal| <= 1188 then |ps| == 1 && ps[0].body == nal
    else |ps| >= 2 && FragmentShape(ps, |nal| - 1, true)
  }

  lemma NaluShape(sn: U16, nal: Bytes, pts: U32, marked: bool)
    ensures UnitShape(NaluPackets(sn, nal, pts, marked), nal)
  {
    if |nal| > 1188 {
      FragmentsShape(sn, nal[0], nal[1..], true, pts, marked);
    }
  }

  /** The packets can be cut into parts of which each has the shape its unit requires. */
  ghost predicate FrameShape(ps: seq<Packet>, nals: seq<Bytes>) {
    if nals == [] then ps == []
    else exists n: nat | n <= |ps| :: UnitShape(ps[..n], nals[0]) && FrameShape(ps[n..], nals[1..])
  }

  lemma {:induction false} FrameShapeOk(sn: U16, nals: seq<Bytes>, pts: U32)
    ensures FrameShape(FramePackets(sn, nals, pts), nals)
    decreases |nals|
  {
    if nals != [] {
      var ps := NaluPackets(sn, nals[0], pts, |nals| == 1);
      var more, all := FramePackets(Advance(sn, |ps|), nals[1..], pts), FramePackets(sn, nals, pts);
      NaluShape(sn, nals[0], pts, |nals| == 1);
      FrameShapeOk(Advance(sn, |ps|), nals[1..], pts);
      assert all[..|ps|] == ps && all[|ps|..] == more;
    }
  }

  // ---------------------------------------------------------------- the depacketiser of RFC 6184

  /** Sections 5.6 (single NAL unit packets) and 5.8 (FU-A); cur is the unit being reassembled. */
  function Depacketise(bodies: seq<Bytes>, cur: Bytes): seq<Bytes> {
    if bodies == [] then []
    else
      var body, more := bodies[0], bodies[1..];
      if body == [] then Depacketise(more, cur)
      else if 1 <= body[0] % 32 <= 23 then [body] + Depacketise(more, [])
      else if body[0] % 32 == 28 && |body| >= 2 then
        var start, end := body[1] >= 128, body[1] / 64 % 2 == 1;
        var unit := (if start then [body[0] / 32 * 32 + body[1] % 32] else cur) + body[2..];
        if end then [unit] + Depacketise(more, []) else Depacketise(more, unit)
      else Depacketise(more, cur)
  }

  /** The payloads of received datagrams. */
  function Payloads(wire: seq<Bytes>): seq<Bytes>
    requires forall i | 0 <= i < |wire| :: |wire[i]| >= HEADER_SIZE
  {
    seq(|wire|, i requires 0 <= i < |wire| => wire[i][HEADER_SIZE..])
  }

  function Bodies(ps: seq<Packet>): seq<Bytes> {
    seq(|ps|, i requires 0 <= i < |ps| => ps[i].body)
  }

  lemma FuBits(head: Byte, first: bool, last: bool)
    requires head < 128
    ensures var i, fu := FuIndicator(head), FuHeader(head, first, last);
      && i % 32 == 28 && (fu >= 128 <==> first) && (fu / 64 % 2 == 1 <==> last)
      && i / 32 * 32 + fu % 32 == head
  {
  }

  lemma {:induction false} DepacketiseFragments(
    sn: U16, head: Byte, rest: Bytes, first: bool, pts: U32, marked: bool, tail: seq<Bytes>, cur: Bytes)
    requires rest != [] && head < 128
    ensures Depacketise(Bodies(Fragments(sn, head, rest, first, pts, marked)) + tail, cur)
         == [(if first then [head] else cur) + rest] + Depacketise(tail, [])
    decreases |rest|
  {
    var n := FragSize(rest);
    var body := FuBody(head, rest, first);
    var more := Fragments(Succ(sn), head, rest[n..], false, pts, marked);
    var all := Bodies(Fragments(sn, head, rest, first, pts, marked)) + tail;
    FuBits(head, first, |rest| <= FRAGMENT_SIZE);
    assert all[0] == body && all[1..] == Bodies(more) + tail;
    assert body[2..] == rest[..n];
    var unit := (if first then [head] else cur) + rest[..n];
    if |rest| <= FRAGMENT_SIZE {
      assert Bodies(more) + tail == tail && rest[..n] == rest;
    } else {
      DepacketiseFragments(Succ(sn), head, rest[n..], false, pts, marked, tail, unit);
      assert unit + rest[n..] == (if first then [head] else cur) + rest;
    }
  }

  /** A NAL unit an H.264 encoder may emit: F bit 0, a single-unit type, no start code inside, no trailing zero. */
  ghost predicate GoodNal(nal: Bytes) {
    SingleUnit(nal) && nal[|nal| - 1] != 0 && forall i :: !StartAt(nal, i)
  }

  predicate SingleUnit(nal: Bytes) {
    nal != [] && nal[0] < 128 && 1 <= nal[0] % 32 <= 23
  }

  lemma BodiesConcat(a: seq<Packet>, b: seq<Packet>)
    ensures Bodies(a + b) == Bodies(a) + Bodies(b)
  {
  }

  lemma {:induction false} DepacketiseFrame(sn: U16, nals: seq<Bytes>, pts: U32, cur: Bytes)
    requires forall i | 0 <= i < |nals| :: SingleUnit(nals[i])
    ensures Depacketise(Bodies(FramePackets(sn, nals, pts)), cur) == nals
    decreases |nals|
  {
    if nals != [] {
      var nal := nals[0];
      var ps := NaluPackets(sn, nal, pts, |nals| == 1);
      var more := FramePackets(Advance(sn, |ps|), nals[1..], pts);
      assert SingleUnit(nal);
      DepacketiseFrame(Advance(sn, |ps|), nals[1..], pts, []);
      BodiesConcat(ps, more);
      if |nal| + HEADER_SIZE <= DATAGRAM_SIZE {
        assert (Bodies(ps) + Bodies(more))[1..] == Bodies(more);
      } else {
        DepacketiseFragments(sn, nal[0], nal[1..], true, pts, |nals| == 1, Bodies(more), cur);
        assert [nal[0]] + nal[1..] == nal;
      }
    }
  }

  // ---------------------------------------------------------------- Annex B

  /** A NAL unit behind a 3-byte or a 4-byte start code. */
  datatype Unit = Unit(longCode: bool, nal: Bytes) {
    function Prefix(): Bytes {
      if longCode then [0, 0, 0, 1] else [0, 0, 1]
    }
  }

  function AnnexB(units: seq<Unit>): Bytes {
    if units == [] then [] else units[0].Prefix() + units[0].nal + AnnexB(units[1..])
  }

  function Nals(units: seq<Unit>): seq<Bytes> {
    seq(|units|, i requires 0 <= i < |units| => units[i].nal)
  }

  /** No start code begins inside a good unit. */
  lemma NoStartInside(pre: Bytes, nal: Bytes, rest: Bytes, i: nat)
    requires GoodNal(nal) && |pre| <= i < |pre| + |nal|
    ensures !StartAt(pre + nal + rest, i)
  {
    var data, end := pre + nal + rest, |pre| + |nal|;
    assert data[end - 1] == nal[|nal| - 1];
    if i + PRE <= end {
      assert !StartAt(nal, i - |pre|);
      assert data[i..i + 3] == nal[i - |pre|..i - |pre| + 3];
      assert data[i] == data[i..i + 3][0] && data[i + 1] == data[i..i + 3][1] && data[i + 2] == data[i..i + 3][2];
    }
  }

  lemma PrefixStarts(front: Bytes, v: Unit, rest: Bytes)
    ensures StartAt(front + (v.Prefix() + rest), |front| + (if v.longCode then 1 else 0))
    ensures v.longCode ==> !StartAt(front + (v.Prefix() + rest), |front|)
  {
  }

  /** The next start code after a good unit is the one of the unit behind it. */
  lemma NextAfterUnit(pre: Bytes, nal: Bytes, next: Option<Unit>, rest: Bytes)
    requires GoodNal(nal)
    ensures var end := |pre| + |nal|;
      NextStart(pre + nal + (if next.Some? then next.value.Prefix() + rest else []), |pre|)
      == if next.None? then None else Some(if next.value.longCode then end + 1 else end)
  {
    var tail := if next.Some? then next.value.Prefix() + rest else [];
    var data, end := pre + nal + tail, |pre| + |nal|;
    forall i | |pre| <= i < end
      ensures !StartAt(data, i)
    {
      NoStartInside(pre, nal, tail, i);
    }
    if next.Some? {
      PrefixStarts(pre + nal, next.value, rest);
    }
  }

  /** A long start code leaves one zero behind the previous unit, which the splitter drops. */
  lemma BetweenOk(pre: Bytes, nal: Bytes, v: Unit, rest: Bytes, last: nat)
    requires GoodNal(nal) && last + PRE == |pre|
    requires StartAt(pre, last)
    ensures var data := pre + nal + (v.Prefix() + rest);
      var end := |pre| + |nal|;
      StartAt(data, last) && UnitBetween(data, last, if v.longCode then end + 1 else end) == nal
  {
    var data, end := pre + nal + (v.Prefix() + rest), |pre| + |nal|;
    assert data[..|pre|] == pre;
    assert data[last] == pre[last] && data[last + 1] == pre[last + 1] && data[last + 2] == pre[last + 2];
    assert data[|pre|..end] == nal;
    assert data[end - 1] == nal[|nal| - 1];
    assert data[end] == v.Prefix()[0];
  }

  /** One step of the splitter over a good unit. */
  lemma SplitStep(data: Bytes, pre: Bytes, nal: Bytes, v: Unit, rest: Bytes, last: nat, next: nat)
    requires GoodNal(nal) && last + PRE == |pre| && StartAt(pre, last)
    requires data == pre + nal + (v.Prefix() + rest) && next == |pre| + |nal| + (if v.longCode then 1 else 0)
    ensures StartAt(data, last) && StartAt(data, next)
    ensures UnitsFrom(data, last) == [nal] + UnitsFrom(data, next)
  {
    NextAfterUnit(pre, nal, Some(v), rest);
    BetweenOk(pre, nal, v, rest, last);
  }

  /** The last unit runs to the end of the frame. */
  lemma SplitLast(data: Bytes, pre: Bytes, nal: Bytes, last: nat)
    requires GoodNal(nal) && last + PRE == |pre| && StartAt(pre, last) && data == pre + nal
    ensures StartAt(data, last) && UnitsFrom(data, last) == [nal]
  {
    NextAfterUnit(pre, nal, None, []);
    assert data == pre + nal + [];
    assert data[last + PRE..] == nal;
    assert data[last] == pre[last] && data[last + 1] == pre[last + 1] && data[last + 2] == pre[last + 2];
  }

  lemma PrefixEnds(front: Bytes, v: Unit)
    ensures StartAt(front + v.Prefix(), |front| + (if v.longCode then 1 else 0))
  {
  }

  lemma Regroup(a: Bytes, b: Bytes, c: Bytes, d: Bytes, e: Bytes)
    ensures a + b + (c + d + e) == (a + b + c) + d + e == a + b + (c + (d + e))
  {
  }

  lemma NalsCons(units: seq<Unit>)
    requires units != []
    ensures Nals(units) == [units[0].nal] + Nals(units[1..])
  {
  }

  ghost predicate AllGood(units: seq<Unit>) {
    units == [] || (GoodNal(units[0].nal) && AllGood(units[1..]))
  }

  lemma {:induction false} GoodUnits(units: seq<Unit>)
    requires forall i | 0 <= i < |units| :: GoodNal(units[i].nal)
    ensures AllGood(units)
  {
    if units != [] {
      GoodUnits(units[1..]);
    }
  }

  /** With the start code of the first unit just read, the splitter returns the units from there on. */
  lemma {:induction false} UnitsFromOk(data: Bytes, pre: Bytes, units: seq<Unit>, last: nat)
    requires units != [] && AllGood(units)
    requires last + PRE == |pre| && StartAt(pre, last)
    requires data == pre + units[0].nal + AnnexB(units[1..])
    ensures StartAt(data, last) && UnitsFrom(data, last) == Nals(units)
    decreases |units|
  {
    var u, more := units[0], units[1..];
    if more == [] {
      assert data == pre + u.nal;
      SplitLast(data, pre, u.nal, last);
    } else {
      var v, tail := more[0], AnnexB(more[1..]);
      var next := |pre| + |u.nal| + (if v.longCode then 1 else 0);
      Regroup(pre, u.nal, v.Prefix(), v.nal, tail);
      SplitStep(data, pre, u.nal, v, v.nal + tail, last, next);
      PrefixEnds(pre + u.nal, v);
      UnitsFromOk(data, pre + u.nal + v.Prefix(), more, next);
      NalsCons(units);
    }
  }

  /** Where the first start code of an access unit is. */
  lemma FirstStart(data: Bytes, u: Unit, tail: Bytes)
    requires data == u.Prefix() + u.nal + tail
    ensures var first := if u.longCode then 1 else 0;
      StartAt(data, first) && StartAt(u.Prefix(), first) && (u.longCode ==> !StartAt(data, 0))
  {
    assert forall j | 0 <= j < |u.Prefix()| :: data[j] == u.Prefix()[j];
  }

  /** Splitting an access unit gives back its NAL units, whatever start codes were used. */
  lemma SplitOk(units: seq<Unit>)
    requires forall i | 0 <= i < |units| :: GoodNal(units[i].nal)
    ensures SplitAnnexB(AnnexB(units)) == Nals(units)
  {
    var data := AnnexB(units);
    GoodUnits(units);
    if units != [] {
      var pre := units[0].Prefix();
      var first := if units[0].longCode then 1 else 0;
      FirstStart(data, units[0], AnnexB(units[1..]));
      UnitsFromOk(data, pre, units, first);
    }
  }

  /** The round trip: a receiver that follows RFC 6184 gets exactly the NAL units of the access unit. */
  lemma RoundTrip(st: Stream, sn: U16, units: seq<Unit>, pts: U32)
    requires forall i | 0 <= i < |units| :: GoodNal(units[i].nal)
    ensures var wire := Wire(st, FramePackets(sn, SplitAnnexB(AnnexB(units)), pts));
      && (forall i | 0 <= i < |wire| :: |wire[i]| >= HEADER_SIZE)
      && Depacketise(Payloads(wire), []) == Nals(units)
  {
    var ps := FramePackets(sn, SplitAnnexB(AnnexB(units)), pts);
    var wire := Wire(st, ps);
    SplitOk(units);
    DepacketiseFrame(sn, Nals(units), pts, []);
    forall i | 0 <= i < |wire|
      ensures wire[i][HEADER_SIZE..] == ps[i].body
    {
      HeaderRoundTrip(st, ps[i]);
    }
    assert Payloads(wire) == Bodies(ps);
  }

  // ---------------------------------------------------------------- the code

  class Rtp {
    const stream: Stream
    var sn: U16
    const datagram: array<Byte>
    var used: nat

    ghost predicate Valid() {
      datagram.Length == DATAGRAM_SIZE
    }

    constructor (stream: Stream)
      ensures Valid() && this.stream == stream && sn == 0 && fresh(datagram)
    {
      this.stream, sn, used := stream, 0, 0;
      datagram := new Byte[DATAGRAM_SIZE];
    }

    method WriteBigEndian(offset: nat, value: U32)
      requires Valid() && offset + 4 <= DATAGRAM_SIZE
      modifies datagram
      ensures datagram[offset..offset + 4] == BigEndian(value)
      ensures forall i | 0 <= i < DATAGRAM_SIZE && !(offset <= i < offset + 4) :: datagram[i] == old(datagram[i])
    {
      var bytes := BigEndian(value);
      datagram[offset], datagram[offset + 1] := bytes[0], bytes[1];
      datagram[offset + 2], datagram[offset + 3] := bytes[2], bytes[3];
    }

    /** us_rtp_write_header */
    method WriteHeader(pts: U32, marked: bool)
      requires Valid()
      modifies this`sn, datagram
      ensures datagram[..HEADER_SIZE] == Header(stream, Packet(old(sn), pts, marked, []))
      ensures datagram[HEADER_SIZE..] == old(datagram[HEADER_SIZE..])
      ensures sn == Succ(old(sn))
    {
      var word0 := 0x8000_0000;
      if marked {
        word0 := word0 + 0x80_0000;
      }
      word0 := word0 + stream.payload % 128 * 0x1_0000;
      word0 := word0 + sn;
      sn := Succ(sn);
      WriteBigEndian(0, word0);
      WriteBigEndian(4, pts);
      assert datagram[0..4] == BigEndian(word0);
      WriteBigEndian(8, stream.ssrc);
      assert datagram[0..4] == BigEndian(word0) && datagram[4..8] == BigEndian(pts);
      assert datagram[..HEADER_SIZE] == datagram[0..4] + datagram[4..8] + datagram[8..12];
    }
  }

  /** The packets of a stream so far: sizes, and each sequence number follows the one before. */
  ghost predicate StreamOk(log: seq<Packet>, next: U16) {
    log == [] ||
    (var n := |log| - 1;
     && |log[n].body| + HEADER_SIZE <= DATAGRAM_SIZE
     && next == Succ(log[n].sn)
     && StreamOk(log[..n], log[n].sn))
  }

  /** One more packet of a list goes on the wire. */
  lemma WireStep(st: Stream, all: seq<Packet>, done: nat)
    requires done < |all|
    ensures all[done] == all[done..][0] && all[done + 1..] == all[done..][1..]
    ensures Wire(st, all[..done + 1]) == Wire(st, all[..done]) + [Datagram(st, all[done])]
  {
  }

  /** The packetiser with the log of datagrams its callback was called with. */
  class Rtpv {
    const rtp: Rtp
    var sent: seq<Bytes>
    ghost var log: seq<Packet>

    ghost predicate Valid()
      reads this, rtp
    {
      rtp.Valid() && sent == Wire(rtp.stream, log) && StreamOk(log, rtp.sn)
    }

    constructor (rtp: Rtp)
      requires rtp.Valid()
      ensures this.rtp == rtp && sent == [] && Valid()
    {
      this.rtp, sent, log := rtp, [], [];
    }

    /** Fill the datagram from a position on and hand it to the callback. */
    method Send(at: nat, body: Bytes)
      requires rtp.Valid() && at + |body| <= DATAGRAM_SIZE
      modifies `sent, rtp`used, rtp.datagram
      ensures sent == old(sent) + [old(rtp.datagram[..at]) + body]
    {
      var d := rtp.datagram;
      for i := 0 to |body|
        invariant sent == old(sent) && d[..at] == old(rtp.datagram[..at])
        invariant d[at..at + i] == body[..i]
      {
        d[at + i] := body[i];
        assert d[at..at + i + 1] == d[at..at + i] + [body[i]];
      }
      rtp.used := at + |body|;
      assert body[..|body|] == body;
      assert d[..rtp.used] == d[..at] + d[at..at + |body|];
      sent := sent + [d[..rtp.used]];
    }

    /** One FU-A datagram. */
    method SendFragment(head: Byte, src: Bytes, first: bool, pts: U32, marked: bool)
      requires rtp.Valid() && src != []
      modifies `sent, rtp, rtp.datagram
      ensures sent == old(sent) + [Datagram(rtp.stream, Packet(old(rtp.sn), pts, marked && |src| <= FRAGMENT_SIZE, FuBody(head, src, first)))]
      ensures rtp.sn == Succ(old(rtp.sn))
    {
      var fragSize := FRAGMENT_SIZE;
      var last := |src| <= fragSize;
      if last {
        fragSize := |src|;
      }
      rtp.WriteHeader(pts, marked && last);
      ghost var header := rtp.datagram[..HEADER_SIZE];
      rtp.datagram[HEADER_SIZE] := 28 + head / 32 % 4 * 32;
      var fu := head % 32;
      if first {
        fu := fu + 0x80;
      }
      if last {
        fu := fu + 0x40;
      }
      rtp.datagram[HEADER_SIZE + 1] := fu;
      assert rtp.datagram[..FU_OVERHEAD] == header + [FuIndicator(head), FuHeader(head, first, last)];
      Send(FU_OVERHEAD, src[..fragSize]);
      assert header + [FuIndicator(head), FuHeader(head, first, last)] + src[..fragSize] == header + FuBody(head, src, first);
    }

    /** _rtpv_process_nalu */
    method ProcessNalu(nal: Bytes, pts: U32, marked: bool)
      requires rtp.Valid()
      modifies `sent, rtp, rtp.datagram
      ensures sent == old(sent) + Wire(rtp.stream, NaluPackets(old(rtp.sn), nal, pts, marked))
      ensures rtp.sn == Advance(old(rtp.sn), |NaluPackets(old(rtp.sn), nal, pts, marked)|)
    {
      if |nal| + HEADER_SIZE <= DATAGRAM_SIZE {
        rtp.WriteHeader(pts, marked);
        Send(HEADER_SIZE, nal);
        return;
      }
      var src, first := nal[1..], true;
      ghost var all, done := NaluPackets(rtp.sn, nal, pts, marked), 0;
      while |src| > 0
        invariant rtp.Valid() && done <= |all|
        invariant sent == old(sent) + Wire(rtp.stream, all[..done])
        invariant rtp.sn == Advance(old(rtp.sn), done)
        invariant all[done..] == Fragments(rtp.sn, nal[0], src, first, pts, marked)
        decreases |src|
      {
        WireStep(rtp.stream, all, done);
        SendFragment(nal[0], src, first, pts, marked);
        src := src[FragSize(src)..];
        first := false;
        done := done + 1;
      }
      assert all[..done] == all;
    }

    /** _find_annexb over the bytes from a position on, with an absolute result. */
    method FindAnnexB(data: Bytes, from: nat) returns (offset: int)
      requires from <= |data|
      ensures offset < 0 ==> NextStart(data, from).None?
      ensures offset >= 0 ==> NextStart(data, from) == Some(offset)
    {
      var size := |data| - from;
      if size >= PRE {
        for index := 0 to size - PRE + 1
          invariant forall i | from <= i < from + index :: !StartAt(data, i)
        {
          if data[from + index] == 0 && data[from + index + 1] == 0 && data[from + index + 2] == 1 {
            assert StartAt(data, from + index);
            return from + index;
          }
        }
      }
      return -1;
    }

    /** What sending the remaining units would make of the log and of the sequence number. */
    ghost predicate Heading(units: seq<Bytes>, pts: U32, total: seq<Bytes>, end: U16)
      reads this, rtp
    {
      && sent + Wire(rtp.stream, FramePackets(rtp.sn, units, pts)) == total
      && Advance(rtp.sn, |FramePackets(rtp.sn, units, pts)|) == end
    }

    /** Sending the first of the remaining units leaves the outcome as it was. */
    method SendUnit(nal: Bytes, ghost more: seq<Bytes>, pts: U32, marked: bool, ghost total: seq<Bytes>, ghost end: U16)
      requires rtp.Valid() && marked == (more == []) && Heading([nal] + more, pts, total, end)
      modifies `sent, rtp, rtp.datagram
      ensures Heading(more, pts, total, end)
    {
      ghost var ps := NaluPackets(rtp.sn, nal, pts, marked);
      ghost var tail := Wire(rtp.stream, FramePackets(Advance(rtp.sn, |ps|), more, pts));
      Progress(rtp.stream, rtp.sn, nal, more, pts);
      Associate(sent, Wire(rtp.stream, ps), tail);
      ProcessNalu(nal, pts, marked);
    }

    /** us_rtpv_wrap */
    method Wrap(data: Bytes, pts: U32)
      requires Valid()
      modifies this, rtp, rtp.datagram
      ensures Valid()
      ensures log == old(log) + FramePackets(old(rtp.sn), SplitAnnexB(data), pts)
      ensures sent == Wire(rtp.stream, log)
    {
      ghost var goal := FramePackets(rtp.sn, SplitAnnexB(data), pts);
      WireConcat(rtp.stream, log, goal);
      StreamGrows(log, rtp.sn, SplitAnnexB(data), pts);
      WrapUnits(data, pts, sent + Wire(rtp.stream, goal), Advance(rtp.sn, |goal|));
      log := log + goal;
    }

    /** The unit between two start codes, with one extra zero cut off. */
    method SendBetween(data: Bytes, lastOffset: nat, offset: nat, pts: U32, ghost total: seq<Bytes>, ghost end: U16)
      requires StartAt(data, lastOffset) && NextStart(data, lastOffset + PRE) == Some(offset)
      requires rtp.Valid() && Heading(UnitsFrom(data, lastOffset), pts, total, end)
      modifies `sent, rtp, rtp.datagram
      ensures Heading(UnitsFrom(data, offset), pts, total, end)
    {
      var size := offset - lastOffset - PRE;
      if data[lastOffset + PRE + size - 1] == 0 {
        size := size - 1;
      }
      UnitsStep(data, lastOffset, offset, size);
      SendUnit(data[lastOffset + PRE..lastOffset + PRE + size], UnitsFrom(data, offset), pts, false, total, end);
    }

    /** The loop of us_rtpv_wrap over the NAL units of the frame. */
    method WrapUnits(data: Bytes, pts: U32, ghost total: seq<Bytes>, ghost end: U16)
      requires rtp.Valid() && Heading(SplitAnnexB(data), pts, total, end)
      modifies `sent, rtp, rtp.datagram
      ensures sent == total && rtp.sn == end
    {
      ghost var units := SplitAnnexB(data);
      var lastOffset: int := -PRE;
      while true
        invariant lastOffset == -PRE || StartAt(data, lastOffset)
        invariant Heading(units, pts, total, end)
        invariant units == if lastOffset < 0 then SplitAnnexB(data) else UnitsFrom(data, lastOffset)
        decreases |data| - lastOffset
      {
        var nextStart := lastOffset + PRE;
        var offset := FindAnnexB(data, nextStart);
        if offset < 0 {
          break;
        }
        if lastOffset >= 0 {
          SendBetween(data, lastOffset, offset, pts, total, end);
        }
        units := UnitsFrom(data, offset);
        lastOffset := offset;
      }
      if lastOffset >= 0 {
        var nal := data[lastOffset + PRE..];
        assert units == [nal] + [];
        units := [];
        SendUnit(nal, [], pts, true, total, end);
      }
      assert FramePackets(rtp.sn, units, pts) == [];
    }
  }

  lemma UnitsStep(data: Bytes, last: nat, next: nat, size: nat)
    requires StartAt(data, last) && NextStart(data, last + PRE) == Some(next)
    requires size == next - last - PRE - (if data[next - 1] == 0 then 1 else 0)
    ensures last + PRE + size <= |data|
    ensures UnitsFrom(data, last) == [data[last + PRE..last + PRE + size]] + UnitsFrom(data, next)
  {
  }

  /** Sending the first unit of what is left leaves the packets of the other units to be sent. */
  lemma Progress(st: Stream, sn: U16, nal: Bytes, more: seq<Bytes>, pts: U32)
    ensures var ps := NaluPackets(sn, nal, pts, more == []);
      var sn' := Advance(sn, |ps|);
      && Wire(st, FramePackets(sn, [nal] + more, pts)) == Wire(st, ps) + Wire(st, FramePackets(sn', more, pts))
      && Advance(sn, |FramePackets(sn, [nal] + more, pts)|) == Advance(sn', |FramePackets(sn', more, pts)|)
  {
    var ps := NaluPackets(sn, nal, pts, more == []);
    var rest := FramePackets(Advance(sn, |ps|), more, pts);
    FirstUnit(sn, nal, more, pts);
    WireConcat(st, ps, rest);
    AdvanceTwice(sn, |ps|, |rest|);
  }

  lemma FirstUnit(sn: U16, nal: Bytes, more: seq<Bytes>, pts: U32)
    ensures var ps := NaluPackets(sn, nal, pts, more == []);
      FramePackets(sn, [nal] + more, pts) == ps + FramePackets(Advance(sn, |ps|), more, pts)
  {
    var units := [nal] + more;
    assert units[0] == nal && units[1..] == more;
  }

  lemma WireConcat(st: Stream, a: seq<Packet>, b: seq<Packet>)
    ensures Wire(st, a + b) == Wire(st, a) + Wire(st, b)
  {
  }

  /** Appending the packets of one more frame keeps the sizes and the sequence numbers of the stream. */
  lemma StreamGrows(log: seq<Packet>, sn: U16, nals: seq<Bytes>, pts: U32)
    requires StreamOk(log, sn)
    ensures StreamOk(log + FramePackets(sn, nals, pts), Advance(sn, |FramePackets(sn, nals, pts)|))
  {
    FrameOk(sn, nals, pts);
    NumberedGroup(FramePackets(sn, nals, pts), sn, pts, true);
    StreamAppend(log, FramePackets(sn, nals, pts), sn);
  }

  ghost predicate Numbered(ps: seq<Packet>, sn: U16) {
    ps == [] || (|ps[0].body| + HEADER_SIZE <= DATAGRAM_SIZE && ps[0].sn == sn && Numbered(ps[1..], Succ(sn)))
  }

  lemma {:induction false} NumberedGroup(ps: seq<Packet>, sn: U16, pts: U32, marked: bool)
    requires GroupOk(ps, sn, pts, marked)
    ensures Numbered(ps, sn)
    decreases |ps|
  {
    if ps != [] {
      forall i | 0 <= i < |ps[1..]|
        ensures Advance(Succ(sn), i) == Advance(sn, i + 1)
      {
        AdvanceTwice(sn, 1, i);
        assert Advance(sn, 1) == Succ(Advance(sn, 0));
      }
      assert ps[0].sn == Advance(sn, 0);
      NumberedGroup(ps[1..], Succ(sn), pts, marked);
    }
  }

  lemma {:induction false} StreamAppend(log: seq<Packet>, ps: seq<Packet>, sn: U16)
    requires StreamOk(log, sn) && Numbered(ps, sn)
    ensures StreamOk(log + ps, Advance(sn, |ps|))
    decreases |ps|
  {
    if ps == [] {
      assert log + ps == log;
    } else {
      StreamPush(log, ps[0]);
      StreamAppend(log + [ps[0]], ps[1..], Succ(sn));
      assert log + ps == log + [ps[0]] + ps[1..];
      AdvanceTwice(sn, 1, |ps| - 1);
      assert Advance(sn, 1) == Succ(Advance(sn, 0));
    }
  }

  lemma StreamPush(log: seq<Packet>, p: Packet)
    requires StreamOk(log, p.sn) && |p.body| + HEADER_SIZE <= DATAGRAM_SIZE
    ensures StreamOk(log + [p], Succ(p.sn))
  {
    assert (log + [p])[..|log|] == log;
  }

  /** What a reader of the wire sees of such a stream: sizes, fields and consecutive numbers. */
  lemma {:induction false} StreamOnTheWire(st: Stream, log: seq<Packet>, next: U16, i: nat)
    requires StreamOk(log, next) && i < |log|
    ensures var d := Wire(st, log)[i];
      && HEADER_SIZE <= |d| <= DATAGRAM_SIZE
      && ReadHeader(d) == Fields(2, log[i].marked, st.payload % 128, log[i].sn, log[i].pts, st.ssrc)
    ensures (if i == |log| - 1 then next else log[i + 1].sn) == Succ(log[i].sn)
    decreases |log|
  {
    var n := |log| - 1;
    if i == n {
      HeaderRoundTrip(st, log[i]);
    } else {
      StreamOnTheWire(st, log[..n], log[n].sn, i);
    }
  }
}
