/**
 The shared-memory sink: one server and any number of clients that take turns under a file
 lock.  Every locked section is one operation.
 */
module MemorySink {
  import opened Common
  import opened Frames
  import FrameIds

  const MAGIC: int := 0xCAFEBABECAFEBABE
  const VERSION: int := 7

  /** The shared region as a value. */
  datatype Mem = Mem(
    magic: int, version: int, id: bv64, used: nat, lastClientTs: real, keyRequested: bool,
    meta: Meta, data: seq<Byte>)

  datatype GetResult = NoData | Failed | Got(image: Image, keyRequested: bool)

  // ---------------------------------------------------------------- the operations on values

  /** What a put that gets the lock leaves in the region. */
  function PutMem(m: Mem, image: Image, id: bv64): Mem
    requires |image.data| <= |m.data|
  {
    m.(magic := MAGIC, version := VERSION, id := id, used := |image.data|, meta := image.meta,
       keyRequested := m.keyRequested && !image.meta.key,
       data := image.data + m.data[|image.data|..])
  }

  function GetOutcome(m: Mem, lastId: bv64): GetResult
    requires m.used <= |m.data|
  {
    if m.magic != MAGIC then NoData
    else if m.version != VERSION then Failed
    else if m.id == lastId then NoData
    else Got(Image(m.data[..m.used], m.meta), m.keyRequested)
  }

  function GetMem(m: Mem, lastId: bv64, keyRequired: bool, now: real): Mem
    requires m.used <= |m.data|
  {
    if m.magic != MAGIC || m.version != VERSION then m
    else m.(lastClientTs := now, keyRequested := m.keyRequested || (GetOutcome(m, lastId).Got? && keyRequired))
  }

  // ---------------------------------------------------------------- the code

  /** The mapped region both sides see. */
  class Shared {
    var magic: int
    var version: int
    var id: bv64
    var used: nat
    var lastClientTs: real
    var keyRequested: bool
    var meta: Meta
    const data: array<Byte>

    ghost predicate Valid()
      reads this
    {
      used <= data.Length
    }

    ghost function Value(): Mem
      reads this, data
    {
      Mem(magic, version, id, used, lastClientTs, keyRequested, meta, data[..])
    }

    /** memcpy to the start of the data area */
    method CopyIn(src: seq<Byte>)
      requires |src| <= data.Length
      modifies data
      ensures data[..] == src + old(data[|src|..])
    {
      for i := 0 to |src|
        invariant data[..i] == src[..i] && data[i..] == old(data[i..])
      {
        data[i] := src[i];
        assert data[..i + 1] == data[..i] + [src[i]];
        assert data[i + 1..] == old(data[i..])[1..];
      }
      assert data[..] == data[..|src|] + data[|src|..];
      assert src[..|src|] == src;
    }

    /** A region that was just truncated to its size: all zeros. */
    constructor (size: nat, meta: Meta)
      ensures Valid() && magic == 0 && data.Length == size && !keyRequested && fresh(data)
    {
      magic, version, id, used, lastClientTs, keyRequested := 0, 0, 0, 0, 0.0, false;
      this.meta := meta;
      data := new Byte[size](_ => 0);
    }
  }

  datatype Lock = Locked | WouldBlock | LockError

  class Server {
    const mem: Shared
    const clientTtl: real
    var hasClients: bool

    constructor (mem: Shared, clientTtl: real)
      ensures this.mem == mem && this.clientTtl == clientTtl
    {
      this.mem, this.clientTtl, hasClients := mem, clientTtl, false;
    }

    /**
     us_memsink_server_put.  reported is what the call stores through its key_requested
     pointer, or None when it stores nothing.
     */
    method Put(frame: Frame, lock: Lock, id: bv64, now: real, unlocks: bool) returns (status: int, reported: Option<bool>)
      requires mem.Valid() && frame.Valid() && frame.data != mem.data
      modifies this, mem, mem.data
      ensures mem.Valid()
      ensures var published := frame.used <= mem.data.Length && lock.Locked?;
        && (published ==> mem.Value() == PutMem(old(mem.Value()), old(frame.Value()), id) && reported == Some(mem.keyRequested))
        && (published ==> hasClients == (mem.lastClientTs + clientTtl > now))
        && (!published ==> mem.Value() == old(mem.Value()) && hasClients == old(hasClients) && reported == None)
        && (status < 0 <==> frame.used <= mem.data.Length && (lock.LockError? || (lock.Locked? && !unlocks)))
    {
      reported := None;
      if frame.used > mem.data.Length {
        return 0, None;
      }
      if lock.Locked? {
        mem.id := id;
        if mem.keyRequested && frame.meta.key {
          mem.keyRequested := false;
        }
        reported := Some(mem.keyRequested);
        mem.CopyIn(frame.data[..frame.used]);
        mem.used := frame.used;
        mem.meta := frame.meta;
        mem.magic, mem.version := MAGIC, VERSION;
        hasClients := mem.lastClientTs + clientTtl > now;
        if !unlocks {
          return -1, reported;
        }
      } else if lock.LockError? {
        return -1, None;
      }
      return 0, reported;
    }
  }

  class Client {
    const mem: Shared
    var lastId: bv64

    constructor (mem: Shared)
      ensures this.mem == mem && lastId == 0
    {
      this.mem, lastId := mem, 0;
    }

    /** us_memsink_client_get; the frame of the caller becomes the image that was got. */
    method Get(frame: Frame, lock: Lock, keyRequired: bool, now: real, unlocks: bool) returns (result: GetResult)
      requires mem.Valid() && frame.data != mem.data
      modifies this, mem, frame, frame.data
      ensures mem.Valid()
      ensures !lock.Locked? ==>
        && mem.Value() == old(mem.Value()) && lastId == old(lastId)
        && result == (if lock.WouldBlock? then NoData else Failed)
      ensures lock.Locked? ==>
        var outcome := GetOutcome(old(mem.Value()), old(lastId));
        && mem.Value() == GetMem(old(mem.Value()), old(lastId), keyRequired, now)
        && lastId == (if outcome.Got? then old(mem.id) else old(lastId))
        && result == (if unlocks then outcome else Failed)
        && (outcome.Got? ==> frame.Valid() && frame.Value() == outcome.image)
    {
      if !lock.Locked? {
        return if lock.WouldBlock? then NoData else Failed;
      }
      result := ReadLocked(frame, keyRequired, now);
      if !unlocks {
        result := Failed;
      }
    }

    method ReadLocked(frame: Frame, keyRequired: bool, now: real) returns (result: GetResult)
      requires mem.Valid() && frame.data != mem.data
      modifies this, mem, frame, frame.data
      ensures mem.Valid() && mem.Value() == GetMem(old(mem.Value()), old(lastId), keyRequired, now)
      ensures result == GetOutcome(old(mem.Value()), old(lastId))
      ensures lastId == if result.Got? then old(mem.id) else old(lastId)
      ensures result.Got? ==> frame.Valid() && frame.Value() == result.image
    {
      if mem.magic != MAGIC {
        return NoData;
      }
      if mem.version != VERSION {
        return Failed;
      }
      mem.lastClientTs := now;
      if mem.id == lastId {
        return NoData;
      }
      lastId := mem.id;
      frame.SetData(mem.data[..mem.used]);
      frame.meta := mem.meta;
      result := Got(Image(mem.data[..mem.used], mem.meta), mem.keyRequested);
      if keyRequired {
        mem.keyRequested := true;
      }
    }
  }

  // ---------------------------------------------------------------- runs of one server and many clients

  /** A put that reached the region. */
  datatype Published = Published(id: bv64, image: Image)

  /**
   A client with what it has received: the images, and which puts they came from.  It has
   looked at the first `seen` puts; a get whose unlock fails looks without receiving.
   */
  datatype Reader = Reader(lastId: bv64, seen: nat, got: seq<nat>, images: seq<Image>)

  datatype World = World(mem: Mem, published: seq<Published>, readers: seq<Reader>)

  datatype Op =
    | Put(image: Image, id: bv64, locked: bool)
    | Get(r: nat, keyRequired: bool, now: real, unlocks: bool)

  function Start(size: nat, readers: nat, meta: Meta): World {
    World(Mem(0, 0, 0, 0, 0.0, false, meta, seq(size, _ => 0)), [], seq(readers, _ => Reader(0, 0, [], [])))
  }

  /** The reader after it found the image of the newest put, number n - 1. */
  function Reads(rd: Reader, id: bv64, n: nat, image: Image, unlocks: bool): Reader {
    if unlocks then Reader(id, n, rd.got + [if n == 0 then 0 else n - 1], rd.images + [image])
    else rd.(lastId := id, seen := n)
  }

  function Apply(w: World, op: Op): World
    requires w.mem.used <= |w.mem.data|
  {
    match op
    case Put(image, id, locked) =>
      if |image.data| > |w.mem.data| || !locked then w
      else World(PutMem(w.mem, image, id), w.published + [Published(id, image)], w.readers)
    case Get(r, keyRequired, now, unlocks) =>
      if r >= |w.readers| then w
      else
        var rd := w.readers[r];
        var outcome := GetOutcome(w.mem, rd.lastId);
        var rd' := if outcome.Got? then Reads(rd, w.mem.id, |w.published|, outcome.image, unlocks) else rd;
        World(GetMem(w.mem, rd.lastId, keyRequired, now), w.published, w.readers[r := rd'])
  }

  /** Pairwise different ids, none of them 0. */
  ghost predicate GoodIds(ps: seq<Published>) {
    && (forall i | 0 <= i < |ps| :: ps[i].id != 0)
    && (forall i, j | 0 <= i < j < |ps| :: ps[i].id != ps[j].id)
  }

  /** The region holds the last image that was put, bytes and metadata. */
  ghost predicate MemOk(w: World) {
    && w.mem.used <= |w.mem.data|
    && (w.published == [] ==> w.mem.magic != MAGIC)
    && (w.published != [] ==>
          var p := w.published[|w.published| - 1];
          && w.mem.magic == MAGIC && w.mem.version == VERSION && w.mem.id == p.id
          && Image(w.mem.data[..w.mem.used], w.mem.meta) == p.image)
  }

  /** What a client received: images put, unchanged, in the order of the puts, none of them twice. */
  ghost predicate ReaderOk(w: World, rd: Reader) {
    && |rd.got| == |rd.images|
    && (forall i | 0 <= i < |rd.got| :: rd.got[i] < |w.published| && rd.images[i] == w.published[rd.got[i]].image)
    && (forall i, j | 0 <= i < j < |rd.got| :: rd.got[i] < rd.got[j])
    && (forall i | 0 <= i < |rd.got| :: rd.got[i] < rd.seen)
    && rd.seen <= |w.published|
    && rd.lastId == if rd.seen == 0 then 0 else w.published[rd.seen - 1].id
  }

  ghost predicate WorldOk(w: World) {
    MemOk(w) && forall r | 0 <= r < |w.readers| :: ReaderOk(w, w.readers[r])
  }

  /** A get finds an image exactly when there are puts the client has not looked at, and it is the newest. */
  lemma GetIsFresh(w: World, r: nat)
    requires WorldOk(w) && GoodIds(w.published) && r < |w.readers|
    ensures var rd, n := w.readers[r], |w.published|;
      && (GetOutcome(w.mem, rd.lastId).Got? <==> rd.seen < n)
      && (GetOutcome(w.mem, rd.lastId).Got? ==> GetOutcome(w.mem, rd.lastId).image == w.published[n - 1].image)
      && !GetOutcome(w.mem, rd.lastId).Failed?
  {
    assert ReaderOk(w, w.readers[r]);
  }

  lemma PutOk(w: World, image: Image, id: bv64)
    requires WorldOk(w) && |image.data| <= |w.mem.data|
    ensures WorldOk(Apply(w, Op.Put(image, id, true)))
  {
    var w' := Apply(w, Op.Put(image, id, true));
    assert w'.mem.data[..w'.mem.used] == image.data;
    forall r | 0 <= r < |w'.readers|
      ensures ReaderOk(w', w'.readers[r])
    {
      assert ReaderOk(w, w.readers[r]);
    }
  }

  /** A reader that takes the newest image, which it had not seen, is still in order. */
  lemma ReaderTakes(w: World, rd: Reader, unlocks: bool)
    requires ReaderOk(w, rd) && rd.seen < |w.published|
    ensures var n := |w.published|;
      ReaderOk(w, Reads(rd, w.published[n - 1].id, n, w.published[n - 1].image, unlocks))
  {
  }

  lemma GetOk(w: World, r: nat, keyRequired: bool, now: real, unlocks: bool)
    requires WorldOk(w) && GoodIds(w.published) && r < |w.readers|
    ensures WorldOk(Apply(w, Op.Get(r, keyRequired, now, unlocks)))
  {
    var w' := Apply(w, Op.Get(r, keyRequired, now, unlocks));
    GetIsFresh(w, r);
    assert ReaderOk(w, w.readers[r]);
    if GetOutcome(w.mem, w.readers[r].lastId).Got? {
      ReaderTakes(w, w.readers[r], unlocks);
    }
    assert ReaderOk(w, w'.readers[r]);
    forall q | 0 <= q < |w'.readers|
      ensures ReaderOk(w', w'.readers[q])
    {
      SameReader(w, w', w'.readers[q]);
    }
  }

  lemma SameReader(w: World, w': World, rd: Reader)
    requires ReaderOk(w, rd) && w'.published == w.published
    ensures ReaderOk(w', rd)
  {
  }

  lemma ApplyOk(w: World, op: Op)
    requires WorldOk(w) && GoodIds(w.published)
    ensures WorldOk(Apply(w, op))
    ensures w.published <= Apply(w, op).published
  {
    match op
    case Put(image, id, locked) =>
      if |image.data| <= |w.mem.data| && locked {
        PutOk(w, image, id);
      }
    case Get(r, keyRequired, now, unlocks) =>
      if r < |w.readers| {
        GetOk(w, r, keyRequired, now, unlocks);
      }
  }

  /** A run of operations, with the region well formed so that every operation makes sense. */
  ghost predicate IsRun(ws: seq<World>, ops: seq<Op>) {
    && |ws| == |ops| + 1
    && (exists size: nat, readers: nat, meta :: ws[0] == Start(size, readers, meta))
    && forall i | 0 <= i < |ops| :: ws[i].mem.used <= |ws[i].mem.data| && ws[i + 1] == Apply(ws[i], ops[i])
  }

  lemma PrefixIds(a: seq<Published>, b: seq<Published>)
    requires a <= b && GoodIds(b)
    ensures GoodIds(a)
  {
    assert forall i | 0 <= i < |a| :: a[i] == b[i];
  }

  lemma PublishedGrows(w: World, op: Op)
    requires w.mem.used <= |w.mem.data|
    ensures w.published <= Apply(w, op).published
  {
  }

  /**
   Whatever the interleaving of puts and gets, with or without failing unlocks: if the ids of
   the puts differ, every client receives a subsequence of the images put, in order, never
   one twice, and unchanged.
   */
  lemma {:induction false} ReadersInOrder(ws: seq<World>, ops: seq<Op>, i: nat)
    requires IsRun(ws, ops) && i < |ws| && GoodIds(ws[i].published)
    ensures WorldOk(ws[i])
  {
    if i == 0 {
      assert WorldOk(ws[0]);
    } else {
      assert ws[i] == Apply(ws[i - 1], ops[i - 1]);
      PublishedGrows(ws[i - 1], ops[i - 1]);
      PrefixIds(ws[i - 1].published, ws[i].published);
      ReadersInOrder(ws, ops, i - 1);
      ApplyOk(ws[i - 1], ops[i - 1]);
    }
  }

  /** Puts at clock readings that differ mod 2^32 have good ids, so fresh clients never confuse them. */
  lemma ClockIdsAreGood(ps: seq<Published>, clock: seq<bv64>)
    requires |clock| == |ps| && forall i | 0 <= i < |ps| :: ps[i].id == FrameIds.NowId(clock[i])
    requires forall i, j | 0 <= i < j < |ps| :: FrameIds.Low(clock[i]) != FrameIds.Low(clock[j])
    ensures GoodIds(ps)
  {
    forall i | 0 <= i < |ps|
      ensures ps[i].id != 0
    {
      FrameIds.NowIdDistinct(clock[i], clock[i]);
    }
    forall i, j | 0 <= i < j < |ps|
      ensures ps[i].id != ps[j].id
    {
      FrameIds.NowIdDistinct(clock[i], clock[j]);
    }
  }

  function ApplyAll(w: World, ops: seq<Op>): (w': World)
    requires w.mem.used <= |w.mem.data|
    ensures w'.mem.used <= |w'.mem.data| == |w.mem.data|
  {
    if ops == [] then w else Apply(ApplyAll(w, ops[..|ops| - 1]), ops[|ops| - 1])
  }

  /** The operations without the puts of frames that do not fit. */
  function Fitting(ops: seq<Op>, size: nat): seq<Op> {
    if ops == [] then []
    else
      var front, op := Fitting(ops[..|ops| - 1], size), ops[|ops| - 1];
      if op.Put? && |op.image.data| > size then front else front + [op]
  }

  /** Oversized frames are as if they had never been put: no client and no later put can tell. */
  lemma {:induction false} OversizedIgnored(w: World, ops: seq<Op>)
    requires w.mem.used <= |w.mem.data|
    ensures ApplyAll(w, ops) == ApplyAll(w, Fitting(ops, |w.mem.data|))
  {
    if ops != [] {
      var front, size := ops[..|ops| - 1], |w.mem.data|;
      OversizedIgnored(w, front);
      assert (Fitting(front, size) + [ops[|ops| - 1]])[..|Fitting(front, size)|] == Fitting(front, size);
    }
  }

  // ---------------------------------------------------------------- when clients were last seen

  /** The clock of the last get among the first i operations that found the region in use. */
  function LastVisit(ws: seq<World>, ops: seq<Op>, i: nat): real
    requires i <= |ops| < |ws|
  {
    if i == 0 then 0.0
    else if ops[i - 1].Get? && ops[i - 1].r < |ws[i - 1].readers| && ws[i - 1].published != [] then ops[i - 1].now
    else LastVisit(ws, ops, i - 1)
  }

  /** What server_put compares with the clock to tell whether there are clients. */
  lemma {:induction false} LastVisitExact(ws: seq<World>, ops: seq<Op>, i: nat)
    requires IsRun(ws, ops) && i < |ws|
    ensures ws[i].mem.lastClientTs == LastVisit(ws, ops, i)
    ensures (ws[i].mem.magic == MAGIC && ws[i].mem.version == VERSION) <==> ws[i].published != []
    ensures ws[i].published == [] ==> ws[i].mem.magic != MAGIC
  {
    if i > 0 {
      LastVisitExact(ws, ops, i - 1);
      assert ws[i] == Apply(ws[i - 1], ops[i - 1]);
    }
  }

  /** A region of another program or version is left alone, and nothing is read from it. */
  lemma ForeignRegion(m: Mem, lastId: bv64, keyRequired: bool, now: real)
    requires m.used <= |m.data| && (m.magic != MAGIC || m.version != VERSION)
    ensures GetMem(m, lastId, keyRequired, now) == m && !GetOutcome(m, lastId).Got?
    ensures GetOutcome(m, lastId).Failed? <==> m.magic == MAGIC
  {
  }
}
