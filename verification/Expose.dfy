/** The HTTP server: which frame it exposes, when it drops a repeated one, and its client list. */
module Exposure {
  import opened Common
  import opened Frames
  import opened LinkedLists

  // ---------------------------------------------------------------- the exposed frame

  datatype Exposed = Exposed(image: Image, dropped: nat)

  function Online(image: Image, online: bool): Image {
    image.(meta := image.meta.(online := online))
  }

  predicate Same(a: Image, b: Image) {
    a.data == b.data && a.meta.SameGeometry(b.meta)
  }

  predicate Drops(limit: nat, ex: Exposed, f: Image) {
    limit > 0 && f.meta.online && ex.dropped < limit && Same(ex.image, f)
  }

  /** The exposed state after one frame; an empty frame only changes the online mark. */
  function Expose(limit: nat, ex: Exposed, f: Image): Exposed {
    if Drops(limit, ex, f) then ex.(dropped := ex.dropped + 1)
    else if f.data == [] then Exposed(Online(ex.image, f.meta.online), 0)
    else Exposed(f, 0)
  }

  function Run(limit: nat, first: Image, fs: seq<Image>): Exposed {
    if fs == [] then Exposed(first, 0)
    else Expose(limit, Run(limit, first, fs[..|fs| - 1]), fs[|fs| - 1])
  }

  /** What the last frame of the sequence was answered with: true when it was exposed. */
  predicate Updated(limit: nat, first: Image, fs: seq<Image>)
    requires fs != []
  {
    !Drops(limit, Run(limit, first, fs[..|fs| - 1]), fs[|fs| - 1])
  }

  /** The latest frame with bytes in it, or the one exposed before all of them. */
  function LatestWithData(first: Image, fs: seq<Image>): Image {
    if fs == [] then first
    else if fs[|fs| - 1].data != [] then fs[|fs| - 1]
    else LatestWithData(first, fs[..|fs| - 1])
  }

  function LatestOnline(first: Image, fs: seq<Image>): bool {
    if fs == [] then first.meta.online else fs[|fs| - 1].meta.online
  }

  /**
   Dropping is invisible: after any frames, the exposed frame has the bytes and the geometry
   of the latest non-empty frame and the online mark of the latest frame.
   */
  lemma {:induction false} DroppingIsInvisible(limit: nat, first: Image, fs: seq<Image>)
    ensures Same(Run(limit, first, fs).image, Online(LatestWithData(first, fs), LatestOnline(first, fs)))
    ensures Run(limit, first, fs).dropped <= limit
  {
    if fs != [] {
      var front, f := fs[..|fs| - 1], fs[|fs| - 1];
      DroppingIsInvisible(limit, first, front);
    }
  }

  /**
   Without empty frames, the exposed one is, timings and all, the `dropped`-th last of the
   frames that arrived; it is the one from before all of them only if that one was online.
   */
  lemma {:induction false} HowOld(limit: nat, first: Image, fs: seq<Image>)
    requires forall i | 0 <= i < |fs| :: fs[i].data != []
    ensures var ex := Run(limit, first, fs);
      && ex.dropped <= |fs| && ex.image == ([first] + fs)[|fs| - ex.dropped]
      && (fs != [] && (first.data == [] || !first.meta.online) ==> ex.dropped < |fs|)
  {
    if fs != [] {
      var front := fs[..|fs| - 1];
      HowOld(limit, first, front);
      var ex := Run(limit, first, front);
      assert ([first] + front)[|front| - ex.dropped] == ([first] + fs)[|front| - ex.dropped];
    }
  }

  /** The last n frames were all dropped. */
  predicate Silent(limit: nat, first: Image, fs: seq<Image>, n: nat) {
    n == 0 || (fs != [] && !Updated(limit, first, fs) && Silent(limit, first, fs[..|fs| - 1], n - 1))
  }

  /** `dropped` counts exactly the frames dropped in a row; so limit + 1 in a row never are. */
  lemma {:induction false} NoLongSilence(limit: nat, first: Image, fs: seq<Image>, n: nat)
    ensures Silent(limit, first, fs, n) <==> n <= Run(limit, first, fs).dropped
    ensures Silent(limit, first, fs, n) ==> n <= limit
  {
    DroppingIsInvisible(limit, first, fs);
    if n > 0 && fs != [] {
      NoLongSilence(limit, first, fs[..|fs| - 1], n - 1);
    }
  }

  /**
   When the next frame is dropped: it is online and, timings apart, it is the latest picture
   under the latest online mark, and fewer than `limit` frames were dropped just before it.
   */
  lemma DroppedIff(limit: nat, first: Image, fs: seq<Image>, f: Image)
    ensures !Updated(limit, first, fs + [f])
      <==> f.meta.online && Same(Online(LatestWithData(first, fs), LatestOnline(first, fs)), f)
           && limit > 0 && !Silent(limit, first, fs, limit)
  {
    assert (fs + [f])[..|fs|] == fs;
    DroppingIsInvisible(limit, first, fs);
    NoLongSilence(limit, first, fs, limit);
  }

  function Repeated(f: Image, n: nat): (fs: seq<Image>)
    ensures |fs| == n
  {
    if n == 0 then [] else Repeated(f, n - 1) + [f]
  }

  /** A picture that stands still is exposed once in limit + 1 frames. */
  lemma {:induction false} StandingStill(limit: nat, first: Image, f: Image, n: nat)
    requires f.meta.online && f.data != [] && !Same(first, f) && n > 0
    ensures Run(limit, first, Repeated(f, n)) == Exposed(f, (n - 1) % (limit + 1))
  {
    var fs := Repeated(f, n);
    assert fs[..n - 1] == Repeated(f, n - 1) && fs[n - 1] == f;
    if n > 1 {
      StandingStill(limit, first, f, n - 1);
      NextMod(n - 2, limit + 1);
    } else {
      assert Repeated(f, 0) == [];
    }
  }

  lemma NextMod(i: nat, m: nat)
    requires m > 0
    ensures (i + 1) % m == if i % m + 1 == m then 0 else i % m + 1
  {
    var q, r := i / m, i % m;
    assert i == q * m + r;
    if r + 1 == m {
      assert i + 1 == (q + 1) * m;
      DivOf(i + 1, m, q + 1, 0);
    } else {
      DivOf(i + 1, m, q, r + 1);
    }
  }

  class Server {
    const limit: nat          // drop_same_frames
    const frame: Frame        // exposed->frame
    var dropped: nat

    ghost predicate Valid()
      reads this, frame
    {
      frame.Valid() && frame.data.Length > 0
    }

    ghost function State(): Exposed
      requires Valid()
      reads this, frame, frame.data
    {
      Exposed(frame.Value(), dropped)
    }

    /** us_server_init */
    constructor (limit: nat, meta: Meta)
      ensures Valid() && fresh(frame) && fresh(frame.data)
      ensures State() == Run(limit, Image([], meta), []) && this.limit == limit
    {
      this.limit := limit;
      frame := new Frame(512 * 1024, meta);
      dropped := 0;
    }

    /** What us_server_listen does before frames arrive: the blank picture, which is offline, is exposed. */
    method Listen(blank: Frame)
      requires Valid() && blank.Valid() && blank != frame && blank.data != frame.data
      modifies frame, frame.data
      ensures Valid() && (frame.data == old(frame.data) || fresh(frame.data))
      ensures State() == Exposed(old(blank.Value()), old(dropped))
      ensures old(dropped) == 0 ==> State() == Run(limit, old(blank.Value()), [])
    {
      frame.CopyFrom(blank);
    }

    /** _expose_frame; every frame is born with a buffer, and buffers never shrink. */
    method ExposeFrame(f: Frame) returns (updated: bool)
      requires Valid() && f.Valid() && f.data.Length > 0 && f != frame && f.data != frame.data
      modifies `dropped, frame, frame.data
      ensures Valid() && (frame.data == old(frame.data) || fresh(frame.data))
      ensures State() == Expose(limit, old(State()), old(f.Value()))
      ensures updated == !Drops(limit, old(State()), old(f.Value()))
    {
      if limit > 0 && f.meta.online {
        var needDrop := dropped < limit;
        var maybeSame := false;
        if needDrop {
          maybeSame := frame.Compare(f);
        }
        if needDrop && maybeSame {
          dropped := dropped + 1;
          return false;
        }
      }
      if f.used == 0 {
        frame.meta := frame.meta.(online := f.meta.online);
      } else {
        frame.CopyFrom(f);
      }
      dropped := 0;
      return true;
    }
  }

  // ---------------------------------------------------------------- the streaming clients

  class StreamClients<T> {
    const list: List<T>
    var count: nat
    var hasClients: bool

    /** The counted list and the flag the encoder threads look at agree with each other. */
    ghost predicate Valid()
      reads this, list, list.nodes
    {
      list.Valid() && count == |list.nodes| && hasClients == (count > 0)
    }

    constructor ()
      ensures Valid() && fresh(list) && list.items == []
    {
      list := new List();
      count, hasClients := 0, false;
    }

    method Add(client: Node<T>)
      requires Valid() && client !in list.nodes && client.prev == null
      modifies this, list, list.repr, client`prev, client`next
      ensures Valid() && list.items == old(list.items) + [old(client.item)] && list.repr == old(list.repr) + {client}
      ensures hasClients
    {
      list.Append(client);
      count := count + 1;
      if count == 1 {
        hasClients := true;
      }
    }

    method Remove(client: Node<T>, ghost k: nat)
      requires Valid() && k < |list.nodes| && list.nodes[k] == client
      modifies this, list, list.repr
      ensures Valid() && list.items == old(list.items[..k] + list.items[k + 1..]) && list.repr == old(list.repr)
      ensures hasClients <==> list.items != []
    {
      list.Remove(client, k);
      count := count - 1;
      if count == 0 {
        hasClients := false;
      }
    }
  }

  // ---------------------------------------------------------------- who is sent what

  /** One run of the refresher: whether the stream moved and whether the exposed frame changed. */
  datatype Tick = Tick(stream: bool, frame: bool)

  datatype Viewer = Viewer(needFirst: bool, updatedPrev: bool)

  predicate Writes(dual: bool, v: Viewer, t: Tick) {
    (dual && t.stream && v.updatedPrev && !t.frame) || t.frame || v.needFirst
  }

  /** One pass of _http_send_stream over one connected client; needFirst is cleared before it is read again. */
  function Serve(dual: bool, v: Viewer, t: Tick): Viewer {
    if Writes(dual, v, t) then Viewer(false, t.frame)
    else if t.stream then v.(updatedPrev := false)
    else v
  }

  function ServeAll(dual: bool, ts: seq<Tick>): Viewer {
    if ts == [] then Viewer(true, false) else Serve(dual, ServeAll(dual, ts[..|ts| - 1]), ts[|ts| - 1])
  }

  /** The stream moved and the frame did not, right after it had changed: the end of a series. */
  predicate EndsSeries(ts: seq<Tick>) {
    ts != [] && ts[|ts| - 1].stream && !ts[|ts| - 1].frame && JustChanged(ts[..|ts| - 1])
  }

  /** The last tick that moved the stream also changed the frame. */
  predicate JustChanged(ts: seq<Tick>) {
    if ts == [] then false
    else if ts[|ts| - 1].stream then ts[|ts| - 1].frame
    else JustChanged(ts[..|ts| - 1])
  }

  lemma {:induction false} ViewerExact(dual: bool, ts: seq<Tick>)
    requires forall i | 0 <= i < |ts| :: ts[i].frame ==> ts[i].stream
    ensures ServeAll(dual, ts) == Viewer(ts == [], JustChanged(ts))
  {
    if ts != [] {
      ViewerExact(dual, ts[..|ts| - 1]);
    }
  }

  /**
   A client is written to on its first tick, on every change of the frame, and, if it asked
   for dual final frames, once more at the end of a series, and at no other time.
   */
  lemma WritesExactly(dual: bool, ts: seq<Tick>, t: Tick)
    requires forall i | 0 <= i < |ts| :: ts[i].frame ==> ts[i].stream
    requires t.frame ==> t.stream
    ensures Writes(dual, ServeAll(dual, ts), t) <==> t.frame || ts == [] || (dual && EndsSeries(ts + [t]))
  {
    ViewerExact(dual, ts);
    assert (ts + [t])[..|ts|] == ts;
  }
}
