/** The Janus plugin: the client list and the three global flags its session callbacks maintain. */
module JanusPlugin {
  import opened Common
  import opened LinkedLists

  datatype Client = Client(session: nat, transmit: bool, acap: bool, aplay: bool, orient: int)

  /** The list and the flags as a value. */
  datatype Sessions = Sessions(clients: seq<Client>, watchers: bool, listeners: bool, speakers: bool)

  // ---------------------------------------------------------------- the callbacks on values

  function Without(cs: seq<Client>, session: nat): seq<Client> {
    if cs == [] then []
    else if cs[0].session == session then Without(cs[1..], session)
    else [cs[0]] + Without(cs[1..], session)
  }

  predicate Has(cs: seq<Client>, session: nat) {
    cs != [] && (cs[0].session == session || Has(cs[1..], session))
  }

  predicate AnyTransmit(cs: seq<Client>) { exists i | 0 <= i < |cs| :: cs[i].transmit }
  predicate AnyAcap(cs: seq<Client>) { exists i | 0 <= i < |cs| :: cs[i].acap }
  predicate AnyAplay(cs: seq<Client>) { exists i | 0 <= i < |cs| :: cs[i].aplay }

  /** What the walks accumulate: whether some client so far transmits, listens, speaks. */
  datatype Tally = Tally(transmit: bool, acap: bool, aplay: bool)

  function Add(t: Tally, c: Client): Tally {
    Tally(t.transmit || c.transmit, t.acap || c.acap, t.aplay || c.aplay)
  }

  function Count(cs: seq<Client>): Tally {
    if cs == [] then Tally(false, false, false)
    else Add(Count(cs[..|cs| - 1]), cs[|cs| - 1])
  }

  function WithSession(s: Sessions, session: nat): Sessions {
    s.(clients := s.clients + [Client(session, false, false, false, 0)], watchers := true)
  }

  function WithoutSession(s: Sessions, session: nat): Sessions {
    var cs := Without(s.clients, session);
    Sessions(cs, Count(cs).transmit, Count(cs).acap, Count(cs).aplay)
  }

  /** The client after the "watch" request or a transmit change, if it is the one addressed. */
  function Changed(c: Client, session: nat, change: Change): Client {
    if c.session != session then c
    else match change
      case Transmit(on) => c.(transmit := on)
      case Watch(acap, aplay, orient) => c.(acap := acap, aplay := aplay, orient := orient)
  }

  datatype Change = Transmit(on: bool) | Watch(acap: bool, aplay: bool, orient: int)

  function ChangeAll(cs: seq<Client>, session: nat, change: Change): (r: seq<Client>)
    ensures |r| == |cs|
  {
    if cs == [] then [] else [Changed(cs[0], session, change)] + ChangeAll(cs[1..], session, change)
  }

  function WithTransmit(s: Sessions, session: nat, on: bool): Sessions {
    var cs := ChangeAll(s.clients, session, Transmit(on));
    s.(clients := cs, watchers := Count(cs).transmit)
  }

  /** The JSON integer is narrowed to 32 bits before the switch looks at it. */
  function Orientation(value: int): (r: int)
    ensures r in {0, 90, 180, 270}
    ensures value in {90, 180, 270} ==> r == value
    ensures r != 0 ==> (value - r) % 0x1_0000_0000 == 0
    ensures r == 0 ==> value % 0x1_0000_0000 !in {90, 180, 270}
  {
    var narrowed := value % 0x1_0000_0000;
    if narrowed in {90, 180, 270} then narrowed else 0
  }

  /** What the "watch" request asks for; the plugin may lack audio capture or a playback device. */
  datatype WatchParams = WatchParams(audio: Option<bool>, mic: Option<bool>, orientation: Option<int>)

  function WatchChange(params: Option<WatchParams>, hasAudio: bool, hasPlayback: bool): Change {
    if params.None? then Watch(false, false, 0)
    else
      var p := params.value;
      var acap := hasAudio && p.audio == Some(true);
      var aplay := hasPlayback && acap && p.mic == Some(true);
      Watch(acap, aplay, if p.orientation.Some? then Orientation(p.orientation.value) else 0)
  }

  function WithWatch(s: Sessions, session: nat, change: Change): Sessions {
    var cs := ChangeAll(s.clients, session, change);
    s.(clients := cs, listeners := Count(cs).acap, speakers := Count(cs).aplay)
  }

  // ---------------------------------------------------------------- every run of callbacks

  datatype Call =
    | CreateSession(session: nat)
    | DestroySession(session: nat)
    | SetupMedia(session: nat)
    | HangupMedia(session: nat)
    | WatchRequest(session: nat, params: Option<WatchParams>)

  function Do(s: Sessions, call: Call, hasAudio: bool, hasPlayback: bool): Sessions {
    match call
    case CreateSession(x) => WithSession(s, x)
    case DestroySession(x) => WithoutSession(s, x)
    case SetupMedia(x) => WithTransmit(s, x, true)
    case HangupMedia(x) => WithTransmit(s, x, false)
    case WatchRequest(x, params) => WithWatch(s, x, WatchChange(params, hasAudio, hasPlayback))
  }

  function DoAll(calls: seq<Call>, hasAudio: bool, hasPlayback: bool): Sessions {
    if calls == [] then Sessions([], false, false, false)
    else Do(DoAll(calls[..|calls| - 1], hasAudio, hasPlayback), calls[|calls| - 1], hasAudio, hasPlayback)
  }

  ghost predicate ClientOk(c: Client) {
    (c.aplay ==> c.acap) && c.orient in {0, 90, 180, 270}
  }

  ghost predicate FlagsOk(s: Sessions) {
    && (s.listeners <==> AnyAcap(s.clients))
    && (s.speakers <==> AnyAplay(s.clients))
    && (AnyTransmit(s.clients) ==> s.watchers)
    && (forall i | 0 <= i < |s.clients| :: ClientOk(s.clients[i]))
  }

  lemma {:induction false} WithoutOk(cs: seq<Client>, session: nat)
    requires forall i | 0 <= i < |cs| :: ClientOk(cs[i])
    ensures forall i | 0 <= i < |Without(cs, session)| :: ClientOk(Without(cs, session)[i])
    ensures !Has(Without(cs, session), session)
  {
    if cs != [] {
      WithoutOk(cs[1..], session);
      if cs[0].session != session {
        assert ([cs[0]] + Without(cs[1..], session))[1..] == Without(cs[1..], session);
      }
    }
  }

  /** What a change makes of the client at a place: the addressed ones get what was asked for, the others nothing. */
  lemma ChangeExact(cs: seq<Client>, session: nat, change: Change, i: nat)
    requires i < |cs|
    ensures var c, c' := cs[i], ChangeAll(cs, session, change)[i];
      && c'.session == c.session
      && (c.session != session ==> c' == c)
      && (c.session == session && change.Transmit? ==>
            c'.transmit == change.on && c'.acap == c.acap && c'.aplay == c.aplay && c'.orient == c.orient)
      && (c.session == session && change.Watch? ==>
            c'.transmit == c.transmit && c'.acap == change.acap && c'.aplay == change.aplay && c'.orient == change.orient)
  {
    ChangeAt(cs, session, change, i);
  }

  // Sessions do not see each other's calls.

  /** The clients of one session, in order. */
  function Of(cs: seq<Client>, session: nat): seq<Client> {
    if cs == [] then []
    else Mine(cs[0], session) + Of(cs[1..], session)
  }

  function CallsOf(calls: seq<Call>, session: nat): seq<Call> {
    if calls == [] then []
    else CallsOf(calls[..|calls| - 1], session) + (if calls[|calls| - 1].session == session then [calls[|calls| - 1]] else [])
  }

  function Mine(c: Client, session: nat): seq<Client> {
    if c.session == session then [c] else []
  }

  lemma OfFirst(c: Client, rest: seq<Client>, session: nat)
    ensures Of([c] + rest, session) == Mine(c, session) + Of(rest, session)
  {
    assert ([c] + rest)[0] == c && ([c] + rest)[1..] == rest;
  }

  lemma {:induction false} OfAppend(cs: seq<Client>, c: Client, session: nat)
    ensures Of(cs + [c], session) == Of(cs, session) + Mine(c, session)
  {
    if cs == [] {
      assert [] + [c] == [c] + [];
      OfFirst(c, [], session);
    } else {
      assert cs + [c] == [cs[0]] + (cs[1..] + [c]);
      OfFirst(cs[0], cs[1..] + [c], session);
      OfAppend(cs[1..], c, session);
      Associate(Mine(cs[0], session), Of(cs[1..], session), Mine(c, session));
    }
  }

  lemma {:induction false} OfWithout(cs: seq<Client>, gone: nat, session: nat)
    ensures Of(Without(cs, gone), session) == if gone == session then [] else Of(cs, session)
  {
    if cs != [] {
      OfWithout(cs[1..], gone, session);
      if cs[0].session != gone {
        OfFirst(cs[0], Without(cs[1..], gone), session);
      }
    }
  }

  lemma ChangeFirst(c: Client, rest: seq<Client>, session: nat, change: Change)
    ensures ChangeAll([c] + rest, session, change) == [Changed(c, session, change)] + ChangeAll(rest, session, change)
  {
    assert ([c] + rest)[1..] == rest;
  }

  lemma {:induction false} OfChanged(cs: seq<Client>, target: nat, change: Change, session: nat)
    ensures Of(ChangeAll(cs, target, change), session)
      == if target == session then ChangeAll(Of(cs, session), session, change) else Of(cs, session)
  {
    if cs != [] {
      OfChanged(cs[1..], target, change, session);
      OfFirst(Changed(cs[0], target, change), ChangeAll(cs[1..], target, change), session);
      if cs[0].session != session {
        assert Of(cs, session) == Of(cs[1..], session);
      } else if target == session {
        ChangeFirst(cs[0], Of(cs[1..], session), session, change);
      }
    }
  }

  /** The clients of a session as one call leaves them. */
  lemma CallOn(s: Sessions, call: Call, hasAudio: bool, hasPlayback: bool, session: nat)
    ensures var after := Do(s, call, hasAudio, hasPlayback).clients;
      && (call.session != session ==> Of(after, session) == Of(s.clients, session))
      && (call.session == session ==> Of(after, session) == match call
          case CreateSession(_) => Of(s.clients, session) + [Client(session, false, false, false, 0)]
          case DestroySession(_) => []
          case SetupMedia(_) => ChangeAll(Of(s.clients, session), session, Transmit(true))
          case HangupMedia(_) => ChangeAll(Of(s.clients, session), session, Transmit(false))
          case WatchRequest(_, params) => ChangeAll(Of(s.clients, session), session, WatchChange(params, hasAudio, hasPlayback)))
  {
    match call
    case CreateSession(x) => OfAppend(s.clients, Client(x, false, false, false, 0), session);
    case DestroySession(x) => OfWithout(s.clients, x, session);
    case SetupMedia(x) => OfChanged(s.clients, x, Transmit(true), session);
    case HangupMedia(x) => OfChanged(s.clients, x, Transmit(false), session);
    case WatchRequest(x, params) => OfChanged(s.clients, x, WatchChange(params, hasAudio, hasPlayback), session);
  }

  /** The clients of a session depend on the calls for that session and on no others. */
  lemma {:induction false} SessionsApart(calls: seq<Call>, hasAudio: bool, hasPlayback: bool, session: nat)
    ensures Of(DoAll(calls, hasAudio, hasPlayback).clients, session)
      == Of(DoAll(CallsOf(calls, session), hasAudio, hasPlayback).clients, session)
  {
    if calls != [] {
      var front, call := calls[..|calls| - 1], calls[|calls| - 1];
      SessionsApart(front, hasAudio, hasPlayback, session);
      CallOn(DoAll(front, hasAudio, hasPlayback), call, hasAudio, hasPlayback, session);
      var mine := CallsOf(front, session);
      if call.session == session {
        assert CallsOf(calls, session) == mine + [call] && (mine + [call])[..|mine|] == mine;
        CallOn(DoAll(mine, hasAudio, hasPlayback), call, hasAudio, hasPlayback, session);
      } else {
        assert CallsOf(calls, session) == mine;
      }
    }
  }

  /** What a "watch" request leaves a client with, and later calls for other sessions do not touch. */
  predicate Heard(c: Client, params: Option<WatchParams>, hasAudio: bool, hasPlayback: bool) {
    && (c.acap <==> hasAudio && params.Some? && params.value.audio == Some(true))
    && (c.aplay <==> c.acap && hasPlayback && params.value.mic == Some(true))
    && c.orient == if params.Some? && params.value.orientation.Some? then Orientation(params.value.orientation.value) else 0
  }

  lemma {:induction false} OfHas(cs: seq<Client>, session: nat, c: Client)
    ensures c in Of(cs, session) <==> c in cs && c.session == session
  {
    if cs != [] {
      OfHas(cs[1..], session, c);
      assert cs == [cs[0]] + cs[1..];
    }
  }

  lemma {:induction false} OfStays(calls: seq<Call>, more: seq<Call>, hasAudio: bool, hasPlayback: bool, session: nat)
    requires forall i | 0 <= i < |more| :: more[i].session != session
    ensures Of(DoAll(calls + more, hasAudio, hasPlayback).clients, session) == Of(DoAll(calls, hasAudio, hasPlayback).clients, session)
  {
    if more == [] {
      assert calls + more == calls;
    } else {
      var front, call := more[..|more| - 1], more[|more| - 1];
      assert (calls + more)[..|calls + more| - 1] == calls + front;
      OfStays(calls, front, hasAudio, hasPlayback, session);
      CallOn(DoAll(calls + front, hasAudio, hasPlayback), call, hasAudio, hasPlayback, session);
    }
  }

  lemma AllHeard(cs: seq<Client>, session: nat, params: Option<WatchParams>, hasAudio: bool, hasPlayback: bool, c: Client)
    requires c in ChangeAll(cs, session, WatchChange(params, hasAudio, hasPlayback)) && c.session == session
    ensures Heard(c, params, hasAudio, hasPlayback)
  {
    var change := WatchChange(params, hasAudio, hasPlayback);
    var i: nat :| i < |cs| && ChangeAll(cs, session, change)[i] == c;
    ChangeExact(cs, session, change, i);
  }

  /** After a "watch" request, until the next call for its session, its clients have what it asked for. */
  lemma {:induction false} RequestHeard(calls: seq<Call>, x: nat, params: Option<WatchParams>, more: seq<Call>,
                     hasAudio: bool, hasPlayback: bool, c: Client)
    requires forall i | 0 <= i < |more| :: more[i].session != x
    requires c in DoAll(calls + [WatchRequest(x, params)] + more, hasAudio, hasPlayback).clients && c.session == x
    ensures Heard(c, params, hasAudio, hasPlayback)
  {
    var upTo := calls + [WatchRequest(x, params)];
    assert upTo[..|calls|] == calls;
    OfStays(upTo, more, hasAudio, hasPlayback, x);
    OfHas(DoAll(upTo + more, hasAudio, hasPlayback).clients, x, c);
    OfHas(DoAll(upTo, hasAudio, hasPlayback).clients, x, c);
    AllHeard(DoAll(calls, hasAudio, hasPlayback).clients, x, params, hasAudio, hasPlayback, c);
  }

  /** The clients of other sessions all stay, and only they do. */
  lemma {:induction false} WithoutKeepsOthers(cs: seq<Client>, session: nat, c: Client)
    ensures multiset(Without(cs, session))[c] == if c.session == session then 0 else multiset(cs)[c]
  {
    if cs != [] {
      WithoutKeepsOthers(cs[1..], session, c);
      assert cs == [cs[0]] + cs[1..];
    }
  }

  lemma AppendAny(cs: seq<Client>, c: Client)
    ensures AnyTransmit(cs + [c]) <==> AnyTransmit(cs) || c.transmit
    ensures AnyAcap(cs + [c]) <==> AnyAcap(cs) || c.acap
    ensures AnyAplay(cs + [c]) <==> AnyAplay(cs) || c.aplay
  {
    var all := cs + [c];
    assert all[|cs|] == c;
    assert forall i | 0 <= i < |cs| :: all[i] == cs[i];
  }

  lemma {:induction false} ChangeAt(cs: seq<Client>, session: nat, change: Change, i: nat)
    requires i < |cs|
    ensures ChangeAll(cs, session, change)[i] == Changed(cs[i], session, change)
  {
    if i > 0 {
      ChangeAt(cs[1..], session, change, i - 1);
    }
  }

  lemma {:induction false} CountExact(cs: seq<Client>)
    ensures Count(cs) == Tally(AnyTransmit(cs), AnyAcap(cs), AnyAplay(cs))
  {
    if cs != [] {
      CountExact(cs[..|cs| - 1]);
      AppendAny(cs[..|cs| - 1], cs[|cs| - 1]);
      assert cs == cs[..|cs| - 1] + [cs[|cs| - 1]];
    }
  }

  /** Changing what a client transmits leaves its audio alone, and the other way round. */
  lemma ChangeKeeps(cs: seq<Client>, session: nat, change: Change)
    ensures var r := ChangeAll(cs, session, change);
      && (change.Transmit? ==> (AnyAcap(r) <==> AnyAcap(cs)) && (AnyAplay(r) <==> AnyAplay(cs)))
      && (change.Watch? ==> (AnyTransmit(r) <==> AnyTransmit(cs)))
      && Count(r) == Tally(AnyTransmit(r), AnyAcap(r), AnyAplay(r))
      && (forall i | 0 <= i < |cs| :: r[i] == Changed(cs[i], session, change))
  {
    var r := ChangeAll(cs, session, change);
    forall i | 0 <= i < |cs| ensures r[i] == Changed(cs[i], session, change) {
      ChangeAt(cs, session, change, i);
    }
    CountExact(r);
  }

  lemma ChangeKeepsClients(cs: seq<Client>, session: nat, change: Change)
    requires forall i | 0 <= i < |cs| :: ClientOk(cs[i])
    requires change.Watch? ==> (change.aplay ==> change.acap) && change.orient in {0, 90, 180, 270}
    ensures var r := ChangeAll(cs, session, change); forall i | 0 <= i < |r| :: ClientOk(r[i])
  {
    ChangeKeeps(cs, session, change);
  }

  lemma SetMediaKeepsFlags(s: Sessions, session: nat, on: bool)
    requires FlagsOk(s)
    ensures FlagsOk(WithTransmit(s, session, on))
  {
    ChangeKeeps(s.clients, session, Transmit(on));
    ChangeKeepsClients(s.clients, session, Transmit(on));
  }

  lemma WatchKeepsFlags(s: Sessions, session: nat, params: Option<WatchParams>, hasAudio: bool, hasPlayback: bool)
    requires FlagsOk(s)
    ensures FlagsOk(WithWatch(s, session, WatchChange(params, hasAudio, hasPlayback)))
  {
    ChangeKeeps(s.clients, session, WatchChange(params, hasAudio, hasPlayback));
    ChangeKeepsClients(s.clients, session, WatchChange(params, hasAudio, hasPlayback));
  }

  lemma CallKeepsFlags(s: Sessions, call: Call, hasAudio: bool, hasPlayback: bool)
    requires FlagsOk(s)
    ensures FlagsOk(Do(s, call, hasAudio, hasPlayback))
  {
    match call
    case CreateSession(x) => AppendAny(s.clients, Client(x, false, false, false, 0));
    case DestroySession(x) =>
      WithoutOk(s.clients, x);
      CountExact(Without(s.clients, x));
    case SetupMedia(x) => SetMediaKeepsFlags(s, x, true);
    case HangupMedia(x) => SetMediaKeepsFlags(s, x, false);
    case WatchRequest(x, params) => WatchKeepsFlags(s, x, params, hasAudio, hasPlayback);
  }

  /**
   After any run of callbacks the listener and speaker flags say exactly whether some client
   has that stream, a microphone implies audio (so speakers imply listeners), and a
   transmitting client implies the watcher flag.
   */
  lemma {:induction false} FlagsExact(calls: seq<Call>, hasAudio: bool, hasPlayback: bool)
    ensures var s := DoAll(calls, hasAudio, hasPlayback);
      FlagsOk(s) && (s.speakers ==> s.listeners)
  {
    if calls != [] {
      FlagsExact(calls[..|calls| - 1], hasAudio, hasPlayback);
      CallKeepsFlags(DoAll(calls[..|calls| - 1], hasAudio, hasPlayback), calls[|calls| - 1], hasAudio, hasPlayback);
    }
    var s := DoAll(calls, hasAudio, hasPlayback);
    if s.speakers {
      var i :| 0 <= i < |s.clients| && s.clients[i].aplay;
      assert ClientOk(s.clients[i]);
    }
  }

  /** A session was created since the watcher flag was last recomputed from the clients. */
  predicate FreshlyCreated(calls: seq<Call>) {
    if calls == [] then false
    else match calls[|calls| - 1]
      case CreateSession(_) => true
      case WatchRequest(_, _) => FreshlyCreated(calls[..|calls| - 1])
      case _ => false
  }

  /** The watcher flag is up exactly while some client transmits or a session is that fresh. */
  lemma {:induction false} WatchersExact(calls: seq<Call>, hasAudio: bool, hasPlayback: bool)
    ensures var s := DoAll(calls, hasAudio, hasPlayback);
      s.watchers <==> AnyTransmit(s.clients) || FreshlyCreated(calls)
  {
    if calls != [] {
      var before := DoAll(calls[..|calls| - 1], hasAudio, hasPlayback);
      WatchersExact(calls[..|calls| - 1], hasAudio, hasPlayback);
      var now := DoAll(calls, hasAudio, hasPlayback);
      CountExact(now.clients);
      if calls[|calls| - 1].WatchRequest? {
        var call := calls[|calls| - 1];
        ChangeKeeps(before.clients, call.session, WatchChange(call.params, hasAudio, hasPlayback));
      }
    }
  }

  // ---------------------------------------------------------------- the callbacks on the linked list

  lemma CountStep(cs: seq<Client>, c: Client)
    ensures Count(cs + [c]) == Add(Count(cs), c)
  {
    assert (cs + [c])[..|cs|] == cs;
  }

  /** A walk that has left `done` behind moves over one more client. */
  lemma WalkStep(done: seq<Client>, rest: seq<Client>, c: Client)
    requires rest != []
    ensures (done + rest)[|done|] == rest[0]
    ensures (done + rest)[..|done|] + (done + rest)[|done| + 1..] == done + rest[1..]
    ensures (done + rest)[|done| := c] == done + [c] + rest[1..]
  {
  }

  /** What the changing walk has established, one client further. */
  lemma ChangeStep(was: seq<Client>, session: nat, change: Change, done: seq<Client>, rest: seq<Client>)
    requires rest != [] && ChangeAll(was, session, change) == done + ChangeAll(rest, session, change)
    ensures ChangeAll(was, session, change) == done + [Changed(rest[0], session, change)] + ChangeAll(rest[1..], session, change)
  {
    Associate(done, [Changed(rest[0], session, change)], ChangeAll(rest[1..], session, change));
  }

  /** What the removing walk has established, one client further. */
  lemma RemoveStep(was: seq<Client>, session: nat, kept: seq<Client>, rest: seq<Client>, found: bool)
    requires rest != [] && Without(was, session) == kept + Without(rest, session)
    requires Has(was, session) == (found || Has(rest, session))
    ensures rest[0].session == session ==> Without(was, session) == kept + Without(rest[1..], session) && Has(was, session)
    ensures rest[0].session != session ==>
      && Without(was, session) == kept + [rest[0]] + Without(rest[1..], session)
      && Has(was, session) == (found || Has(rest[1..], session))
  {
    Associate(kept, [rest[0]], Without(rest[1..], session));
  }

  /** Every node is visited once although the matching ones are unlinked on the way. */
  method RemoveWalk(list: List<Client>, session: nat) returns (found: bool, t: Tally)
    requires list.Valid()
    modifies list, list.repr
    ensures list.Valid() && list.repr == old(list.repr)
    ensures list.items == Without(old(list.items), session) && t == Count(list.items)
    ensures found == Has(old(list.items), session)
  {
    ghost var was, kept, rest: seq<Client> := list.items, [], list.items;
    ghost var k: nat := 0;
    found, t := false, Tally(false, false, false);
    var client := list.first;
    while client != null
      invariant list.Valid() && list.repr == old(list.repr)
      invariant list.items == kept + rest && k == |kept| && client == NodeAt(list.nodes, k)
      invariant Without(was, session) == kept + Without(rest, session)
      invariant Has(was, session) == (found || Has(rest, session))
      invariant Count(kept) == t
      decreases |rest|
    {
      WalkStep(kept, rest, rest[0]);
      RemoveStep(was, session, kept, rest, found);
      list.NextIs(k);
      assert client.item == rest[0];
      var next := client.next;
      if client.item.session == session {
        list.Remove(client, k);
        assert next == NodeAt(list.nodes, k);
        found := true;
      } else {
        CountStep(kept, client.item);
        t := Add(t, client.item);
        kept, k := kept + [client.item], k + 1;
      }
      rest := rest[1..];
      client := next;
    }
    assert rest == [] && kept + [] == kept;
  }

  /** The walk of _set_transmit and of the "watch" request; each uses the flags it needs. */
  method ChangeWalk(list: List<Client>, session: nat, change: Change) returns (t: Tally)
    requires list.Valid()
    modifies list, list.repr
    ensures list.Valid() && list.repr == old(list.repr)
    ensures list.items == ChangeAll(old(list.items), session, change) && t == Count(list.items)
  {
    ghost var was, done, rest: seq<Client> := list.items, [], list.items;
    ghost var k: nat := 0;
    t := Tally(false, false, false);
    var client := list.first;
    while client != null
      invariant list.Valid() && list.repr == old(list.repr)
      invariant list.items == done + rest && k == |done| && client == NodeAt(list.nodes, k)
      invariant ChangeAll(was, session, change) == done + ChangeAll(rest, session, change)
      invariant Count(done) == t
      decreases |rest|
    {
      WalkStep(done, rest, Changed(rest[0], session, change));
      ChangeStep(was, session, change, done, rest);
      list.NextIs(k);
      var next := client.next;
      assert client.item == rest[0];
      var c := Changed(client.item, session, change);
      list.Store(client, k, c);
      assert next == NodeAt(list.nodes, k + 1);
      t := Add(t, c);
      CountStep(done, c);
      done, rest, k := done + [c], rest[1..], k + 1;
      client := next;
    }
    assert rest == [] && done + [] == done;
  }

  class Plugin {
    const list: List<Client>
    var watchers: bool
    var listeners: bool
    var speakers: bool

    ghost predicate Valid()
      reads this, list, list.nodes
    {
      list.Valid()
    }

    ghost function State(): (s: Sessions)
      reads this, list
    {
      Sessions(list.items, watchers, listeners, speakers)
    }

    constructor ()
      ensures Valid() && fresh(list) && State() == DoAll([], false, false)
    {
      list := new List();
      watchers, listeners, speakers := false, false, false;
    }

    /** `enabled` is the plugin being ready and not stopping. */
    method Create(session: nat, enabled: bool) returns (err: int)
      requires Valid()
      modifies this, list, list.repr
      ensures Valid() && fresh(list.repr - old(list.repr)) && err == (if enabled then 0 else -1)
      ensures State() == if enabled then WithSession(old(State()), session) else old(State())
    {
      if !enabled { return -1; }
      var client := new Node(Client(session, false, false, false, 0));
      list.Append(client);
      watchers := true;
      return 0;
    }

    /** The stores to the global flags. */
    method Publish(w: bool, l: bool, s: bool)
      requires Valid()
      modifies this
      ensures Valid() && State() == Sessions(old(list.items), w, l, s)
    {
      watchers, listeners, speakers := w, l, s;
    }

    method Destroy(session: nat, enabled: bool) returns (err: int)
      requires Valid()
      modifies this, list, list.repr
      ensures Valid() && list.repr == old(list.repr)
      ensures State() == if enabled then WithoutSession(old(State()), session) else old(State())
      ensures err == (if !enabled then -1 else if Has(old(State()).clients, session) then 0 else -2)
    {
      if !enabled { return -1; }
      var found, t := RemoveWalk(list, session);
      err := if found then 0 else -2;
      Publish(t.transmit, t.acap, t.aplay);
    }

    /** The body of setup_media and hangup_media. */
    method SetTransmit(session: nat, on: bool, enabled: bool)
      requires Valid()
      modifies this, list, list.repr
      ensures Valid() && list.repr == old(list.repr)
      ensures State() == if enabled then WithTransmit(old(State()), session, on) else old(State())
    {
      if !enabled { return; }
      var t := ChangeWalk(list, session, Transmit(on));
      Publish(t.transmit, listeners, speakers);
    }

    /** The locked part of the "watch" request. */
    method Watch(session: nat, change: Change)
      requires Valid() && change.Watch?
      modifies this, list, list.repr
      ensures Valid() && list.repr == old(list.repr)
      ensures State() == WithWatch(old(State()), session, change)
    {
      var t := ChangeWalk(list, session, change);
      Publish(watchers, t.acap, t.aplay);
    }
  }
}
