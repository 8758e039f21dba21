/** The speaker's session and the neighbour's routing table (servers/bgp_speaker.py). */
module BgpPeer {
  import opened BgpNeighbour
  import opened BgpStream
  import opened BgpWire
  import opened Wrappers

  type Advert = (Prefix, Ip)

  /** The session: what is to be advertised, how far the handshake is, and every message sent.
      `over` is set once the receive loop has ended. */
  datatype Session = Session(asn: nat, advertise: seq<Advert>, gotOpen: bool, established: bool,
                             over: bool, sent: seq<Msg>)

  datatype Event =
    | Announce(p: Prefix, nextHop: Ip) | Withdraw(p: Prefix)
    | Received(m: Msg) | Closed | KeepaliveDue

  predicate Valid(s: Session) {
    s.asn < 0x1_0000_0000
  }

  function Announcements(asn: nat, as': seq<Advert>): seq<Msg>
    requires asn < 0x1_0000_0000
  {
    if as' == [] then []
    else var n := |as'| - 1;
      Announcements(asn, as'[..n]) + [AnnounceMsg(asn, as'[n].0, as'[n].1)]
  }

  /** The list without the entries written exactly like `p`. */
  function Without(as': seq<Advert>, p: Prefix): seq<Advert> {
    if as' == [] then []
    else var n := |as'| - 1;
      Without(as'[..n], p) + if as'[n].0 != p then [as'[n]] else []
  }

  /** One message handled by the receive loop. */
  function OnMessage(s: Session, m: Msg): Session
    requires Valid(s)
  {
    if m.mtype == OPEN then s.(gotOpen := true, sent := s.sent + [Msg(KEEPALIVE, [])])
    else if m.mtype == KEEPALIVE then
      if s.gotOpen && !s.established then
        s.(established := true, sent := s.sent + Announcements(s.asn, s.advertise))
      else s
    else if m.mtype == NOTIFICATION then s.(over := true, established := false)
    else s
  }

  /** A call of `announce` or `withdraw`, a message or the end of the stream in the receive loop,
      or its periodic keepalive. */
  function Step(s: Session, e: Event): Session
    requires Valid(s)
  {
    match e
    case Announce(p, nextHop) =>
      s.(advertise := s.advertise + [(p, nextHop)],
         sent := if s.established then s.sent + [AnnounceMsg(s.asn, p, nextHop)] else s.sent)
    case Withdraw(p) =>
      s.(advertise := Without(s.advertise, p),
         sent := if s.established then s.sent + [WithdrawMsg(p)] else s.sent)
    case Received(m) => if s.over then s else OnMessage(s, m)
    case Closed => s.(over := true, established := false)
    case KeepaliveDue => if s.over then s else s.(sent := s.sent + [Msg(KEEPALIVE, [])])
  }

  function Run(s: Session, es: seq<Event>): (t: Session)
    requires Valid(s)
    ensures Valid(t)
    decreases |es|
  {
    if es == [] then s else Run(Step(s, es[0]), es[1..])
  }

  function Start(asn: nat, hold: nat, id: Ip, advertise: seq<Advert>): Session
    requires asn < 0x1_0000_0000 && hold < 0x1_0000
  {
    Session(asn, advertise, false, false, false, [OpenMsg(asn, hold, id)])
  }

  // ---- the neighbour ----

  type Rib = map<Prefix, Ip>

  function NextHopOf(attrs: seq<Attr>): Maybe<Ip> {
    if attrs == [] then Nothing
    else if attrs[0].code == 3 && |attrs[0].value| == 4 then var nh: Ip := attrs[0].value; Just(nh)
    else NextHopOf(attrs[1..])
  }

  function Learn(rib: Rib, u: Update): Rib {
    var left := rib - set p | p in u.withdrawn;
    match NextHopOf(u.attrs)
    case Nothing => left
    case Just(nh) => left + map p | p in u.nlri :: nh
  }

  /** What one message does to the table: only a well-formed UPDATE, type 2, changes it. */
  function Apply(rib: Rib, m: Msg): Rib {
    if m.mtype != 2 then rib
    else match DecodeUpdate(m.body)
      case Nothing => rib
      case Just(u) => Learn(rib, u)
  }

  function Replay(ms: seq<Msg>): Rib {
    if ms == [] then map[] else Apply(Replay(ms[..|ms| - 1]), ms[|ms| - 1])
  }

  /** The table a neighbour builds from the bytes of a session. */
  function RibOfBytes(bs: seq<Byte>): Rib {
    Replay(Reads(bs).0)
  }

  /** What the list of adverts stands for: for every prefix the next hop given last. */
  function Advertised(as': seq<Advert>): Rib {
    if as' == [] then map[]
    else var n := |as'| - 1; Advertised(as'[..n])[Canon(as'[n].0) := as'[n].1]
  }

  predicate Exists(p: Prefix) { p.plen <= 32 }

  predicate AllExist(as': seq<Advert>) {
    forall i :: 0 <= i < |as'| ==> Exists(as'[i].0)
  }

  /** Another entry of the list means the same prefix but is written differently. */
  predicate Aliased(as': seq<Advert>, p: Prefix) {
    exists i :: 0 <= i < |as'| && as'[i].0 != p && Canon(as'[i].0) == Canon(p)
  }

  lemma ApplyAnnounce(rib: Rib, asn: nat, p: Prefix, nh: Ip)
    requires asn < 0x1_0000_0000 && Exists(p)
    ensures Apply(rib, AnnounceMsg(asn, p, nh)) == rib[Canon(p) := nh]
  {
    AnnounceDecodes(asn, p, nh);
    NextHopAnnounced(asn, nh);
    LearnAnnounced(rib, [Attr(0x40, 1, [0]), Attr(0x40, 2, [2, 1] + Be32(asn)), Attr(0x40, 3, nh)], Canon(p), nh);
  }

  lemma NextHopAnnounced(asn: nat, nh: Ip)
    requires asn < 0x1_0000_0000
    ensures NextHopOf([Attr(0x40, 1, [0]), Attr(0x40, 2, [2, 1] + Be32(asn)), Attr(0x40, 3, nh)]) == Just(nh)
  {
    var attrs := [Attr(0x40, 1, [0]), Attr(0x40, 2, [2, 1] + Be32(asn)), Attr(0x40, 3, nh)];
    assert attrs[1..][1..][0] == Attr(0x40, 3, nh);
    assert NextHopOf(attrs[1..][1..]) == Just(nh);
    assert attrs[1..][0].code == 2;
    assert NextHopOf(attrs[1..]) == Just(nh);
  }

  lemma LearnAnnounced(rib: Rib, attrs: seq<Attr>, c: Prefix, nh: Ip)
    requires NextHopOf(attrs) == Just(nh)
    ensures Learn(rib, Update([], attrs, [c])) == rib[c := nh]
  {
    var none: seq<Prefix> := [];
    assert rib - (set q | q in none) == rib;
    assert rib + (map q | q in [c] :: nh) == rib[c := nh];
  }

  lemma ApplyWithdraw(rib: Rib, p: Prefix)
    requires Exists(p)
    ensures Apply(rib, WithdrawMsg(p)) == rib - {Canon(p)}
  {
    WithdrawDecodes(p);
    assert (set q | q in [Canon(p)]) == {Canon(p)};
  }

  lemma ReplayAppend(ms: seq<Msg>, m: Msg)
    ensures Replay(ms + [m]) == Apply(Replay(ms), m)
  {
    assert (ms + [m])[..|ms|] == ms;
  }

  lemma ReplayAnnounced(ms: seq<Msg>, asn: nat, p: Prefix, nh: Ip)
    requires asn < 0x1_0000_0000 && Exists(p)
    ensures Replay(ms + [AnnounceMsg(asn, p, nh)]) == Replay(ms)[Canon(p) := nh]
  {
    ReplayAppend(ms, AnnounceMsg(asn, p, nh));
    ApplyAnnounce(Replay(ms), asn, p, nh);
  }

  lemma ReplayWithdrawn(ms: seq<Msg>, p: Prefix)
    requires Exists(p)
    ensures Replay(ms + [WithdrawMsg(p)]) == Replay(ms) - {Canon(p)}
  {
    ReplayAppend(ms, WithdrawMsg(p));
    ApplyWithdraw(Replay(ms), p);
  }

  lemma AnnouncementsInit(ms: seq<Msg>, asn: nat, as': seq<Advert>)
    requires asn < 0x1_0000_0000 && as' != []
    ensures ms + Announcements(asn, as') ==
            (ms + Announcements(asn, as'[..|as'| - 1])) +
            [AnnounceMsg(asn, as'[|as'| - 1].0, as'[|as'| - 1].1)]
  {
  }

  /** Sending the whole list over an empty table yields what the list stands for. */
  lemma {:induction false} ReplayAnnouncements(ms: seq<Msg>, asn: nat, as': seq<Advert>)
    requires asn < 0x1_0000_0000 && AllExist(as') && Replay(ms) == map[]
    ensures Replay(ms + Announcements(asn, as')) == Advertised(as')
  {
    if as' == [] {
      assert ms + Announcements(asn, as') == ms;
    } else {
      var n := |as'| - 1;
      assert AllExist(as'[..n]) && Exists(as'[n].0);
      ReplayAnnouncements(ms, asn, as'[..n]);
      AnnouncementsInit(ms, asn, as');
      ReplayAnnounced(ms + Announcements(asn, as'[..n]), asn, as'[n].0, as'[n].1);
    }
  }

  lemma AdvertisedAppend(as': seq<Advert>, a: Advert)
    ensures Advertised(as' + [a]) == Advertised(as')[Canon(a.0) := a.1]
  {
    assert (as' + [a])[..|as'|] == as';
  }

  lemma AliasedAppend(as': seq<Advert>, a: Advert, p: Prefix)
    ensures Aliased(as' + [a], p) <==> Aliased(as', p) || (a.0 != p && Canon(a.0) == Canon(p))
  {
    var all := as' + [a];
    if Aliased(as', p) {
      var i :| 0 <= i < |as'| && as'[i].0 != p && Canon(as'[i].0) == Canon(p);
      assert all[i] == as'[i];
    }
    if a.0 != p && Canon(a.0) == Canon(p) { assert all[|as'|] == a; }
  }

  predicate SameAt(a: Rib, b: Rib, c: Prefix) {
    (c in a <==> c in b) && (c in a ==> a[c] == b[c])
  }

  lemma SameEverywhere(a: Rib, b: Rib)
    requires forall c :: SameAt(a, b, c)
    ensures a == b
  {
    forall c ensures (c in a <==> c in b) && (c in a ==> a[c] == b[c]) {
      assert SameAt(a, b, c);
    }
  }

  /** Taking a spelling out of the list takes its prefix out of the meaning exactly when no other
      spelling of it is left. */
  lemma {:induction false} AdvertisedWithout(as': seq<Advert>, p: Prefix, c: Prefix)
    ensures c != Canon(p) ==> SameAt(Advertised(Without(as', p)), Advertised(as'), c)
    ensures Canon(p) in Advertised(Without(as', p)) <==> Aliased(as', p)
  {
    if as' != [] {
      var n := |as'| - 1;
      var init, a := as'[..n], as'[n];
      AdvertisedWithout(init, p, c);
      assert as' == init + [a];
      AdvertisedAppend(init, a);
      AliasedAppend(init, a, p);
      if a.0 != p {
        AdvertisedAppend(Without(init, p), a);
      } else {
        assert Without(init, p) + [] == Without(init, p);
      }
    }
  }

  /** The neighbour's table is what is advertised while the session is up, and was never filled
      before that. */
  predicate Mirrored(s: Session) {
    && AllExist(s.advertise)
    && (s.established ==> !s.over && Replay(s.sent) == Advertised(s.advertise))
    && (!s.established && !s.over ==> Replay(s.sent) == map[])
  }

  predicate EventExists(e: Event) {
    (e.Announce? || e.Withdraw?) ==> Exists(e.p)
  }

  lemma {:induction false} WithoutExists(as': seq<Advert>, p: Prefix)
    requires AllExist(as')
    ensures AllExist(Without(as', p))
  {
    if as' != [] {
      WithoutExists(as'[..|as'| - 1], p);
      assert as'[|as'| - 1] in as';
    }
  }

  /** The meaning after withdrawing a spelling is the table without its prefix, exactly when no
      other spelling of it is advertised. */
  lemma WithdrawMeaning(as': seq<Advert>, p: Prefix)
    ensures Advertised(as') - {Canon(p)} == Advertised(Without(as', p)) <==> !Aliased(as', p)
  {
    var after, rib := Advertised(Without(as', p)), Advertised(as') - {Canon(p)};
    AdvertisedWithout(as', p, p);
    if Aliased(as', p) {
      assert Canon(p) in after && Canon(p) !in rib;
    } else {
      forall c ensures SameAt(rib, after, c) {
        AdvertisedWithout(as', p, c);
      }
      SameEverywhere(rib, after);
    }
  }

  lemma AnnounceMirrored(s: Session, p: Prefix, nh: Ip)
    requires Valid(s) && Mirrored(s) && Exists(p)
    ensures Mirrored(Step(s, Announce(p, nh)))
  {
    AdvertisedAppend(s.advertise, (p, nh));
    if s.established {
      ReplayAnnounced(s.sent, s.asn, p, nh);
    }
  }

  lemma WithdrawMirrored(s: Session, p: Prefix)
    requires Valid(s) && Mirrored(s) && Exists(p)
    ensures Mirrored(Step(s, Withdraw(p))) <==> !(s.established && Aliased(s.advertise, p))
  {
    WithoutExists(s.advertise, p);
    if s.established {
      ReplayWithdrawn(s.sent, p);
      WithdrawMeaning(s.advertise, p);
    }
  }

  lemma MessageMirrored(s: Session, m: Msg)
    requires Valid(s) && Mirrored(s) && !s.over
    ensures Mirrored(OnMessage(s, m))
  {
    ReplayAppend(s.sent, Msg(KEEPALIVE, []));
    if m.mtype == KEEPALIVE && s.gotOpen && !s.established {
      ReplayAnnouncements(s.sent, s.asn, s.advertise);
    }
  }

  /** Every step but one keeps the mirror.  The exception is exact: withdrawing a prefix that is
      also advertised under another spelling loses it at the neighbour only. */
  lemma StepMirrored(s: Session, e: Event)
    requires Valid(s) && Mirrored(s) && EventExists(e)
    ensures Mirrored(Step(s, e)) <==> !(e.Withdraw? && s.established && Aliased(s.advertise, e.p))
  {
    match e
    case Announce(p, nh) => AnnounceMirrored(s, p, nh);
    case Withdraw(p) => WithdrawMirrored(s, p);
    case Received(m) => if !s.over { MessageMirrored(s, m); }
    case Closed =>
    case KeepaliveDue => ReplayAppend(s.sent, Msg(KEEPALIVE, []));
  }

  predicate NoAliasWithdrawn(s: Session, es: seq<Event>)
    requires Valid(s)
    decreases |es|
  {
    es != [] ==>
      && EventExists(es[0])
      && !(es[0].Withdraw? && s.established && Aliased(s.advertise, es[0].p))
      && NoAliasWithdrawn(Step(s, es[0]), es[1..])
  }

  lemma {:induction false} RunMirrored(s: Session, es: seq<Event>)
    requires Valid(s) && Mirrored(s) && NoAliasWithdrawn(s, es)
    ensures Mirrored(Run(s, es))
    decreases |es|
  {
    if es != [] {
      StepMirrored(s, es[0]);
      RunMirrored(Step(s, es[0]), es[1..]);
    }
  }

  // ---- down to the bytes ----

  lemma AnnouncementAcceptable(asn: nat, p: Prefix, nh: Ip)
    requires asn < 0x1_0000_0000
    ensures Acceptable(AnnounceMsg(asn, p, nh)) && Acceptable(WithdrawMsg(p))
  {
    NlriDecodes(p);
    AttributesDecode(asn, nh);
  }

  lemma {:induction false} AnnouncementsAcceptable(asn: nat, as': seq<Advert>)
    requires asn < 0x1_0000_0000
    ensures AllAcceptable(Announcements(asn, as'))
  {
    if as' != [] {
      var n := |as'| - 1;
      AnnouncementsAcceptable(asn, as'[..n]);
      AnnouncementAcceptable(asn, as'[n].0, as'[n].1);
    }
  }

  lemma StepAcceptable(s: Session, e: Event)
    requires Valid(s) && AllAcceptable(s.sent)
    ensures AllAcceptable(Step(s, e).sent)
  {
    match e
    case Announce(p, nh) => AnnouncementAcceptable(s.asn, p, nh);
    case Withdraw(p) => AnnouncementAcceptable(s.asn, p, [0, 0, 0, 0]);
    case Received(m) => AnnouncementsAcceptable(s.asn, s.advertise);
    case Closed =>
    case KeepaliveDue =>
  }

  lemma {:induction false} RunAcceptable(s: Session, es: seq<Event>)
    requires Valid(s) && AllAcceptable(s.sent)
    ensures AllAcceptable(Run(s, es).sent)
    decreases |es|
  {
    if es != [] {
      StepAcceptable(s, es[0]);
      RunAcceptable(Step(s, es[0]), es[1..]);
    }
  }

  lemma StartAcceptable(asn: nat, hold: nat, id: Ip, advertise: seq<Advert>)
    requires asn < 0x1_0000_0000 && hold < 0x1_0000
    ensures var s := Start(asn, hold, id, advertise); AllAcceptable(s.sent) && Replay(s.sent) == map[]
  {
    assert |OpenMsg(asn, hold, id).body| == 26;
    var none: seq<Msg> := [];
    ReplayAppend(none, OpenMsg(asn, hold, id));
    assert none + [OpenMsg(asn, hold, id)] == [OpenMsg(asn, hold, id)];
  }

  /** Every byte of a session is accepted: whatever is called and received, a neighbour that follows
      RFC 4271 reads back exactly the messages written, and never finds a reason to close. */
  lemma NeighbourReadsAll(asn: nat, hold: nat, id: Ip, advertise: seq<Advert>, es: seq<Event>)
    requires asn < 0x1_0000_0000 && hold < 0x1_0000
    ensures var s := Run(Start(asn, hold, id, advertise), es);
            AllFit(s.sent) && Reads(EncodeAll(s.sent)) == (s.sent, false)
  {
    StartAcceptable(asn, hold, id, advertise);
    RunAcceptable(Start(asn, hold, id, advertise), es);
    SentIsRead(Run(Start(asn, hold, id, advertise), es).sent);
  }

  lemma SentIsRead(ms: seq<Msg>)
    requires AllAcceptable(ms)
    ensures AllFit(ms) && Reads(EncodeAll(ms)) == (ms, false)
  {
    AcceptableFits(ms);
    var none: seq<Byte> := [];
    ReadsAll(ms, none);
    assert EncodeAll(ms) + none == EncodeAll(ms);
    assert Reads(none) == ([], false);
    assert ms + [] == ms;
  }

  /** The routing table simulation, from the wire: for every sequence of calls and receptions that
      withdraws no aliased prefix, the table a neighbour builds from the bytes the speaker has
      written is exactly what the speaker means to advertise while the session is up, and is
      empty before that. */
  lemma NeighbourMirrorsAdvertised(asn: nat, hold: nat, id: Ip, advertise: seq<Advert>, es: seq<Event>)
    requires asn < 0x1_0000_0000 && hold < 0x1_0000 && AllExist(advertise)
    requires NoAliasWithdrawn(Start(asn, hold, id, advertise), es)
    ensures var s := Run(Start(asn, hold, id, advertise), es);
            && AllFit(s.sent)
            && (s.established ==> RibOfBytes(EncodeAll(s.sent)) == Advertised(s.advertise))
            && (!s.established && !s.over ==> RibOfBytes(EncodeAll(s.sent)) == map[])
  {
    var s0 := Start(asn, hold, id, advertise);
    StartAcceptable(asn, hold, id, advertise);
    RunMirrored(s0, es);
    NeighbourReadsAll(asn, hold, id, advertise, es);
  }

  // ---- what the speaker says ----

  /** How many messages of a type. */
  function Count(ms: seq<Msg>, t: Byte): nat {
    if ms == [] then 0
    else var n := |ms| - 1; Count(ms[..n], t) + if ms[n].mtype == t then 1 else 0
  }

  lemma CountAppend(ms: seq<Msg>, m: Msg, t: Byte)
    ensures Count(ms + [m], t) == Count(ms, t) + if m.mtype == t then 1 else 0
  {
    assert (ms + [m])[..|ms|] == ms;
  }

  lemma {:induction false} CountAnnouncements(ms: seq<Msg>, asn: nat, as': seq<Advert>, t: Byte)
    requires asn < 0x1_0000_0000 && t != 2
    ensures Count(ms + Announcements(asn, as'), t) == Count(ms, t)
  {
    if as' == [] {
      assert ms + Announcements(asn, as') == ms;
    } else {
      var n := |as'| - 1;
      CountAnnouncements(ms, asn, as'[..n], t);
      AnnouncementsInit(ms, asn, as');
      CountAppend(ms + Announcements(asn, as'[..n]), AnnounceMsg(asn, as'[n].0, as'[n].1), t);
    }
  }

  /** The KEEPALIVEs that are due: one for every OPEN that comes in, and one whenever the timer says so,
      until a notification or the end of the stream. */
  function Answers(es: seq<Event>): nat {
    if es == [] || es[0].Closed? || (es[0].Received? && es[0].m.mtype == 3) then 0
    else (if es[0].KeepaliveDue? || (es[0].Received? && es[0].m.mtype == 1) then 1 else 0) + Answers(es[1..])
  }

  lemma MessageSays(s: Session, m: Msg, t: Byte)
    requires Valid(s) && t != 2
    ensures Count(OnMessage(s, m).sent, t) == Count(s.sent, t) + if t == 4 && m.mtype == 1 then 1 else 0
    ensures s.sent <= OnMessage(s, m).sent
    ensures OnMessage(s, m).over <==> s.over || m.mtype == 3
  {
    CountAppend(s.sent, Msg(KEEPALIVE, []), t);
    CountAnnouncements(s.sent, s.asn, s.advertise, t);
  }

  lemma StepSays(s: Session, e: Event, t: Byte)
    requires Valid(s) && t != 2
    ensures Count(Step(s, e).sent, t) ==
            Count(s.sent, t) +
            if t == 4 && !s.over && (e.KeepaliveDue? || (e.Received? && e.m.mtype == 1)) then 1 else 0
    ensures s.sent <= Step(s, e).sent
    ensures Step(s, e).over <==> s.over || e.Closed? || (e.Received? && e.m.mtype == 3)
  {
    CountAppend(s.sent, Msg(KEEPALIVE, []), t);
    match e
    case Announce(p, nh) => CountAppend(s.sent, AnnounceMsg(s.asn, p, nh), t);
    case Withdraw(p) => CountAppend(s.sent, WithdrawMsg(p), t);
    case Received(m) => if !s.over { MessageSays(s, m, t); }
    case Closed =>
    case KeepaliveDue =>
  }

  lemma {:induction false} RunSays(s: Session, es: seq<Event>, t: Byte)
    requires Valid(s) && t != 2
    ensures Count(Run(s, es).sent, t) ==
            Count(s.sent, t) + if t == 4 && !s.over then Answers(es) else 0
    ensures s.sent <= Run(s, es).sent
    decreases |es|
  {
    if es != [] {
      StepSays(s, es[0], t);
      RunSays(Step(s, es[0]), es[1..], t);
      PrefixTrans(s.sent, Step(s, es[0]).sent, Run(s, es).sent);
    }
  }

  lemma PrefixTrans<T>(a: seq<T>, b: seq<T>, c: seq<T>)
    requires a <= b <= c
    ensures a <= c
  {
  }

  /** The OPEN of a speaker with these numbers, as a neighbour decodes it. */
  predicate OpenSaid(m: Msg, asn: nat, hold: nat, id: Ip)
    requires asn < 0x1_0000_0000
  {
    m.mtype == 1 &&
    DecodeOpen(m.body) == Just(Open(4, if asn < 0x1_0000 then asn else 23456, hold, id,
                                    [Capability(1, [0, 1, 0, 1]), Capability(65, Be32(asn))]))
  }

  lemma CountOne(m: Msg, t: Byte)
    ensures Count([m], t) == if m.mtype == t then 1 else 0
  {
    assert [m][..0] == [];
  }

  lemma StartSays(asn: nat, hold: nat, id: Ip, advertise: seq<Advert>)
    requires asn < 0x1_0000_0000 && hold < 0x1_0000
    ensures var ms := Start(asn, hold, id, advertise).sent;
            && |ms| == 1 && OpenSaid(ms[0], asn, hold, id)
            && Count(ms, 1) == 1 && Count(ms, 3) == 0 && Count(ms, 4) == 0
  {
    OpenDecodes(asn, hold, id);
    CountOne(OpenMsg(asn, hold, id), 1);
    CountOne(OpenMsg(asn, hold, id), 3);
    CountOne(OpenMsg(asn, hold, id), 4);
  }

  /** What a neighbour hears besides UPDATEs, over every session: first an OPEN with the speaker's numbers
      and no other, a KEEPALIVE for every OPEN of its own and every expiry of the timer, and never a
      NOTIFICATION. */
  lemma SpeakerSaysExactly(asn: nat, hold: nat, id: Ip, advertise: seq<Advert>, es: seq<Event>)
    requires asn < 0x1_0000_0000 && hold < 0x1_0000
    ensures var s := Run(Start(asn, hold, id, advertise), es);
            AllFit(s.sent) &&
            var heard := Reads(EncodeAll(s.sent)).0;
            && heard != [] && OpenSaid(heard[0], asn, hold, id)
            && Count(heard, 1) == 1 && Count(heard, 3) == 0 && Count(heard, 4) == Answers(es)
  {
    var s0 := Start(asn, hold, id, advertise);
    StartSays(asn, hold, id, advertise);
    NeighbourReadsAll(asn, hold, id, advertise, es);
    RunSays(s0, es, 1);
    RunSays(s0, es, 3);
    RunSays(s0, es, 4);
    assert Run(s0, es).sent[0] == s0.sent[0];
  }

  predicate AllCanonical(as': seq<Advert>) {
    forall i :: 0 <= i < |as'| ==> Canonical(as'[i].0)
  }

  predicate CanonicalCalls(es: seq<Event>) {
    forall i :: 0 <= i < |es| && (es[i].Announce? || es[i].Withdraw?) ==> Exists(es[i].p) && Canonical(es[i].p)
  }

  /** With canonical prefixes throughout, no withdrawal ever meets an alias, so the simulation above
      needs no side condition. */
  lemma {:induction false} CanonicalRunsMeetNoAlias(s: Session, es: seq<Event>)
    requires Valid(s) && AllCanonical(s.advertise) && CanonicalCalls(es)
    ensures NoAliasWithdrawn(s, es)
    decreases |es|
  {
    if es != [] {
      var e := es[0];
      if e.Withdraw? {
        WithoutCanonical(s.advertise, e.p);
      }
      assert AllCanonical(Step(s, e).advertise);
      CanonicalRunsMeetNoAlias(Step(s, e), es[1..]);
    }
  }

  lemma {:induction false} WithoutCanonical(as': seq<Advert>, p: Prefix)
    requires AllCanonical(as')
    ensures AllCanonical(Without(as', p))
  {
    if as' != [] {
      WithoutCanonical(as'[..|as'| - 1], p);
    }
  }

  // ---- the handshake ----

  /** The types of the messages received so far, up to a notification or the end of the stream. */
  function Types(es: seq<Event>): seq<Byte> {
    if es == [] then []
    else var n := |es| - 1;
      Types(es[..n]) + if es[n].Received? then [es[n].m.mtype] else []
  }

  predicate Ended(es: seq<Event>) {
    exists i :: 0 <= i < |es| && (es[i].Closed? || (es[i].Received? && es[i].m.mtype == NOTIFICATION))
  }

  /** An OPEN was received, and a KEEPALIVE after it. */
  predicate Shaken(ts: seq<Byte>) {
    exists i, j :: 0 <= i < j < |ts| && ts[i] == OPEN && ts[j] == KEEPALIVE
  }

  lemma {:induction false} RunSplit(s: Session, es: seq<Event>)
    requires Valid(s) && es != []
    ensures Run(s, es) == Step(Run(s, es[..|es| - 1]), es[|es| - 1])
    decreases |es|
  {
    var n := |es| - 1;
    if n == 0 {
      assert es[1..] == [] && es[..0] == [];
    } else {
      assert es[1..][..n - 1] == es[..n][1..];
      assert es[..n][0] == es[0];
      assert es[1..][|es[1..]| - 1] == es[n];
      RunSplit(Step(s, es[0]), es[1..]);
    }
  }

  lemma ShakenAppend(ts: seq<Byte>, t: Byte)
    ensures Shaken(ts + [t]) <==> Shaken(ts) || (OPEN in ts && t == KEEPALIVE)
  {
    var us := ts + [t];
    if Shaken(ts) {
      var i, j :| 0 <= i < j < |ts| && ts[i] == OPEN && ts[j] == KEEPALIVE;
      assert us[i] == OPEN && us[j] == KEEPALIVE;
    }
    if OPEN in ts && t == KEEPALIVE {
      var i :| 0 <= i < |ts| && ts[i] == OPEN;
      assert us[i] == OPEN && us[|ts|] == KEEPALIVE;
    }
    if Shaken(us) {
      var i, j :| 0 <= i < j < |us| && us[i] == OPEN && us[j] == KEEPALIVE;
      assert ts[i] == OPEN;
      if j < |ts| { assert ts[j] == KEEPALIVE; }
    }
  }

  lemma EndedAppend(es: seq<Event>)
    requires es != []
    ensures var e := es[|es| - 1];
            Ended(es) <==> Ended(es[..|es| - 1]) || e.Closed? || (e.Received? && e.m.mtype == NOTIFICATION)
  {
    var n := |es| - 1;
    if Ended(es[..n]) {
      var i :| 0 <= i < n && (es[..n][i].Closed? || (es[..n][i].Received? && es[..n][i].m.mtype == NOTIFICATION));
      assert es[i] == es[..n][i];
    }
  }

  predicate NothingAnnounced(ms: seq<Msg>) {
    forall i :: 0 <= i < |ms| ==> ms[i].mtype != UPDATE
  }

  /** The session is up exactly from the first KEEPALIVE after an OPEN until a notification or the
      end of the stream, and no UPDATE of any kind is sent before it is. */
  lemma {:induction false} EstablishedExactly(s: Session, es: seq<Event>)
    requires Valid(s) && !s.gotOpen && !s.established && !s.over && NothingAnnounced(s.sent)
    ensures var t := Run(s, es);
            && (t.over <==> Ended(es))
            && (!t.over ==> (t.gotOpen <==> OPEN in Types(es)))
            && (t.established <==> !Ended(es) && Shaken(Types(es)))
            && (!Shaken(Types(es)) ==> NothingAnnounced(t.sent))
    decreases |es|
  {
    if es != [] {
      var n := |es| - 1;
      EstablishedExactly(s, es[..n]);
      RunSplit(s, es);
      EndedAppend(es);
      if es[n].Received? {
        ShakenAppend(Types(es[..n]), es[n].m.mtype);
      } else {
        assert Types(es[..n]) + [] == Types(es[..n]);
      }
    }
  }

  // ---- the bulk send takes no lock ----

  /** While the list is being sent after establishment, calls of the interface go on: the rest of
      the copy that was taken still has to be sent, and each call sends at once. */
  datatype Bulk = Bulk(asn: nat, advertise: seq<Advert>, rest: seq<Advert>, sent: seq<Msg>)

  datatype Move = SendNext | CallAnnounce(p: Prefix, nextHop: Ip) | CallWithdraw(p: Prefix)

  /** The neighbour's table so far. */
  function Table(b: Bulk): Rib { Replay(b.sent) }

  predicate BulkValid(b: Bulk) { b.asn < 0x1_0000_0000 && AllExist(b.rest) }

  predicate MoveExists(m: Move) { m.SendNext? || Exists(m.p) }

  function Moved(b: Bulk, m: Move): Bulk
    requires b.asn < 0x1_0000_0000
  {
    match m
    case SendNext =>
      if b.rest == [] then b
      else b.(rest := b.rest[1..], sent := b.sent + [AnnounceMsg(b.asn, b.rest[0].0, b.rest[0].1)])
    case CallAnnounce(p, nh) =>
      b.(advertise := b.advertise + [(p, nh)], sent := b.sent + [AnnounceMsg(b.asn, p, nh)])
    case CallWithdraw(p) =>
      b.(advertise := Without(b.advertise, p), sent := b.sent + [WithdrawMsg(p)])
  }

  function MovedAll(b: Bulk, ms: seq<Move>): (t: Bulk)
    requires b.asn < 0x1_0000_0000
    ensures t.asn == b.asn
    decreases |ms|
  {
    if ms == [] then b else MovedAll(Moved(b, ms[0]), ms[1..])
  }

  /** What each move does to the neighbour's table, by the message it sends. */
  lemma MovedTable(b: Bulk, m: Move)
    requires BulkValid(b) && MoveExists(m)
    ensures BulkValid(Moved(b, m))
    ensures m.SendNext? && b.rest != [] ==>
              Table(Moved(b, m)) == Table(b)[Canon(b.rest[0].0) := b.rest[0].1]
    ensures m.CallAnnounce? ==> Table(Moved(b, m)) == Table(b)[Canon(m.p) := m.nextHop]
    ensures m.CallWithdraw? ==> Table(Moved(b, m)) == Table(b) - {Canon(m.p)}
  {
    match m
    case SendNext => if b.rest != [] { ReplayAnnounced(b.sent, b.asn, b.rest[0].0, b.rest[0].1); }
    case CallAnnounce(p, nh) => ReplayAnnounced(b.sent, b.asn, p, nh);
    case CallWithdraw(p) => ReplayWithdrawn(b.sent, p);
  }

  /** The table once the rest has been sent too. */
  function Finished(rib: Rib, rest: seq<Advert>): Rib
    decreases |rest|
  {
    if rest == [] then rib else Finished(rib[Canon(rest[0].0) := rest[0].1], rest[1..])
  }

  /** Some advert still to be sent is for this prefix. */
  predicate Pending(rest: seq<Advert>, c: Prefix) {
    exists i :: 0 <= i < |rest| && Canon(rest[i].0) == c
  }

  lemma {:induction false} FinishedAt(rib: Rib, rest: seq<Advert>, c: Prefix)
    ensures !Pending(rest, c) ==> SameAt(Finished(rib, rest), rib, c)
    ensures Pending(rest, c) ==> c in Finished(rib, rest) && c in Advertised(rest)
                                 && Finished(rib, rest)[c] == Advertised(rest)[c]
    decreases |rest|
  {
    if rest != [] {
      var a, tail := rest[0], rest[1..];
      FinishedAt(rib[Canon(a.0) := a.1], tail, c);
      AdvertisedCons(a, tail, c);
      assert rest == [a] + tail;
      if Pending(tail, c) {
        var i :| 0 <= i < |tail| && Canon(tail[i].0) == c;
        assert rest[i + 1] == tail[i];
      }
      if Pending(rest, c) && Canon(a.0) != c {
        var i :| 0 <= i < |rest| && Canon(rest[i].0) == c;
        assert tail[i - 1] == rest[i];
      }
    }
  }

  lemma {:induction false} AdvertisedCons(a: Advert, tail: seq<Advert>, c: Prefix)
    ensures c in Advertised([a] + tail) <==> c == Canon(a.0) || c in Advertised(tail)
    ensures c in Advertised(tail) ==> Advertised([a] + tail)[c] == Advertised(tail)[c]
    ensures c !in Advertised(tail) && c == Canon(a.0) ==> Advertised([a] + tail)[c] == a.1
    ensures c in Advertised(tail) <==> Pending(tail, c)
    decreases |tail|
  {
    if tail == [] {
      assert [a] + tail == [] + [a];
      var none: seq<Advert> := [];
      AdvertisedAppend(none, a);
    } else {
      var n := |tail| - 1;
      AdvertisedCons(a, tail[..n], c);
      assert tail == tail[..n] + [tail[n]];
      assert [a] + tail == ([a] + tail[..n]) + [tail[n]];
      AdvertisedAppend([a] + tail[..n], tail[n]);
      AdvertisedAppend(tail[..n], tail[n]);
      if Pending(tail[..n], c) {
        var i :| 0 <= i < n && Canon(tail[..n][i].0) == c;
        assert tail[i] == tail[..n][i];
      }
      if Pending(tail, c) && Canon(tail[n].0) != c {
        var i :| 0 <= i < |tail| && Canon(tail[i].0) == c;
        assert tail[..n][i] == tail[i];
      }
    }
  }

  /** On its way to what is advertised. */
  predicate OnCourse(b: Bulk) {
    Finished(Table(b), b.rest) == Advertised(b.advertise)
  }

  lemma FinishedUpdate(rib: Rib, rest: seq<Advert>, c: Prefix, nh: Ip)
    requires !Pending(rest, c)
    ensures Finished(rib[c := nh], rest) == Finished(rib, rest)[c := nh]
    ensures Finished(rib - {c}, rest) == Finished(rib, rest) - {c}
  {
    var put, taken := Finished(rib[c := nh], rest), Finished(rib - {c}, rest);
    var put', taken' := Finished(rib, rest)[c := nh], Finished(rib, rest) - {c};
    forall d ensures SameAt(put, put', d) && SameAt(taken, taken', d) {
      FinishedAt(rib, rest, d);
      FinishedAt(rib[c := nh], rest, d);
      FinishedAt(rib - {c}, rest, d);
    }
    SameEverywhere(put, put');
    SameEverywhere(taken, taken');
  }

  predicate Holds(rib: Rib, c: Prefix, nh: Ip) { c in rib && rib[c] == nh }

  /** A call during the bulk send is harmless exactly when its prefix is not waiting to be sent, or
      when an announcement repeats the next hop that is waiting; a withdrawal of a waiting prefix
      is always undone by the bulk send. */
  lemma CallDuringBulk(b: Bulk, m: Move)
    requires BulkValid(b) && MoveExists(m) && OnCourse(b) && !m.SendNext?
    requires m.CallWithdraw? ==> !Aliased(b.advertise, m.p)
    ensures OnCourse(Moved(b, m)) <==>
              (Pending(b.rest, Canon(m.p)) ==> m.CallAnnounce? && Holds(Advertised(b.rest), Canon(m.p), m.nextHop))
  {
    var c, rib := Canon(m.p), Table(b);
    MovedTable(b, m);
    var rib' := Table(Moved(b, m));
    FinishedAt(rib, b.rest, c);
    FinishedAt(rib', b.rest, c);
    if m.CallAnnounce? {
      AdvertisedAppend(b.advertise, (m.p, m.nextHop));
    } else {
      WithdrawMeaning(b.advertise, m.p);
    }
    if !Pending(b.rest, c) {
      FinishedUpdate(rib, b.rest, c, if m.CallAnnounce? then m.nextHop else [0, 0, 0, 0]);
    } else if m.CallAnnounce? && Holds(Advertised(b.rest), c, m.nextHop) {
      FinishedRepeated(rib, b.rest, c, m.nextHop);
    }
  }

  /** Putting what is waiting anyway. */
  lemma FinishedRepeated(rib: Rib, rest: seq<Advert>, c: Prefix, nh: Ip)
    requires Pending(rest, c) && Holds(Advertised(rest), c, nh)
    ensures Finished(rib[c := nh], rest) == Finished(rib, rest)[c := nh]
  {
    var now, then' := Finished(rib[c := nh], rest), Finished(rib, rest)[c := nh];
    forall d ensures SameAt(now, then', d) {
      FinishedAt(rib, rest, d);
      FinishedAt(rib[c := nh], rest, d);
    }
    SameEverywhere(now, then');
  }

  predicate Calm(b: Bulk, ms: seq<Move>)
    requires b.asn < 0x1_0000_0000
    decreases |ms|
  {
    ms != [] ==>
      && MoveExists(ms[0])
      && (!ms[0].SendNext? ==> !Pending(b.rest, Canon(ms[0].p)))
      && (ms[0].CallWithdraw? ==> !Aliased(b.advertise, ms[0].p))
      && Calm(Moved(b, ms[0]), ms[1..])
  }

  /** Every interleaving of the bulk send with calls about prefixes that are not waiting ends with
      the neighbour holding what is advertised. */
  lemma {:induction false} CalmInterleavings(b: Bulk, ms: seq<Move>)
    requires BulkValid(b) && OnCourse(b) && Calm(b, ms)
    ensures OnCourse(MovedAll(b, ms))
    ensures MovedAll(b, ms).rest == [] ==> Table(MovedAll(b, ms)) == Advertised(MovedAll(b, ms).advertise)
    decreases |ms|
  {
    if ms != [] {
      MovedTable(b, ms[0]);
      if !ms[0].SendNext? {
        CallDuringBulk(b, ms[0]);
      }
      CalmInterleavings(Moved(b, ms[0]), ms[1..]);
    }
  }

  /** The copy of the list is taken: all of it is to be sent. */
  function Copied(b: Bulk): Bulk { b.(rest := b.advertise) }

  predicate Covered(b: Bulk) { Table(b).Keys <= Advertised(b.advertise).Keys }

  /** The copy is on course exactly when the neighbour holds no prefix that is not advertised. */
  lemma CopyOnCourseExactly(b: Bulk)
    ensures OnCourse(Copied(b)) <==> Covered(b)
  {
    var rib, as' := Table(b), b.advertise;
    var all, meant := Finished(rib, as'), Advertised(as');
    forall c ensures (Pending(as', c) <==> c in meant) && (!Pending(as', c) ==> SameAt(all, rib, c))
      ensures Pending(as', c) ==> SameAt(all, meant, c)
    {
      FinishedAt(rib, as', c);
      AdvertisedCons((c, [0, 0, 0, 0]), as', c);
    }
    if Covered(b) {
      forall c ensures SameAt(all, meant, c) {
        assert c in rib ==> c in meant;
      }
      SameEverywhere(all, meant);
    } else {
      var c :| c in rib && c !in meant;
      assert SameAt(all, rib, c);
    }
  }

  lemma AnnounceCovers(rib: Rib, as': seq<Advert>, a: Advert)
    requires rib.Keys <= Advertised(as').Keys
    ensures rib[Canon(a.0) := a.1].Keys <= Advertised(as' + [a]).Keys
  {
    AdvertisedAppend(as', a);
  }

  lemma WithdrawCovers(rib: Rib, as': seq<Advert>, p: Prefix)
    requires rib.Keys <= Advertised(as').Keys
    ensures (rib - {Canon(p)}).Keys <= Advertised(Without(as', p)).Keys
  {
    forall c | c in rib && c != Canon(p) ensures c in Advertised(Without(as', p)) {
      AdvertisedWithout(as', p, c);
    }
  }

  lemma AnnounceKeepsCovered(b: Bulk, p: Prefix, nh: Ip)
    requires BulkValid(b) && Exists(p) && Covered(b)
    ensures Covered(Moved(b, CallAnnounce(p, nh)))
  {
    ReplayAnnounced(b.sent, b.asn, p, nh);
    AnnounceCovers(Table(b), b.advertise, (p, nh));
  }

  lemma WithdrawKeepsCovered(b: Bulk, p: Prefix)
    requires BulkValid(b) && Exists(p) && Covered(b)
    ensures Covered(Moved(b, CallWithdraw(p)))
  {
    ReplayWithdrawn(b.sent, p);
    WithdrawCovers(Table(b), b.advertise, p);
  }

  lemma CallKeepsExisting(b: Bulk, m: Move)
    requires BulkValid(b) && MoveExists(m) && b.rest == [] && AllExist(b.advertise)
    ensures var t := Moved(b, m); t.rest == [] && BulkValid(t) && AllExist(t.advertise)
  {
    if m.CallWithdraw? { WithoutExists(b.advertise, m.p); }
  }

  /** Before the copy is taken calls already send; each keeps that, whatever its prefix. */
  lemma CallKeepsCovered(b: Bulk, m: Move)
    requires BulkValid(b) && MoveExists(m) && b.rest == [] && Covered(b)
    ensures Covered(Moved(b, m))
  {
    match m
    case SendNext =>
    case CallAnnounce(p, nh) => AnnounceKeepsCovered(b, p, nh);
    case CallWithdraw(p) => WithdrawKeepsCovered(b, p);
  }

  /** From the moment the session is up, on a table that is still empty: whatever calls come before the
      list is copied, aliased withdrawals included, the copy is on course. */
  lemma {:induction false} BulkStartsOnCourse(b: Bulk, ms: seq<Move>)
    requires BulkValid(b) && b.rest == [] && AllExist(b.advertise) && Covered(b)
    requires forall i :: 0 <= i < |ms| ==> MoveExists(ms[i])
    ensures OnCourse(Copied(MovedAll(b, ms))) && BulkValid(Copied(MovedAll(b, ms)))
    decreases |ms|
  {
    if ms == [] {
      CopyOnCourseExactly(b);
    } else {
      CallKeepsCovered(b, ms[0]);
      CallKeepsExisting(b, ms[0]);
      BulkStartsOnCourse(Moved(b, ms[0]), ms[1..]);
    }
  }

  /** Both phases together: calls before the copy, then calls about prefixes that are not waiting among
      the announcements. */
  lemma EstablishedEndsAdvertised(asn: nat, as': seq<Advert>, sent: seq<Msg>, early: seq<Move>, ms: seq<Move>)
    requires asn < 0x1_0000_0000 && AllExist(as') && Replay(sent) == map[]
    requires forall i :: 0 <= i < |early| ==> MoveExists(early[i])
    requires Calm(Copied(MovedAll(Bulk(asn, as', [], sent), early)), ms)
    ensures var end := MovedAll(Copied(MovedAll(Bulk(asn, as', [], sent), early)), ms);
            end.rest == [] ==> Table(end) == Advertised(end.advertise)
  {
    BulkStartsOnCourse(Bulk(asn, as', [], sent), early);
    CalmInterleavings(Copied(MovedAll(Bulk(asn, as', [], sent), early)), ms);
  }

  /** The race as it can happen: a route withdrawn while it waits in the bulk send stays at the
      neighbour for good. */
  lemma WithdrawnRouteSurvives(asn: nat, p: Prefix, nh: Ip, sent: seq<Msg>)
    requires asn < 0x1_0000_0000 && Exists(p) && Replay(sent) == map[]
    ensures var end := MovedAll(Bulk(asn, [(p, nh)], [(p, nh)], sent), [CallWithdraw(p), SendNext]);
            end.advertise == [] && end.rest == [] && Table(end) == map[Canon(p) := nh]
  {
    var b := Bulk(asn, [(p, nh)], [(p, nh)], sent);
    assert Without(b.advertise, p) == [] by {
      assert b.advertise[..0] == [];
    }
    var b1 := Moved(b, CallWithdraw(p));
    MovedTable(b, CallWithdraw(p));
    assert b1.advertise == [] && b1.rest == [(p, nh)] && Table(b1) == map[];
    var b2 := Moved(b1, SendNext);
    MovedTable(b1, SendNext);
    assert b2.advertise == [] && b2.rest == [] && Table(b2) == map[Canon(p) := nh];
    var ms := [CallWithdraw(p), SendNext];
    assert ms[1..] == [SendNext] && ms[1..][1..] == [];
    calc {
      MovedAll(b, ms);
      MovedAll(b1, ms[1..]);
      MovedAll(b2, ms[1..][1..]);
      b2;
    }
  }

  // ---- the receive loop over a stream ----

  predicate Due(ticks: seq<bool>, k: nat) { k < |ticks| && ticks[k] }

  /** What the receive loop does with these messages: at every turn the keepalive if it is due, then
      the next message, until a notification, or the end of the stream when there is none. */
  function Turns(ms: seq<Msg>, ticks: seq<bool>, k: nat): (es: seq<Event>)
    ensures es != []
    decreases |ms|
  {
    (if Due(ticks, k) then [KeepaliveDue] else []) + Turn(ms, ticks, k)
  }

  function Turn(ms: seq<Msg>, ticks: seq<bool>, k: nat): (es: seq<Event>)
    ensures es != []
    decreases |ms|, 0
  {
    if ms == [] then [Closed]
    else [Received(ms[0])] + if ms[0].mtype == NOTIFICATION then [] else Turns(ms[1..], ticks, k + 1)
  }

  /** The messages that are handled: all up to the first notification, and that one. */
  function Handled(ms: seq<Msg>): seq<Msg> {
    if ms == [] then [] else [ms[0]] + if ms[0].mtype == NOTIFICATION then [] else Handled(ms[1..])
  }

  function TypesOf(ms: seq<Msg>): seq<Byte> {
    if ms == [] then [] else [ms[0].mtype] + TypesOf(ms[1..])
  }

  predicate NoCalls(es: seq<Event>) {
    forall i :: 0 <= i < |es| ==> !es[i].Announce? && !es[i].Withdraw?
  }

  lemma {:induction false} TypesConcat(a: seq<Event>, b: seq<Event>)
    ensures Types(a + b) == Types(a) + Types(b)
  {
    if b == [] {
      assert a + b == a && Types(a) + [] == Types(a);
    } else {
      var n := |b| - 1;
      assert (a + b)[..|a + b| - 1] == a + b[..n];
      TypesConcat(a, b[..n]);
    }
  }

  lemma TypesOne(e: Event)
    ensures Types([e]) == if e.Received? then [e.m.mtype] else []
  {
    assert [e][..0] == [];
  }

  /** These events hear exactly the handled messages, in order; the stream is found closed exactly
      when there is no notification; they end then and not before, and make no calls. */
  predicate LoopOver(es: seq<Event>, ms: seq<Msg>) {
    && es != [] && Types(es) == TypesOf(Handled(ms)) && NoCalls(es)
    && Ended(es) && !Ended(es[..|es| - 1])
    && (es[|es| - 1] == Closed <==> NOTIFICATION !in TypesOf(ms))
  }

  lemma InFrontKeeps(e: Event, es: seq<Event>, ms: seq<Msg>, ms': seq<Msg>)
    requires LoopOver(es, ms) && (e.KeepaliveDue? || (e.Received? && e.m.mtype != NOTIFICATION))
    requires ms' == if e.KeepaliveDue? then ms else [e.m] + ms
    ensures LoopOver([e] + es, ms')
  {
    InFrontTypes(e, es, ms, ms');
    EndedInFront(e, es);
    NoCallsInFront(e, es);
    LastOfFront(e, es);
  }

  lemma EndedInFront(e: Event, es: seq<Event>)
    requires es != [] && (e.KeepaliveDue? || (e.Received? && e.m.mtype != NOTIFICATION))
    requires Ended(es) && !Ended(es[..|es| - 1])
    ensures Ended([e] + es) && !Ended(([e] + es)[..|es|])
  {
    EndedLater([e], es);
  }

  lemma NoCallsInFront(e: Event, es: seq<Event>)
    requires NoCalls(es) && !e.Announce? && !e.Withdraw?
    ensures NoCalls([e] + es)
  {
    assert forall i :: 0 < i < |es| + 1 ==> ([e] + es)[i] == es[i - 1];
  }

  lemma LastOfFront(e: Event, es: seq<Event>)
    requires es != []
    ensures ([e] + es)[|es|] == es[|es| - 1]
  {
  }

  lemma InFrontTypes(e: Event, es: seq<Event>, ms: seq<Msg>, ms': seq<Msg>)
    requires Types(es) == TypesOf(Handled(ms)) && (e.KeepaliveDue? || (e.Received? && e.m.mtype != NOTIFICATION))
    requires ms' == if e.KeepaliveDue? then ms else [e.m] + ms
    ensures Types([e] + es) == TypesOf(Handled(ms'))
    ensures NOTIFICATION in TypesOf(ms') <==> NOTIFICATION in TypesOf(ms)
  {
    TypesOne(e);
    TypesConcat([e], es);
    if e.Received? {
      assert ms'[1..] == ms;
      var h := Handled(ms);
      assert Handled(ms') == [e.m] + h && ([e.m] + h)[1..] == h;
    } else {
      assert [] + Types(es) == Types(es);
    }
  }

  lemma LastAlone(e: Event, ms: seq<Msg>)
    requires (e == Closed && ms == []) || (e.Received? && e.m.mtype == NOTIFICATION && ms != [] && ms[0] == e.m)
    ensures LoopOver([e], ms)
  {
    TypesOne(e);
    EndedLast([], e);
    assert [] + [e] == [e];
    if ms != [] { assert [ms[0]] + [] == Handled(ms) && Handled(ms)[1..] == []; }
  }

  lemma {:induction false} TurnsExactly(ms: seq<Msg>, ticks: seq<bool>, k: nat)
    ensures LoopOver(Turns(ms, ticks, k), ms)
    decreases |ms|
  {
    var rest := Turn(ms, ticks, k);
    if ms == [] {
      LastAlone(Closed, ms);
    } else if ms[0].mtype == NOTIFICATION {
      LastAlone(Received(ms[0]), ms);
      assert [Received(ms[0])] + [] == rest;
    } else {
      TurnsExactly(ms[1..], ticks, k + 1);
      assert ms == [ms[0]] + ms[1..];
      InFrontKeeps(Received(ms[0]), Turns(ms[1..], ticks, k + 1), ms[1..], ms);
    }
    if Due(ticks, k) {
      InFrontKeeps(KeepaliveDue, rest, ms, ms);
    } else {
      assert [] + rest == rest;
    }
  }

  /** The messages received, in order. */
  function Heard(es: seq<Event>): seq<Msg>
    decreases |es|
  {
    if es == [] then [] else (if es[0].Received? then [es[0].m] else []) + Heard(es[1..])
  }

  lemma HeardCons(e: Event, es: seq<Event>)
    ensures Heard([e] + es) == (if e.Received? then [e.m] else []) + Heard(es)
  {
    assert ([e] + es)[1..] == es;
  }

  /** Handled are all messages when there is no notification, and otherwise those up to the first
      one. */
  lemma {:induction false} HandledExactly(ms: seq<Msg>)
    ensures Handled(ms) <= ms
    ensures forall i :: 0 <= i < |Handled(ms)| - 1 ==> Handled(ms)[i].mtype != NOTIFICATION
    ensures |Handled(ms)| < |ms| ==> Handled(ms) != [] && Handled(ms)[|Handled(ms)| - 1].mtype == NOTIFICATION
  {
    if ms != [] && ms[0].mtype != NOTIFICATION {
      HandledExactly(ms[1..]);
      var h := Handled(ms[1..]);
      assert Handled(ms) == [ms[0]] + h;
      assert forall i :: 0 < i < |h| + 1 ==> ([ms[0]] + h)[i] == h[i - 1];
    }
  }

  /** The loop hears exactly the handled messages. */
  lemma {:induction false} HeardExactly(ms: seq<Msg>, ticks: seq<bool>, k: nat)
    ensures Heard(Turns(ms, ticks, k)) == Handled(ms)
    decreases |ms|
  {
    var rest := Turn(ms, ticks, k);
    HeardCons(KeepaliveDue, rest);
    assert [] + rest == rest && [] + Heard(rest) == Heard(rest);
    assert Heard(Turns(ms, ticks, k)) == Heard(rest);
    if ms == [] {
      HeardCons(Closed, []);
    } else if ms[0].mtype == NOTIFICATION {
      HeardCons(Received(ms[0]), []);
    } else {
      HeardCons(Received(ms[0]), Turns(ms[1..], ticks, k + 1));
      HeardExactly(ms[1..], ticks, k + 1);
    }
  }

  lemma EndedLast(a: seq<Event>, e: Event)
    requires forall i :: 0 <= i < |a| ==> a[i].KeepaliveDue?
    requires e.Closed? || (e.Received? && e.m.mtype == NOTIFICATION)
    ensures var es := a + [e]; Ended(es) && !Ended(es[..|es| - 1])
  {
    var es := a + [e];
    assert es[..|a|] == a && es[|a|] == e;
  }

  lemma EndedLater(a: seq<Event>, b: seq<Event>)
    requires b != [] && !Ended(a) && Ended(b) && !Ended(b[..|b| - 1])
    ensures var es := a + b; Ended(es) && !Ended(es[..|es| - 1])
  {
    var es, n := a + b, |a + b| - 1;
    var i :| 0 <= i < |b| && (b[i].Closed? || (b[i].Received? && b[i].m.mtype == NOTIFICATION));
    assert es[|a| + i] == b[i];
    assert es[..n] == a + b[..|b| - 1];
    forall j | 0 <= j < n ensures !(es[j].Closed? || (es[j].Received? && es[j].m.mtype == NOTIFICATION)) {
      if j < |a| { assert es[j] == a[j]; } else { assert es[j] == b[..|b| - 1][j - |a|]; }
    }
  }

  lemma ShakenPrefix(ts: seq<Byte>, n: nat)
    requires n <= |ts| && Shaken(ts[..n])
    ensures Shaken(ts)
  {
    var i, j :| 0 <= i < j < n && ts[..n][i] == OPEN && ts[..n][j] == KEEPALIVE;
    assert ts[i] == OPEN && ts[j] == KEEPALIVE;
  }

  /** The session is up after so many events. */
  predicate UpAt(s: Session, es: seq<Event>, k: nat)
    requires Valid(s)
  {
    k <= |es| && Run(s, es[..k]).established
  }

  ghost predicate ComesUp(s: Session, es: seq<Event>)
    requires Valid(s)
  {
    exists k: nat :: UpAt(s, es, k)
  }

  /** From the incoming messages: the session comes up at some moment of the receive loop exactly when
      they hold an OPEN and later a KEEPALIVE, both before any notification. */
  lemma ComesUpExactly(s: Session, ms: seq<Msg>, ticks: seq<bool>)
    requires Valid(s) && !s.gotOpen && !s.established && !s.over && NothingAnnounced(s.sent)
    ensures ComesUp(s, Turns(ms, ticks, 0)) <==> Shaken(TypesOf(Handled(ms)))
  {
    var es := Turns(ms, ticks, 0);
    TurnsExactly(ms, ticks, 0);
    if ComesUp(s, es) {
      var k: nat :| UpAt(s, es, k);
      UpIsShaken(s, es, k);
    }
    if Shaken(Types(es)) {
      LastIsNoKeepalive(es);
      EstablishedExactly(s, es[..|es| - 1]);
      assert UpAt(s, es, |es| - 1);
    }
  }

  lemma UpIsShaken(s: Session, es: seq<Event>, k: nat)
    requires Valid(s) && !s.gotOpen && !s.established && !s.over && NothingAnnounced(s.sent) && UpAt(s, es, k)
    ensures Shaken(Types(es))
  {
    EstablishedExactly(s, es[..k]);
    assert es == es[..k] + es[k..];
    TypesConcat(es[..k], es[k..]);
    var n := |Types(es[..k])|;
    assert Types(es)[..n] == Types(es[..k]);
    ShakenPrefix(Types(es), n);
  }

  /** What ends the loop is no KEEPALIVE, so the handshake is complete before. */
  lemma LastIsNoKeepalive(es: seq<Event>)
    requires es != [] && Ended(es) && !Ended(es[..|es| - 1]) && Shaken(Types(es))
    ensures Shaken(Types(es[..|es| - 1]))
  {
    var n := |es| - 1;
    EndedAppend(es);
    if es[n].Received? {
      ShakenAppend(Types(es[..n]), es[n].m.mtype);
    } else {
      assert Types(es[..n]) + [] == Types(es[..n]);
    }
  }

  lemma EndedPrefix(es: seq<Event>, n: nat)
    requires n <= |es| && !Ended(es)
    ensures !Ended(es[..n])
  {
    forall i | 0 <= i < n
      ensures !(es[..n][i].Closed? || (es[..n][i].Received? && es[..n][i].m.mtype == NOTIFICATION))
    {
      assert es[..n][i] == es[i];
    }
  }

  /** Without calls, the neighbour's table follows the handshake alone. */
  lemma {:induction false} HandshakeFillsTable(s: Session, es: seq<Event>)
    requires Valid(s) && !s.gotOpen && !s.established && !s.over && NothingAnnounced(s.sent)
    requires Replay(s.sent) == map[] && AllExist(s.advertise)
    requires NoCalls(es) && (es != [] ==> !Ended(es[..|es| - 1]))
    ensures var t := Run(s, es);
            && t.advertise == s.advertise && t.asn == s.asn
            && Replay(t.sent) == if Shaken(Types(es)) then Advertised(s.advertise) else map[]
    decreases |es|
  {
    if es != [] {
      var n := |es| - 1;
      var init, e := es[..n], es[n];
      if n > 0 {
        EndedPrefix(init, n - 1);
        assert init[..n - 1] == es[..n - 1];
      }
      assert NoCalls(init);
      HandshakeFillsTable(s, init);
      EstablishedExactly(s, init);
      RunSplit(s, es);
      StepFillsTable(Run(s, init), Types(init), e);
      if e.Received? {
        ShakenAppend(Types(init), e.m.mtype);
      } else {
        assert Types(init) + [] == Types(init);
      }
    }
  }

  lemma StepFillsTable(s: Session, ts: seq<Byte>, e: Event)
    requires Valid(s) && AllExist(s.advertise) && !e.Announce? && !e.Withdraw? && !s.over
    requires (s.gotOpen <==> OPEN in ts) && (s.established <==> Shaken(ts))
    requires Replay(s.sent) == if Shaken(ts) then Advertised(s.advertise) else map[]
    ensures var t := Step(s, e);
            && t.advertise == s.advertise && t.asn == s.asn
            && Replay(t.sent) ==
                 if Shaken(ts) || (e.Received? && OPEN in ts && e.m.mtype == KEEPALIVE) then Advertised(s.advertise)
                 else map[]
  {
    ReplayAppend(s.sent, Msg(KEEPALIVE, []));
    if e.Received? && e.m.mtype == KEEPALIVE && s.gotOpen && !s.established {
      ReplayAnnouncements(s.sent, s.asn, s.advertise);
    }
  }

  /** From bytes to bytes: whatever pieces the neighbour's stream comes in, the bytes sent to it by the
      time the receive loop is over build the table of what was to be advertised if its own bytes held
      an OPEN and later a KEEPALIVE before any notification, and the empty table if not.  (What a
      neighbour does with its table when the connection closes is not part of this.) */
  lemma BytesInTableOut(asn: nat, hold: nat, id: Ip, advertise: seq<Advert>, bs: seq<Byte>, ticks: seq<bool>)
    requires asn < 0x1_0000_0000 && hold < 0x1_0000 && AllExist(advertise)
    ensures var t := Run(Start(asn, hold, id, advertise), Turns(Messages(bs), ticks, 0));
            && t.over && !t.established && AllFit(t.sent)
            && RibOfBytes(EncodeAll(t.sent)) ==
                 if Shaken(TypesOf(Handled(Messages(bs)))) then Advertised(advertise) else map[]
  {
    var s, es := Start(asn, hold, id, advertise), Turns(Messages(bs), ticks, 0);
    StartAcceptable(asn, hold, id, advertise);
    TurnsExactly(Messages(bs), ticks, 0);
    EstablishedExactly(s, es);
    HandshakeFillsTable(s, es);
    NeighbourReadsAll(asn, hold, id, advertise, es);
  }

  // ---- the speaker ----

  class PyBgpPeer {
    const asn: nat
    const hold: nat
    const id: Ip
    var advertise: seq<Advert>
    var gotOpen: bool
    var established: bool
    var over: bool
    var sent: seq<Msg>

    function State(): Session
      reads this
    {
      Session(asn, advertise, gotOpen, established, over, sent)
    }

    constructor (asn: nat, hold: nat, id: Ip, advertise: seq<Advert>)
      requires asn < 0x1_0000_0000 && hold < 0x1_0000
      ensures State() == Start(asn, hold, id, advertise)
    {
      this.asn, this.hold, this.id, this.advertise := asn, hold, id, advertise;
      gotOpen, established, over := false, false, false;
      sent := [OpenMsg(asn, hold, id)];
    }

    method Announce(p: Prefix, nextHop: Ip)
      requires Valid(State())
      modifies this`advertise, this`sent
      ensures State() == Step(old(State()), Event.Announce(p, nextHop))
    {
      advertise := advertise + [(p, nextHop)];
      if established {
        sent := sent + [AnnounceMsg(asn, p, nextHop)];
      }
    }

    method Withdraw(p: Prefix)
      requires Valid(State())
      modifies this`advertise, this`sent
      ensures State() == Step(old(State()), Event.Withdraw(p))
    {
      var kept: seq<Advert> := [];
      var k := 0;
      while k < |advertise|
        invariant 0 <= k <= |advertise|
        invariant kept == Without(advertise[..k], p)
        invariant advertise == old(advertise) && sent == old(sent)
      {
        assert advertise[..k + 1][..k] == advertise[..k];
        if advertise[k].0 != p {
          kept := kept + [advertise[k]];
        }
        k := k + 1;
      }
      assert advertise[..k] == advertise;
      advertise := kept;
      if established {
        sent := sent + [WithdrawMsg(p)];
      }
    }

    method SendAllAnnounce()
      requires asn < 0x1_0000_0000
      modifies this`sent
      ensures sent == old(sent) + Announcements(asn, advertise)
    {
      var k := 0;
      while k < |advertise|
        invariant 0 <= k <= |advertise|
        invariant sent == old(sent) + Announcements(asn, advertise[..k])
      {
        assert advertise[..k + 1][..k] == advertise[..k];
        sent := sent + [AnnounceMsg(asn, advertise[k].0, advertise[k].1)];
        k := k + 1;
      }
      assert advertise[..k] == advertise;
    }

    /** The receive loop, until the stream ends or a notification arrives; `ticks` says at which
        turns the periodic keepalive is due. */
    method Receive(sock: Socket, ticks: seq<bool>)
      requires Valid(State()) && Proper(sock.todo) && !over
      modifies this`gotOpen, this`established, this`over, this`sent, sock
      ensures State() == Run(old(State()), Turns(Messages(Incoming(old(sock.todo))), ticks, 0))
    {
      ghost var all := Turns(Messages(Incoming(sock.todo)), ticks, 0);
      var turn := 0;
      while !over
        invariant Proper(sock.todo) && Valid(State())
        invariant Run(old(State()), all) ==
                  if over then State() else Run(State(), Turns(Messages(Incoming(sock.todo)), ticks, turn))
        decreases !over, |Incoming(sock.todo)|
      {
        TurnsStep(State(), Messages(Incoming(sock.todo)), ticks, turn);
        var due := turn < |ticks| && ticks[turn];
        var _ := TakeTurn(sock, due);
        turn := turn + 1;
      }
    }

    /** The keepalive if it is due, then the next message or the end of the stream. */
    method TakeTurn(sock: Socket, due: bool) returns (m: Maybe<Msg>)
      requires Valid(State()) && Proper(sock.todo) && !over
      modifies this`gotOpen, this`established, this`over, this`sent, sock
      ensures Proper(sock.todo)
      ensures var ms, s := Messages(Incoming(old(sock.todo))), Kept(old(State()), due);
              && (ms == [] ==> m == Nothing && State() == Step(s, Closed))
              && (ms != [] ==> m == Just(ms[0]) && State() == OnMessage(s, ms[0])
                               && Messages(Incoming(sock.todo)) == ms[1..]
                               && |Incoming(sock.todo)| < |Incoming(old(sock.todo))|)
    {
      if due {
        sent := sent + [Msg(KEEPALIVE, [])];
      }
      m := sock.RecvMsg();
      if m.Nothing? {
        over, established := true, false;
      } else {
        assert ([m.value] + Messages(Incoming(sock.todo)))[1..] == Messages(Incoming(sock.todo));
        Handle(m.value);
      }
    }

    method Handle(m: Msg)
      requires Valid(State()) && !over
      modifies this`gotOpen, this`established, this`over, this`sent
      ensures State() == OnMessage(old(State()), m)
    {
      if m.mtype == OPEN {
        gotOpen := true;
        sent := sent + [Msg(KEEPALIVE, [])];
      } else if m.mtype == KEEPALIVE {
        if gotOpen && !established {
          established := true;
          SendAllAnnounce();
        }
      } else if m.mtype == NOTIFICATION {
        over, established := true, false;
      }
    }
  }

  lemma RunCons(s: Session, e: Event, es: seq<Event>)
    requires Valid(s)
    ensures Run(s, [e] + es) == Run(Step(s, e), es)
  {
    assert ([e] + es)[1..] == es;
  }

  function Kept(s: Session, due: bool): Session {
    if due then s.(sent := s.sent + [Msg(KEEPALIVE, [])]) else s
  }

  /** One turn of the loop. */
  lemma TurnsStep(s: Session, ms: seq<Msg>, ticks: seq<bool>, k: nat)
    requires Valid(s) && !s.over
    ensures var t := Kept(s, Due(ticks, k));
            && (ms == [] ==> Run(s, Turns(ms, ticks, k)) == Step(t, Closed))
            && (ms != [] ==>
                  Run(s, Turns(ms, ticks, k)) ==
                  if ms[0].mtype == NOTIFICATION then OnMessage(t, ms[0])
                  else Run(OnMessage(t, ms[0]), Turns(ms[1..], ticks, k + 1)))
  {
    var t := Kept(s, Due(ticks, k));
    var rest := Turn(ms, ticks, k);
    if Due(ticks, k) {
      RunCons(s, KeepaliveDue, rest);
    } else {
      assert [] + rest == rest;
    }
    assert Run(s, Turns(ms, ticks, k)) == Run(t, rest);
    if ms == [] {
      RunCons(t, Closed, []);
      assert [Closed] + [] == [Closed];
    } else {
      RunCons(t, Received(ms[0]), if ms[0].mtype == NOTIFICATION then [] else Turns(ms[1..], ticks, k + 1));
    }
  }
}
