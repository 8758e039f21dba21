/** Worker views (framework/worker.py): how a second worker's VLANs and addresses are moved away
    from the first one's. */
module Worker {
  import opened Arithmetic

  // ---- VLANs ----

  function RemapVid(w: nat, v: int): int {
    if w <= 1 then v else if v >= 3900 then v - 10 * (w - 1) else v + 430 * (w - 1)
  }

  function RemapDefaultVlan(w: nat, dv: int): int { if w <= 1 then dv else dv + 430 * (w - 1) }

  /** Worker 0 is the single process; it and worker 1 share one view. */
  function Lane(w: nat): nat { if w <= 1 then 0 else w - 1 }

  function Image(w: nat, vs: set<int>): set<int> { set v | v in vs :: RemapVid(w, v) }

  function Low(vs: set<int>): set<int> { set v | v in vs && v < 3900 }

  function High(vs: set<int>): set<int> { set v | v in vs && v >= 3900 }

  /** No two of these are a multiple of `step` apart, that many lanes away from each other. */
  predicate Spread(vs: set<int>, step: int, lanes: nat) {
    forall u, v :: u in vs && v in vs ==> u - v != step * lanes
  }

  lemma RemapIsShift(w: nat, v: int)
    ensures RemapVid(w, v) == if v >= 3900 then v - 10 * Lane(w) else v + 430 * Lane(w)
  {
  }

  /** The low VLANs of one worker stay below the high VLANs of another. */
  predicate Below(low: set<int>, w: nat, high: set<int>, x: nat) {
    forall u, v :: u in low && v in high ==> RemapVid(w, u) < RemapVid(x, v)
  }

  /** Exactly when the images of two workers are disjoint, as long as low images stay below high
      ones: when no two low VLANs are 430 times the distance of the lanes apart and no two high VLANs
      10 times. */
  lemma ImagesDisjointExactly(vs: set<int>, w: nat, x: nat)
    requires Lane(w) < Lane(x)
    requires Below(Low(vs), w, High(vs), x) && Below(Low(vs), x, High(vs), w)
    ensures Image(w, vs) !! Image(x, vs) <==>
            Spread(Low(vs), 430, Lane(x) - Lane(w)) && Spread(High(vs), 10, Lane(x) - Lane(w))
  {
    var d := Lane(x) - Lane(w);
    if Spread(Low(vs), 430, d) && Spread(High(vs), 10, d) {
      forall u, v | u in vs && v in vs ensures RemapVid(w, u) != RemapVid(x, v) {
        NoMeeting(vs, u, v, w, x);
      }
    } else if !Spread(Low(vs), 430, d) {
      var u, v :| u in Low(vs) && v in Low(vs) && u - v == 430 * d;
      SharedImage(vs, u, v, w, x);
    } else {
      var u, v :| u in High(vs) && v in High(vs) && u - v == 10 * d;
      SharedImage(vs, v, u, w, x);
    }
  }

  lemma NoMeeting(vs: set<int>, u: int, v: int, w: nat, x: nat)
    requires Lane(w) < Lane(x) && u in vs && v in vs
    requires Below(Low(vs), w, High(vs), x) && Below(Low(vs), x, High(vs), w)
    requires Spread(Low(vs), 430, Lane(x) - Lane(w)) && Spread(High(vs), 10, Lane(x) - Lane(w))
    ensures RemapVid(w, u) != RemapVid(x, v)
  {
    assert (u in Low(vs) || u in High(vs)) && (v in Low(vs) || v in High(vs));
    if RemapVid(w, u) == RemapVid(x, v) {
      SameImage(u, v, w, x);
      NotCrossing(vs, u, v, w, x);
    }
  }

  lemma NotCrossing(vs: set<int>, u: int, v: int, w: nat, x: nat)
    requires u in vs && v in vs && RemapVid(w, u) == RemapVid(x, v)
    requires Below(Low(vs), w, High(vs), x) && Below(Low(vs), x, High(vs), w)
    ensures u in Low(vs) <==> v in Low(vs)
  {
    assert u in Low(vs) && v in High(vs) ==> RemapVid(w, u) < RemapVid(x, v);
    assert v in Low(vs) && u in High(vs) ==> RemapVid(x, v) < RemapVid(w, u);
  }

  lemma SameImage(u: int, v: int, w: nat, x: nat)
    requires Lane(w) < Lane(x) && RemapVid(w, u) == RemapVid(x, v)
    ensures u < 3900 && v < 3900 ==> u - v == 430 * (Lane(x) - Lane(w))
    ensures u >= 3900 && v >= 3900 ==> v - u == 10 * (Lane(x) - Lane(w))
  {
    RemapIsShift(w, u);
    RemapIsShift(x, v);
  }

  lemma SharedImage(vs: set<int>, u: int, v: int, w: nat, x: nat)
    requires u in vs && v in vs && RemapVid(w, u) == RemapVid(x, v)
    ensures !(Image(w, vs) !! Image(x, vs))
  {
    assert RemapVid(w, u) in Image(w, vs) && RemapVid(x, v) in Image(x, vs);
  }

  /** The audit's rule: ids below 3900 differ modulo 430, the others modulo 10. */
  predicate ResiduesDiffer(vs: set<int>) {
    && (forall u, v :: u in Low(vs) && v in Low(vs) && u != v ==> u % 430 != v % 430)
    && (forall u, v :: u in High(vs) && v in High(vs) && u != v ==> u % 10 != v % 10)
  }

  /** Every two workers get disjoint views, however many there are, exactly when the residues
      differ up to the distance of their lanes; the audit's rule is enough for all distances. */
  lemma AuditSeparatesAll(vs: set<int>, w: nat, x: nat)
    requires ResiduesDiffer(vs) && Lane(w) != Lane(x)
    requires Below(Low(vs), w, High(vs), x) && Below(Low(vs), x, High(vs), w)
    ensures Image(w, vs) !! Image(x, vs)
  {
    if Lane(w) > Lane(x) {
      AuditSeparatesAll(vs, x, w);
    } else {
      ResiduesSpread(vs, Lane(x) - Lane(w));
      ImagesDisjointExactly(vs, w, x);
    }
  }

  lemma ResiduesSpread(vs: set<int>, d: nat)
    requires ResiduesDiffer(vs) && d > 0
    ensures Spread(Low(vs), 430, d) && Spread(High(vs), 10, d)
  {
    forall u, v | u in Low(vs) && v in Low(vs) ensures u - v != 430 * d {
      if u - v == 430 * d { SameResidue(u, v, 430, d); }
    }
    forall u, v | u in High(vs) && v in High(vs) ensures u - v != 10 * d {
      if u - v == 10 * d { SameResidue(u, v, 10, d); }
    }
  }

  lemma SameResidue(u: int, v: int, m: nat, d: nat)
    requires m > 0 && u - v == m * d
    ensures u % m == v % m
  {
    var q := v / m;
    assert v == m * q + v % m;
    assert u == m * (q + d) + v % m by { Distribute(m, q, d); }
    Remainder(u, m, q + d, v % m);
  }

  /** The ids the comment lists for worker 1. */
  const AUDITED: set<int> :=
    {110, 120, 320, 321, 322, 323, 324, 325, 360, 361, 1000, 2000, 3990, 3991, 3992, 3993}

  lemma AuditedResidue(u: int)
    requires u in AUDITED
    ensures u < 3900 ==> u % 430 == if u == 1000 then 140 else if u == 2000 then 280 else u
    ensures u < 3900 ==> 110 <= u <= 2000 && u != 140 && u != 280
    ensures u >= 3900 ==> u % 10 == u - 3990 && 3990 <= u <= 3993
  {
  }

  lemma AuditedMeetsRule()
    ensures ResiduesDiffer(AUDITED)
  {
    forall u, v | u in Low(AUDITED) && v in Low(AUDITED) && u != v ensures u % 430 != v % 430 {
      AuditedResidue(u);
      AuditedResidue(v);
    }
    forall u, v | u in High(AUDITED) && v in High(AUDITED) && u != v ensures u % 10 != v % 10 {
      AuditedResidue(u);
      AuditedResidue(v);
    }
  }

  lemma AuditedBelow(w: nat, x: nat)
    requires w <= 5 && x <= 5
    ensures Below(Low(AUDITED), w, High(AUDITED), x)
  {
    forall u, v | u in Low(AUDITED) && v in High(AUDITED) ensures RemapVid(w, u) < RemapVid(x, v) {
      AuditedResidue(u);
      AuditedResidue(v);
    }
  }

  /** They meet the rule, so any two of the first five workers are apart, within the VLAN range. */
  lemma AuditedSeparate(w: nat, x: nat)
    requires w <= 5 && x <= 5 && Lane(w) != Lane(x)
    ensures Image(w, AUDITED) !! Image(x, AUDITED)
    ensures forall i :: i in Image(w, AUDITED) ==> 0 < i < 4094
  {
    AuditedMeetsRule();
    AuditedBelow(w, x);
    AuditedBelow(x, w);
    AuditSeparatesAll(AUDITED, w, x);
    forall v | v in AUDITED ensures 0 < RemapVid(w, v) < 4094 {
      AuditedResidue(v);
    }
  }

  /** Without the audit's rule two workers can meet: VLANs 430 apart. */
  lemma NeighboursMeet(v: int)
    requires v < 3470
    ensures RemapVid(1, v + 430) == RemapVid(2, v)
  {
  }

  /** The private default VLAN is the image of the shared one while that is a low one. */
  lemma DefaultVlanMoves(w: nat, dv: int)
    ensures RemapDefaultVlan(w, dv) == RemapVid(w, dv) <==> w <= 1 || dv < 3900
  {
  }

  // ---- addresses ----

  /** An IPv4 address as the numbers between its dots, which may be out of range. */
  datatype Ip4 = Ip4(a: int, b: int, c: int, d: int)

  predicate Real(ip: Ip4) {
    0 <= ip.a < 256 && 0 <= ip.b < 256 && 0 <= ip.c < 256 && 0 <= ip.d < 256
  }

  function SecondOctet(w: nat, b: int): int {
    if b + 100 * (w - 1) > 255 then b - 100 * (w - 1) else b + 100 * (w - 1)
  }

  function RemapIp4(w: nat, ip: Ip4): Ip4 {
    if w <= 1 || ip.a != 10 then ip else ip.(b := SecondOctet(w, ip.b))
  }

  /** The moved address is an address exactly when its second octet has room on one side: always for
      worker 2; for worker 3 not for 56 to 199; from worker 4 on the room on either side shrinks to
      nothing. */
  lemma RemapStaysRealExactly(w: nat, ip: Ip4)
    requires Real(ip)
    ensures Real(RemapIp4(w, ip)) <==>
            w <= 1 || ip.a != 10 || ip.b <= 255 - 100 * (w - 1) || ip.b >= 100 * (w - 1)
    ensures w == 2 ==> Real(RemapIp4(w, ip))
    ensures w == 3 ==> (Real(RemapIp4(w, ip)) <==> ip.a != 10 || ip.b < 56 || ip.b >= 200)
    ensures w >= 4 ==> (Real(RemapIp4(w, ip)) <==> ip.a != 10)
  {
  }

  /** Only the addresses of the tests are moved, each by 100 for every worker before, up where there is
      room; the rest of the address stays. */
  lemma RemapMovesExactly(w: nat, ip: Ip4)
    ensures var t := RemapIp4(w, ip);
            && (t == ip <==> w <= 1 || ip.a != 10)
            && t.a == ip.a && t.c == ip.c && t.d == ip.d
            && (w >= 2 && ip.a == 10 ==>
                  t.b == if ip.b <= 255 - 100 * (w - 1) then ip.b + 100 * (w - 1) else ip.b - 100 * (w - 1))
  {
  }

  /** Where the first two workers meet: an address that worker 1 keeps is one that worker 2 moves to if and
      only if their second octets are 100 apart, on the right side. */
  lemma WorkersMeetExactly(x: Ip4, y: Ip4)
    requires Real(x) && Real(y) && x.a == y.a == 10
    ensures RemapIp4(1, x) == RemapIp4(2, y) <==>
            x.c == y.c && x.d == y.d && ((y.b <= 155 && x.b == y.b + 100) || (y.b >= 156 && y.b == x.b + 100))
  {
    RemapMovesExactly(1, x);
    RemapMovesExactly(2, y);
  }

  /** Moving twice as worker 2 is the identity exactly from second octet 56 on: below, both moves go
      up. */
  lemma RemapTwiceExactly(ip: Ip4)
    requires Real(ip)
    ensures RemapIp4(2, RemapIp4(2, ip)) == ip <==> ip.a != 10 || ip.b >= 56
  {
  }

  // ---- subnets ----

  datatype Cidr = Cidr(ip: Ip4, plen: nat)

  function RemapCidr(w: nat, s: Cidr): Cidr { s.(ip := RemapIp4(w, s.ip)) }

  function Number(ip: Ip4): int { ((ip.a * 256 + ip.b) * 256 + ip.c) * 256 + ip.d }

  /** The addresses that share a prefix of this length. */
  predicate SamePrefix(x: Ip4, y: Ip4, plen: nat)
    requires plen <= 32
  {
    Number(x) / PowTwo(32 - plen) == Number(y) / PowTwo(32 - plen)
  }

  /** One subnet lies within the other. */
  predicate Within(inner: Cidr, outer: Cidr) {
    outer.plen <= inner.plen <= 32 && SamePrefix(inner.ip, outer.ip, outer.plen)
  }

  /** From length 16 on, sharing a prefix is sharing two octets and a prefix of the rest. */
  lemma SamePrefixFrom16(x: Ip4, y: Ip4, plen: nat)
    requires Real(x) && Real(y) && 16 <= plen <= 32
    ensures SamePrefix(x, y, plen) <==>
            && x.a == y.a && x.b == y.b
            && (x.c * 256 + x.d) / PowTwo(32 - plen) == (y.c * 256 + y.d) / PowTwo(32 - plen)
  {
    var k, r := PowTwo(32 - plen), PowTwo(plen - 16);
    PowersMultiply(32 - plen, plen - 16);
    assert k * r == 65536 by { SixteenBits(); }
    SameDigits(x, y, k, r);
  }

  lemma SameDigits(x: Ip4, y: Ip4, k: nat, r: nat)
    requires Real(x) && Real(y) && k > 0 && r > 0 && k * r == 65536
    ensures Number(x) / k == Number(y) / k <==>
            x.a == y.a && x.b == y.b && (x.c * 256 + x.d) / k == (y.c * 256 + y.d) / k
  {
    SplitNumber(x, k, r);
    SplitNumber(y, k, r);
    var tx, ty := (x.c * 256 + x.d) / k, (y.c * 256 + y.d) / k;
    TailBound(x.c * 256 + x.d, k, r);
    TailBound(y.c * 256 + y.d, k, r);
    SameHeads(x, y, r, tx, ty);
  }

  lemma SameHeads(x: Ip4, y: Ip4, r: nat, tx: int, ty: int)
    requires Real(x) && Real(y) && 0 <= tx < r && 0 <= ty < r
    ensures r * (x.a * 256 + x.b) + tx == r * (y.a * 256 + y.b) + ty <==> x.a == y.a && x.b == y.b && tx == ty
  {
    if r * (x.a * 256 + x.b) + tx == r * (y.a * 256 + y.b) + ty {
      TwoDigits(r, x.a * 256 + x.b, tx, y.a * 256 + y.b, ty);
    }
  }

  lemma SixteenBits()
    ensures PowTwo(16) == 65536
  {
    assert PowTwo(4) == 16;
    PowersMultiply(4, 4);
    PowersMultiply(8, 8);
  }

  lemma SplitNumber(x: Ip4, k: nat, r: nat)
    requires Real(x) && k > 0 && k * r == 65536
    ensures Number(x) / k == r * (x.a * 256 + x.b) + (x.c * 256 + x.d) / k
  {
    var hi, lo := x.a * 256 + x.b, x.c * 256 + x.d;
    var q := lo / k;
    assert Number(x) == 65536 * hi + lo;
    assert 65536 * hi == k * (r * hi) by { Associate(k, r, hi); }
    assert lo == k * q + lo % k;
    Distribute(k, r * hi, q);
    Quotient(Number(x), k, r * hi + q, lo % k);
  }

  lemma TailBound(lo: int, k: nat, r: nat)
    requires 0 <= lo < 65536 && k > 0 && k * r == 65536
    ensures 0 <= lo / k < r
  {
    var q := lo / k;
    assert lo == k * q + lo % k;
    MulMono(k, r, q);
  }

  lemma TwoDigits(r: nat, h: int, t: int, h': int, t': int)
    requires 0 <= t < r && 0 <= t' < r && r * h + t == r * h' + t'
    ensures h == h' && t == t'
  {
    Quotient(r * h + t, r, h, t);
    Quotient(r * h' + t', r, h', t');
  }

  /** The two second octets worker 2 moves to one place: 200 apart. */
  predicate Clash(x: Ip4, y: Ip4) { x.a == 10 && y.a == 10 && (x.b - y.b == 200 || y.b - x.b == 200) }

  /** Up to length 16, sharing a prefix is sharing one of the first two octets. */
  lemma SamePrefixTo16(x: Ip4, y: Ip4, plen: nat)
    requires Real(x) && Real(y) && plen <= 16
    ensures SamePrefix(x, y, plen) <==>
            (x.a * 256 + x.b) / PowTwo(16 - plen) == (y.a * 256 + y.b) / PowTwo(16 - plen)
  {
    SixteenBits();
    PowersMultiply(16, 16 - plen);
    forall z | z == x || z == y ensures Number(z) / PowTwo(32 - plen) == (z.a * 256 + z.b) / PowTwo(16 - plen) {
      Quotient(Number(z), 65536, z.a * 256 + z.b, z.c * 256 + z.d);
      DivDiv(Number(z), 65536, PowTwo(16 - plen));
    }
  }

  /** Up to length 8 it is sharing one of the first octet. */
  lemma SamePrefixTo8(x: Ip4, y: Ip4, plen: nat)
    requires Real(x) && Real(y) && plen <= 8
    ensures SamePrefix(x, y, plen) <==> x.a / PowTwo(8 - plen) == y.a / PowTwo(8 - plen)
  {
    SamePrefixTo16(x, y, plen);
    PowersMultiply(8, 8 - plen);
    SmallPowers();
    forall z | z == x || z == y ensures (z.a * 256 + z.b) / PowTwo(16 - plen) == z.a / PowTwo(8 - plen) {
      Quotient(z.a * 256 + z.b, 256, z.a, z.b);
      DivDiv(z.a * 256 + z.b, 256, PowTwo(8 - plen));
    }
  }

  lemma SmallPowers()
    ensures PowTwo(1) == 2 && PowTwo(2) == 4 && PowTwo(3) == 8 && PowTwo(4) == 16
    ensures PowTwo(5) == 32 && PowTwo(6) == 64 && PowTwo(7) == 128 && PowTwo(8) == 256
  {
    assert PowTwo(2) == 4 && PowTwo(3) == 8 && PowTwo(4) == 16;
    assert PowTwo(5) == 32 && PowTwo(6) == 64;
  }

  lemma ShortKept(x: Ip4, y: Ip4, plen: nat)
    requires Real(x) && Real(y) && plen <= 8 && SamePrefix(x, y, plen)
    ensures SamePrefix(RemapIp4(2, x), RemapIp4(2, y), plen)
  {
    RemapStaysRealExactly(2, x);
    RemapStaysRealExactly(2, y);
    SamePrefixTo8(x, y, plen);
    SamePrefixTo8(RemapIp4(2, x), RemapIp4(2, y), plen);
  }

  lemma LongKept(x: Ip4, y: Ip4, plen: nat)
    requires Real(x) && Real(y) && 16 <= plen <= 32 && SamePrefix(x, y, plen)
    ensures SamePrefix(RemapIp4(2, x), RemapIp4(2, y), plen)
  {
    RemapStaysRealExactly(2, x);
    RemapStaysRealExactly(2, y);
    SamePrefixFrom16(x, y, plen);
    SamePrefixFrom16(RemapIp4(2, x), RemapIp4(2, y), plen);
  }

  lemma BlockKept(x: Ip4, y: Ip4, plen: nat)
    requires Real(x) && Real(y) && 14 <= plen <= 15 && SamePrefix(x, y, plen)
    ensures SamePrefix(RemapIp4(2, x), RemapIp4(2, y), plen)
  {
    RemapStaysRealExactly(2, x);
    RemapStaysRealExactly(2, y);
    SmallPowers();
    SamePrefixTo16(x, y, plen);
    SamePrefixTo16(RemapIp4(2, x), RemapIp4(2, y), plen);
    BlocksMove(x, y, if plen == 14 then 4 else 2);
  }

  /** Worker 2's move keeps which subnet lies in which when the outer length is at most 8, as the
      first octet stays, or at least 14, as both parts of the second octet move by whole blocks. */
  lemma RemapKeepsContainment(inner: Cidr, outer: Cidr)
    requires Real(inner.ip) && Real(outer.ip) && (outer.plen <= 8 || outer.plen >= 14)
    requires Within(inner, outer)
    ensures Within(RemapCidr(2, inner), RemapCidr(2, outer))
  {
    if outer.plen <= 8 {
      ShortKept(inner.ip, outer.ip, outer.plen);
    } else if outer.plen >= 16 {
      LongKept(inner.ip, outer.ip, outer.plen);
    } else {
      BlockKept(inner.ip, outer.ip, outer.plen);
    }
  }

  /** Blocks of two and of four second octets lie wholly on one side of 156. */
  lemma BlocksMove(x: Ip4, y: Ip4, k: nat)
    requires Real(x) && Real(y) && (k == 2 || k == 4) && (x.a * 256 + x.b) / k == (y.a * 256 + y.b) / k
    ensures var x', y' := RemapIp4(2, x), RemapIp4(2, y);
            (x'.a * 256 + x'.b) / k == (y'.a * 256 + y'.b) / k
  {
    SameBlock(x, y, k);
    var x', y' := RemapIp4(2, x), RemapIp4(2, y);
    RemapStaysRealExactly(2, x);
    RemapStaysRealExactly(2, y);
    SameBlock(x', y', k);
    BlockMoves(x.b, y.b, k);
  }

  lemma SameBlock(x: Ip4, y: Ip4, k: nat)
    requires Real(x) && Real(y) && (k == 2 || k == 4)
    ensures (x.a * 256 + x.b) / k == (y.a * 256 + y.b) / k <==> x.a == y.a && x.b / k == y.b / k
  {
    BlockOf(x.a, x.b, k);
    BlockOf(y.a, y.b, k);
    if (x.a * 256 + x.b) / k == (y.a * 256 + y.b) / k {
      TwoDigits(256 / k, x.a, x.b / k, y.a, y.b / k);
    }
  }

  lemma BlockOf(a: int, b: int, k: nat)
    requires 0 <= a < 256 && 0 <= b < 256 && (k == 2 || k == 4)
    ensures (a * 256 + b) / k == 256 / k * a + b / k && 0 <= b / k < 256 / k
  {
    if k == 2 { PairOf(a, b); } else { QuadOf(a, b); }
  }

  lemma PairOf(a: int, b: int)
    requires 0 <= b < 256
    ensures (a * 256 + b) / 2 == 128 * a + b / 2 && 0 <= b / 2 < 128
  {
  }

  lemma QuadOf(a: int, b: int)
    requires 0 <= b < 256
    ensures (a * 256 + b) / 4 == 64 * a + b / 4 && 0 <= b / 4 < 64
  {
  }

  lemma BlockMoves(b: int, b': int, k: nat)
    requires 0 <= b < 256 && 0 <= b' < 256 && (k == 2 || k == 4) && b / k == b' / k
    ensures SecondOctet(2, b) / k == SecondOctet(2, b') / k
  {
    if k == 2 {
      assert b <= 155 <==> b / 2 <= 77;
    } else {
      assert b <= 155 <==> b / 4 <= 38;
    }
  }

  /** For the lengths in between, 10.156.0.0/16 leaves the subnet of 10.152.0.0. */
  lemma MiddleLengthsBreak(plen: nat)
    requires 9 <= plen <= 13
    ensures var inner, outer := Cidr(Ip4(10, 156, 0, 0), 16), Cidr(Ip4(10, 152, 0, 0), plen);
            Within(inner, outer) && !Within(RemapCidr(2, inner), RemapCidr(2, outer))
  {
    var x, y := Ip4(10, 156, 0, 0), Ip4(10, 152, 0, 0);
    SamePrefixTo16(x, y, plen);
    assert RemapIp4(2, x) == Ip4(10, 56, 0, 0) && RemapIp4(2, y) == Ip4(10, 252, 0, 0);
    SamePrefixTo16(Ip4(10, 56, 0, 0), Ip4(10, 252, 0, 0), plen);
    MiddleQuotients(plen);
  }

  lemma MiddleQuotients(plen: nat)
    requires 9 <= plen <= 13
    ensures var k := PowTwo(16 - plen); 2716 / k == 2712 / k && 2616 / k != 2812 / k
  {
    SmallPowers();
  }

  /** Every two real subnets, the outer one of this length, lie in each other after the move when
      they did before. */
  ghost predicate KeepsAt(plen: nat) {
    forall inner: Cidr, outer: Cidr ::
      (Real(inner.ip) && Real(outer.ip) && outer.plen == plen && Within(inner, outer)) ==>
        Within(RemapCidr(2, inner), RemapCidr(2, outer))
  }

  /** The same backwards. */
  ghost predicate ReflectsAt(plen: nat) {
    forall inner: Cidr, outer: Cidr ::
      (Real(inner.ip) && Real(outer.ip) && outer.plen == plen && Within(RemapCidr(2, inner), RemapCidr(2, outer))) ==>
        Within(inner, outer)
  }

  /** For every length: containment is kept for all pairs if and only if the outer length is at most
      8 or at least 14. */
  lemma ContainmentKeptExactly(plen: nat)
    requires plen <= 32
    ensures KeepsAt(plen) <==> plen <= 8 || plen >= 14
  {
    if plen <= 8 || plen >= 14 {
      forall inner: Cidr, outer: Cidr | Real(inner.ip) && Real(outer.ip) && outer.plen == plen && Within(inner, outer)
        ensures Within(RemapCidr(2, inner), RemapCidr(2, outer))
      {
        RemapKeepsContainment(inner, outer);
      }
    } else {
      MiddleLengthsBreak(plen);
      var inner, outer := Cidr(Ip4(10, 156, 0, 0), 16), Cidr(Ip4(10, 152, 0, 0), plen);
      assert Real(inner.ip) && Real(outer.ip) && Within(inner, outer);
    }
  }

  /** Containment is reflected for all pairs if and only if the outer length is at most 8: from 9 on
      10.0.0.0 and 10.200.0.0 come together. */
  lemma ContainmentReflectedExactly(plen: nat)
    requires plen <= 32
    ensures ReflectsAt(plen) <==> plen <= 8
  {
    if plen <= 8 {
      forall inner: Cidr, outer: Cidr | Real(inner.ip) && Real(outer.ip) && outer.plen == plen &&
        Within(RemapCidr(2, inner), RemapCidr(2, outer))
        ensures Within(inner, outer)
      {
        RemapStaysRealExactly(2, inner.ip);
        RemapStaysRealExactly(2, outer.ip);
        SamePrefixTo8(inner.ip, outer.ip, plen);
        SamePrefixTo8(RemapIp4(2, inner.ip), RemapIp4(2, outer.ip), plen);
      }
    } else {
      var inner, outer := Cidr(Ip4(10, 0, 0, 0), 32), Cidr(Ip4(10, 200, 0, 0), plen);
      assert RemapIp4(2, inner.ip) == RemapIp4(2, outer.ip);
      ApartFrom9(plen);
      assert Real(inner.ip) && Real(outer.ip) && Within(RemapCidr(2, inner), RemapCidr(2, outer));
    }
  }

  lemma ApartFrom9(plen: nat)
    requires 9 <= plen <= 32
    ensures !SamePrefix(Ip4(10, 0, 0, 0), Ip4(10, 200, 0, 0), plen)
  {
    SmallPowers();
    if plen <= 16 {
      SamePrefixTo16(Ip4(10, 0, 0, 0), Ip4(10, 200, 0, 0), plen);
      assert PowTwo(16 - plen) in {1, 2, 4, 8, 16, 32, 64, 128};
    } else {
      SamePrefixFrom16(Ip4(10, 0, 0, 0), Ip4(10, 200, 0, 0), plen);
    }
  }

  /** From length 16 on, exactly which pairs come to lie in each other: those that did, and those
      whose second octets clash and that would with the same second octet. */
  lemma ReflectionExactly(inner: Cidr, outer: Cidr)
    requires Real(inner.ip) && Real(outer.ip) && 16 <= outer.plen
    ensures Within(RemapCidr(2, inner), RemapCidr(2, outer)) <==>
            || Within(inner, outer)
            || (Clash(inner.ip, outer.ip) && Within(inner.(ip := inner.ip.(b := outer.ip.b)), outer))
  {
    var x, y := inner.ip, outer.ip;
    RemapStaysRealExactly(2, x);
    RemapStaysRealExactly(2, y);
    if outer.plen <= 32 {
      SamePrefixFrom16(x, y, outer.plen);
      SamePrefixFrom16(RemapIp4(2, x), RemapIp4(2, y), outer.plen);
      SamePrefixFrom16(x.(b := y.b), y, outer.plen);
    }
  }

  /** An address that moving twice brings back. */
  predicate Settled(ip: Ip4) { ip.a != 10 || ip.b >= 56 }

  /** Among those, containment is kept and reflected for every length up to 8 and from 14 on. */
  lemma SettledContainment(inner: Cidr, outer: Cidr)
    requires Real(inner.ip) && Real(outer.ip) && Settled(inner.ip) && Settled(outer.ip)
    requires outer.plen <= 8 || outer.plen >= 14
    ensures Within(RemapCidr(2, inner), RemapCidr(2, outer)) <==> Within(inner, outer)
  {
    RemapStaysRealExactly(2, inner.ip);
    RemapStaysRealExactly(2, outer.ip);
    RemapTwiceExactly(inner.ip);
    RemapTwiceExactly(outer.ip);
    if Within(inner, outer) { RemapKeepsContainment(inner, outer); }
    if Within(RemapCidr(2, inner), RemapCidr(2, outer)) {
      RemapKeepsContainment(RemapCidr(2, inner), RemapCidr(2, outer));
    }
  }
}
