/** The messages of the BGP speaker (servers/bgp_speaker.py) and how a neighbour reads them:
    sections 4.1 to 4.3 of RFC 4271, section 4 of RFC 5492, section 4.1 of RFC 6793. */
module BgpWire {
  import opened Arithmetic
  import opened Wrappers

  type Byte = b: int | 0 <= b < 256

  /** An IPv4 address is four bytes; a prefix is written with all four and a length. */
  type Ip = a: seq<Byte> | |a| == 4 witness [0, 0, 0, 0]
  datatype Prefix = Prefix(net: Ip, plen: Byte)

  function Be16(n: nat): seq<Byte>
    requires n < 0x1_0000
  {
    [n / 256, n % 256]
  }

  function Be32(n: nat): Ip
    requires n < 0x1_0000_0000
  {
    [n / 0x100_0000, n / 0x1_0000 % 256, n / 256 % 256, n % 256]
  }

  function Val(b: Byte): nat { b }

  function U16(bs: seq<Byte>): nat
    requires |bs| >= 2
  {
    Val(bs[0]) * 256 + Val(bs[1])
  }

  function U32(bs: seq<Byte>): nat
    requires |bs| >= 4
  {
    Val(bs[0]) * 0x100_0000 + Val(bs[1]) * 0x1_0000 + Val(bs[2]) * 256 + Val(bs[3])
  }

  lemma U16Be16(n: nat)
    requires n < 0x1_0000
    ensures U16(Be16(n)) == n
  {
  }

  /** The quotients one by one. */
  lemma ByteQuotients(n: nat)
    ensures n / 0x1_0000 == n / 256 / 256 && n / 0x100_0000 == n / 256 / 256 / 256
  {
    DivDiv(n, 256, 256);
    DivDiv(n, 0x1_0000, 256);
  }

  lemma FourDigits(n: nat)
    ensures n == n / 256 / 256 / 256 * 0x100_0000 + n / 256 / 256 % 256 * 0x1_0000 + n / 256 % 256 * 256 + n % 256
  {
    var q1 := n / 256;
    var q2 := q1 / 256;
    assert n == q1 * 256 + n % 256;
    assert q1 == q2 * 256 + q1 % 256;
    assert q2 == q2 / 256 * 256 + q2 % 256;
  }

  lemma U32Be32(n: nat)
    requires n < 0x1_0000_0000
    ensures U32(Be32(n)) == n
  {
    ByteQuotients(n);
    FourDigits(n);
  }

  // ---- what the speaker writes ----

  function Bytes4(plen: nat): nat { (plen + 7) / 8 }

  /** The prefix length and as many of the four bytes as it covers. */
  function Nlri(p: Prefix): seq<Byte> {
    [p.plen] + if Bytes4(p.plen) <= 4 then p.net[..Bytes4(p.plen)] else p.net
  }

  const MARKER: seq<Byte> :=
    [255, 255, 255, 255, 255, 255, 255, 255, 255, 255, 255, 255, 255, 255, 255, 255]

  const OPEN: Byte := 1
  const UPDATE: Byte := 2
  const NOTIFICATION: Byte := 3
  const KEEPALIVE: Byte := 4

  datatype Msg = Msg(mtype: Byte, body: seq<Byte>)

  /** The length field holds the whole message. */
  predicate Fits(m: Msg) {
    19 + |m.body| < 0x1_0000
  }

  function Encode(m: Msg): seq<Byte>
    requires Fits(m)
  {
    MARKER + Be16(19 + |m.body|) + [m.mtype] + m.body
  }

  const AS_TRANS: nat := 23456

  function Capabilities(asn: nat): seq<Byte>
    requires asn < 0x1_0000_0000
  {
    [2, 6] + [1, 4, 0, 1, 0, 1] + [2, 6] + ([65, 4] + Be32(asn))
  }

  function OpenMsg(asn: nat, hold: nat, id: Ip): Msg
    requires asn < 0x1_0000_0000 && hold < 0x1_0000
  {
    Msg(OPEN, [4] + Be16(if asn <= 0xFFFF then asn else AS_TRANS) + Be16(hold) + id +
              [|Capabilities(asn)|] + Capabilities(asn))
  }

  function Attributes(asn: nat, nextHop: Ip): seq<Byte>
    requires asn < 0x1_0000_0000
  {
    [0x40, 1, 1, 0] + ([0x40, 2, 6, 2, 1] + Be32(asn)) + ([0x40, 3, 4] + nextHop)
  }

  function AnnounceMsg(asn: nat, p: Prefix, nextHop: Ip): Msg
    requires asn < 0x1_0000_0000
  {
    Msg(UPDATE, Be16(0) + Be16(|Attributes(asn, nextHop)|) + Attributes(asn, nextHop) + Nlri(p))
  }

  function WithdrawMsg(p: Prefix): Msg {
    Msg(UPDATE, Be16(|Nlri(p)|) + Nlri(p) + Be16(0))
  }

  // ---- what a neighbour reads ----

  function ClearLow(b: Byte, m: nat): Byte
    requires m >= 1
  {
    b - b % m
  }

  /** Byte `i` of a prefix of length `plen`, with the irrelevant trailing bits cleared. */
  function Masked(b: Byte, i: nat, plen: nat): Byte {
    if 8 * (i + 1) <= plen then b
    else if plen <= 8 * i then 0
    else ClearLow(b, PowTwo(8 * (i + 1) - plen))
  }

  /** The prefix meant: bits beyond the length do not count. */
  function Canon(p: Prefix): Prefix {
    Prefix([Masked(p.net[0], 0, p.plen), Masked(p.net[1], 1, p.plen),
            Masked(p.net[2], 2, p.plen), Masked(p.net[3], 3, p.plen)], p.plen)
  }

  predicate Canonical(p: Prefix) {
    Canon(p) == p
  }

  function Padded(bs: seq<Byte>): Ip
    requires |bs| <= 4
  {
    bs + seq(4 - |bs|, _ => 0)
  }

  /** The fewest whole bytes that hold so many bits. */
  function BytesFor(bits: nat): nat {
    if bits == 0 then 0 else if bits <= 8 then 1 else if bits <= 16 then 2 else if bits <= 24 then 3 else 4
  }

  /** A list of prefixes, each a length of at most 32 and just enough bytes (section 4.3). */
  function DecodePrefixes(bs: seq<Byte>): Maybe<seq<Prefix>> {
    if bs == [] then Just([])
    else
      var n := BytesFor(bs[0]);
      if bs[0] > 32 || |bs| < 1 + n then Nothing
      else
        match DecodePrefixes(bs[1 + n..])
        case Nothing => Nothing
        case Just(ps) => Just([Canon(Prefix(Padded(bs[1..1 + n]), bs[0]))] + ps)
  }

  datatype Attr = Attr(flags: Byte, code: Byte, value: seq<Byte>)

  predicate Extended(flags: Byte) {
    flags / 16 % 2 == 1
  }

  /** Path attributes: flags, type code, a length of one or two bytes, value. */
  function DecodeAttrs(bs: seq<Byte>): Maybe<seq<Attr>>
    decreases |bs|
  {
    if bs == [] then Just([])
    else if |bs| < 3 || (Extended(bs[0]) && |bs| < 4) then Nothing
    else
      var at := if Extended(bs[0]) then 4 else 3;
      var n := if Extended(bs[0]) then U16(bs[2..4]) else Val(bs[2]);
      if |bs| < at + n then Nothing
      else
        match DecodeAttrs(bs[at + n..])
        case Nothing => Nothing
        case Just(rest) => Just([Attr(bs[0], bs[1], bs[at..at + n])] + rest)
  }

  datatype Update = Update(withdrawn: seq<Prefix>, attrs: seq<Attr>, nlri: seq<Prefix>)

  function DecodeUpdate(body: seq<Byte>): Maybe<Update> {
    if |body| < 2 then Nothing
    else
      var w := U16(body);
      if |body| < 4 + w then Nothing
      else
        var a := U16(body[2 + w..]);
        if |body| < 4 + w + a then Nothing
        else
          match (DecodePrefixes(body[2..2 + w]), DecodeAttrs(body[4 + w..4 + w + a]),
                 DecodePrefixes(body[4 + w + a..]))
          case (Just(ws), Just(attrs), Just(ns)) => Just(Update(ws, attrs, ns))
          case _ => Nothing
  }

  /** The four-octet AS numbers of one AS_SEQUENCE segment (section 4.1 of RFC 6793). */
  function AsSequence(value: seq<Byte>): Maybe<seq<nat>> {
    if |value| < 2 || value[0] != 2 || |value| != 2 + 4 * Val(value[1]) then Nothing
    else Just(AsNumbers(value[2..]))
  }

  function AsNumbers(bs: seq<Byte>): seq<nat>
    requires |bs| % 4 == 0
  {
    if bs == [] then [] else [U32(bs)] + AsNumbers(bs[4..])
  }

  datatype Capability = Capability(code: Byte, value: seq<Byte>)
  datatype Open = Open(version: Byte, as2: nat, hold: nat, id: Ip, caps: seq<Capability>)

  function DecodeCaps(bs: seq<Byte>): Maybe<seq<Capability>>
    decreases |bs|
  {
    if bs == [] then Just([])
    else if |bs| < 2 || |bs| < 2 + Val(bs[1]) then Nothing
    else
      match DecodeCaps(bs[2 + Val(bs[1])..])
      case Nothing => Nothing
      case Just(rest) => Just([Capability(bs[0], bs[2..2 + Val(bs[1])])] + rest)
  }

  /** Optional parameters; those of type 2 carry capabilities (section 4 of RFC 5492). */
  function DecodeParams(bs: seq<Byte>): Maybe<seq<Capability>>
    decreases |bs|
  {
    if bs == [] then Just([])
    else if |bs| < 2 || |bs| < 2 + Val(bs[1]) || bs[0] != 2 then Nothing
    else
      match (DecodeCaps(bs[2..2 + Val(bs[1])]), DecodeParams(bs[2 + Val(bs[1])..]))
      case (Just(cs), Just(rest)) => Just(cs + rest)
      case _ => Nothing
  }

  function DecodeOpen(body: seq<Byte>): Maybe<Open> {
    if |body| < 10 || |body| != 10 + Val(body[9]) then Nothing
    else
      match DecodeParams(body[10..])
      case Nothing => Nothing
      case Just(caps) => Just(Open(body[0], U16(body[1..]), U16(body[3..]), body[5..9], caps))
  }

  // ---- round trips ----

  lemma MaskOfPrefix(p: Prefix, n: nat)
    requires p.plen <= 32 && n == Bytes4(p.plen)
    ensures Canon(Prefix(Padded(p.net[..n]), p.plen)) == Canon(p)
  {
    var q := Padded(p.net[..n]);
    forall i: nat | i < 4 ensures Masked(q[i], i, p.plen) == Masked(p.net[i], i, p.plen) {
      if i < n { assert q[i] == p.net[i]; } else { assert p.plen <= 8 * i; }
    }
  }

  /** The encoding of a prefix stands on its own and means the prefix, whatever its trailing bits,
      if and only if the length is one that exists; the speaker does not check that. */
  lemma NlriDecodes(p: Prefix)
    ensures DecodePrefixes(Nlri(p)) == (if p.plen <= 32 then Just([Canon(p)]) else Nothing)
    ensures |Nlri(p)| <= 5
  {
    if p.plen <= 32 {
      var n := Bytes4(p.plen);
      var bs := Nlri(p);
      assert n == BytesFor(p.plen) && |bs| == 1 + n;
      assert bs[1..1 + n] == p.net[..n];
      assert bs[1 + n..] == [];
      MaskOfPrefix(p, n);
      var none: seq<Byte> := [];
      assert DecodePrefixes(none) == Just([]);
      assert bs[0] == p.plen;
      assert [Canon(p)] + [] == [Canon(p)];
    }
  }

  lemma DecodeAttrStep(flags: Byte, code: Byte, value: seq<Byte>, rest: seq<Byte>)
    requires !Extended(flags) && |value| < 256
    ensures DecodeAttrs([flags, code, |value|] + value + rest) ==
            match DecodeAttrs(rest)
            case Nothing => Nothing
            case Just(xs) => Just([Attr(flags, code, value)] + xs)
  {
    var bs := [flags, code, |value|] + value + rest;
    assert bs[3..3 + |value|] == value;
    assert bs[3 + |value|..] == rest;
  }

  lemma AttrThen(code: Byte, value: seq<Byte>, rest: seq<Byte>, xs: seq<Attr>)
    requires |value| < 256 && DecodeAttrs(rest) == Just(xs)
    ensures DecodeAttrs([0x40, code, |value|] + value + rest) == Just([Attr(0x40, code, value)] + xs)
  {
    DecodeAttrStep(0x40, code, value, rest);
  }

  lemma AttributesShape(asn: nat, nextHop: Ip)
    requires asn < 0x1_0000_0000
    ensures var path: seq<Byte> := [2, 1] + Be32(asn);
            var none: seq<Byte> := [];
            Attributes(asn, nextHop) ==
              [0x40, 1, 1] + [0] + ([0x40, 2, 6] + path + ([0x40, 3, 4] + nextHop + none))
    ensures |Attributes(asn, nextHop)| == 20
  {
  }

  lemma AttributesDecode(asn: nat, nextHop: Ip)
    requires asn < 0x1_0000_0000
    ensures DecodeAttrs(Attributes(asn, nextHop)) ==
            Just([Attr(0x40, 1, [0]), Attr(0x40, 2, [2, 1] + Be32(asn)), Attr(0x40, 3, nextHop)])
    ensures |Attributes(asn, nextHop)| == 20
  {
    var path: seq<Byte> := [2, 1] + Be32(asn);
    var none: seq<Byte> := [];
    var last: seq<Byte> := [0x40, 3, 4] + nextHop + none;
    AttributesShape(asn, nextHop);
    AttrThen(3, nextHop, none, []);
    assert [Attr(0x40, 3, nextHop)] + [] == [Attr(0x40, 3, nextHop)];
    AttrThen(2, path, last, [Attr(0x40, 3, nextHop)]);
    AttrThen(1, [0], [0x40, 2, 6] + path + last, [Attr(0x40, 2, path)] + [Attr(0x40, 3, nextHop)]);
    assert [Attr(0x40, 1, [0])] + ([Attr(0x40, 2, path)] + [Attr(0x40, 3, nextHop)]) ==
           [Attr(0x40, 1, [0]), Attr(0x40, 2, path), Attr(0x40, 3, nextHop)];
  }

  /** The AS path a neighbour reads is the speaker's AS alone. */
  lemma AsPathDecodes(asn: nat)
    requires asn < 0x1_0000_0000
    ensures AsSequence([2, 1] + Be32(asn)) == Just([asn])
  {
    var v := [2, 1] + Be32(asn);
    assert v[2..] == Be32(asn);
    U32Be32(asn);
    assert AsNumbers(Be32(asn)) == [asn] by {
      assert Be32(asn)[4..] == [];
      assert AsNumbers([]) == [];
    }
  }

  /** An announcement decodes to exactly one route: no withdrawals, the three attributes, and the
      prefix; with a length beyond 32 it is malformed. */
  lemma AnnounceDecodes(asn: nat, p: Prefix, nextHop: Ip)
    requires asn < 0x1_0000_0000
    ensures Fits(AnnounceMsg(asn, p, nextHop))
    ensures DecodeUpdate(AnnounceMsg(asn, p, nextHop).body) ==
            if p.plen <= 32 then
              Just(Update([], [Attr(0x40, 1, [0]), Attr(0x40, 2, [2, 1] + Be32(asn)), Attr(0x40, 3, nextHop)],
                          [Canon(p)]))
            else Nothing
  {
    var attrs := Attributes(asn, nextHop);
    AttributesDecode(asn, nextHop);
    NlriDecodes(p);
    var body := AnnounceMsg(asn, p, nextHop).body;
    assert Be16(20) == [0, 20] && Be16(0) == [0, 0];
    assert body == [0, 0, 0, 20] + attrs + Nlri(p);
    assert body[2..][0] == 0 && body[2..][1] == 20;
    assert body[2..2] == [] && DecodePrefixes([]) == Just([]);
    assert body[4..24] == attrs;
    assert body[24..] == Nlri(p);
  }

  lemma WithdrawDecodes(p: Prefix)
    ensures Fits(WithdrawMsg(p))
    ensures DecodeUpdate(WithdrawMsg(p).body) ==
            if p.plen <= 32 then Just(Update([Canon(p)], [], [])) else Nothing
  {
    NlriDecodes(p);
    var n := |Nlri(p)|;
    var body := WithdrawMsg(p).body;
    assert body == [0, n] + Nlri(p) + [0, 0];
    assert body[2..2 + n] == Nlri(p);
    assert body[2 + n..] == [0, 0];
    assert body[4 + n..4 + n] == [] && body[4 + n..] == [];
    assert DecodePrefixes([]) == Just([]) && DecodeAttrs([]) == Just([]);
  }

  lemma OpenShape(as2: nat, hold: nat, id: Ip, caps: seq<Byte>)
    requires as2 < 0x1_0000 && hold < 0x1_0000 && |caps| < 256
    ensures var body := [4] + Be16(as2) + Be16(hold) + id + [|caps|] + caps;
            && |body| == 10 + |caps| && body[0] == 4 && Val(body[9]) == |caps|
            && body[10..] == caps && body[5..9] == id
            && U16(body[1..]) == as2 && U16(body[3..]) == hold
  {
    U16Be16(as2);
    U16Be16(hold);
    var body := [4] + Be16(as2) + Be16(hold) + id + [|caps|] + caps;
    assert body[1] == Be16(as2)[0] && body[2] == Be16(as2)[1];
    assert body[3] == Be16(hold)[0] && body[4] == Be16(hold)[1];
  }

  /** The OPEN carries the hold time, the identifier, IPv4 unicast, and the full AS number, which
      also fills the two-octet field when it fits there. */
  lemma OpenDecodes(asn: nat, hold: nat, id: Ip)
    requires asn < 0x1_0000_0000 && hold < 0x1_0000
    ensures Fits(OpenMsg(asn, hold, id))
    ensures DecodeOpen(OpenMsg(asn, hold, id).body) ==
            Just(Open(4, if asn < 0x1_0000 then asn else 23456, hold, id,
                      [Capability(1, [0, 1, 0, 1]), Capability(65, Be32(asn))]))
    ensures U32(Be32(asn)) == asn
  {
    U32Be32(asn);
    var as2 := if asn <= 0xFFFF then asn else AS_TRANS;
    var caps := Capabilities(asn);
    assert |caps| == 16;
    OpenShape(as2, hold, id, caps);
    CapabilitiesDecode(asn);
  }

  lemma DecodeCapStep(code: Byte, value: seq<Byte>, rest: seq<Byte>)
    requires |value| < 256
    ensures DecodeCaps([code, |value|] + value + rest) ==
            match DecodeCaps(rest)
            case Nothing => Nothing
            case Just(xs) => Just([Capability(code, value)] + xs)
  {
    var bs := [code, |value|] + value + rest;
    assert bs[2..2 + |value|] == value && bs[2 + |value|..] == rest;
  }

  lemma DecodeCapOne(code: Byte, value: seq<Byte>)
    requires |value| < 256
    ensures DecodeCaps([code, |value|] + value) == Just([Capability(code, value)])
  {
    var none: seq<Byte> := [];
    DecodeCapStep(code, value, none);
    assert [code, |value|] + value + none == [code, |value|] + value;
    assert [Capability(code, value)] + [] == [Capability(code, value)];
  }

  lemma DecodeParamStep(cap: seq<Byte>, rest: seq<Byte>)
    requires |cap| < 256
    ensures DecodeParams([2, |cap|] + cap + rest) ==
            match (DecodeCaps(cap), DecodeParams(rest))
            case (Just(cs), Just(xs)) => Just(cs + xs)
            case _ => Nothing
  {
    var bs := [2, |cap|] + cap + rest;
    assert bs[2..2 + |cap|] == cap && bs[2 + |cap|..] == rest;
  }

  lemma CapabilitiesDecode(asn: nat)
    requires asn < 0x1_0000_0000
    ensures DecodeParams(Capabilities(asn)) ==
            Just([Capability(1, [0, 1, 0, 1]), Capability(65, Be32(asn))])
  {
    var mp: seq<Byte> := [1, 4, 0, 1, 0, 1];
    var as4 := [65, 4] + Be32(asn);
    DecodeCapOne(1, [0, 1, 0, 1]);
    assert mp == [1, 4] + [0, 1, 0, 1];
    DecodeCapOne(65, Be32(asn));
    var last: seq<Byte> := [];
    DecodeParamStep(as4, last);
    var second := [2, 6] + as4 + last;
    DecodeParamStep(mp, second);
    assert second == [2, 6] + ([65, 4] + Be32(asn));
    assert [2, 6] + mp + second == Capabilities(asn);
    assert DecodeParams(last) == Just([]);
    assert [Capability(65, Be32(asn))] + [] == [Capability(65, Be32(asn))];
    assert DecodeParams(second) == Just([Capability(65, Be32(asn))]);
    assert [Capability(1, [0, 1, 0, 1])] + [Capability(65, Be32(asn))] ==
           [Capability(1, [0, 1, 0, 1]), Capability(65, Be32(asn))];
  }
}
