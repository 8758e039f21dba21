/** The receiving end of the session, after RFC 4271 alone: what its sections 4.1 to 4.5 and 6.1 let a
    neighbour take for a message. */
module BgpNeighbour {
  import opened BgpWire
  import opened BgpStream
  import opened Wrappers

  /** More bytes are needed, the header is wrong and the connection is closed, or one message. */
  datatype Reading = Waiting | Broken | Got(m: Msg, rest: seq<Byte>)

  function LengthField(bs: seq<Byte>): nat
    requires |bs| >= 18
  {
    Val(bs[16]) * 256 + Val(bs[17])
  }

  /** A length that messages of this type can have: OPEN 1, UPDATE 2, NOTIFICATION 3, KEEPALIVE 4. */
  predicate LengthGood(mtype: Byte, length: nat) {
    && length <= 4096
    && (|| (mtype == 1 && length >= 29) || (mtype == 2 && length >= 23)
        || (mtype == 3 && length >= 21) || (mtype == 4 && length == 19))
  }

  predicate HeaderGood(bs: seq<Byte>)
    requires |bs| >= 19
  {
    (forall i :: 0 <= i < 16 ==> bs[i] == 255) && LengthGood(bs[18], LengthField(bs))
  }

  function Read(bs: seq<Byte>): Reading {
    if |bs| < 19 then Waiting
    else if !HeaderGood(bs) then Broken
    else if |bs| < LengthField(bs) then Waiting
    else Got(Msg(bs[18], bs[19..LengthField(bs)]), bs[LengthField(bs)..])
  }

  /** The messages read, and whether a broken header ended the session. */
  function Reads(bs: seq<Byte>): (seq<Msg>, bool)
    decreases |bs|
  {
    match Read(bs)
    case Waiting => ([], false)
    case Broken => ([], true)
    case Got(m, rest) => ([m] + Reads(rest).0, Reads(rest).1)
  }

  predicate Acceptable(m: Msg) { LengthGood(m.mtype, 19 + |m.body|) }

  predicate AllAcceptable(ms: seq<Msg>) {
    forall i :: 0 <= i < |ms| ==> Acceptable(ms[i])
  }

  lemma AcceptableFits(ms: seq<Msg>)
    requires AllAcceptable(ms)
    ensures AllFit(ms)
  {
    forall i | 0 <= i < |ms| ensures Fits(ms[i]) {
      assert Acceptable(ms[i]);
    }
  }

  lemma HeaderOfEncoded(m: Msg, rest: seq<Byte>)
    requires Fits(m)
    ensures var bs := Encode(m) + rest;
            && |bs| >= 19 && (forall i :: 0 <= i < 16 ==> bs[i] == 255)
            && LengthField(bs) == 19 + |m.body| && bs[18] == m.mtype
  {
    var bs := Encode(m) + rest;
    assert bs[16] == Be16(19 + |m.body|)[0] && bs[17] == Be16(19 + |m.body|)[1];
    assert forall i :: 0 <= i < 16 ==> bs[i] == MARKER[i];
  }

  /** What the speaker writes is read back as the message that was written, if and only if its type and
      length are acceptable; otherwise it ends the session. */
  lemma ReadExactly(m: Msg, rest: seq<Byte>)
    requires Fits(m)
    ensures Read(Encode(m) + rest) == if Acceptable(m) then Got(m, rest) else Broken
  {
    var bs := Encode(m) + rest;
    HeaderOfEncoded(m, rest);
    var n := 19 + |m.body|;
    if Acceptable(m) {
      assert bs[19..n] == m.body;
      assert bs[n..] == rest;
    }
  }

  /** Message by message, and whatever follows. */
  lemma {:induction false} ReadsAll(ms: seq<Msg>, rest: seq<Byte>)
    requires AllAcceptable(ms) && AllFit(ms)
    ensures Reads(EncodeAll(ms) + rest) == (ms + Reads(rest).0, Reads(rest).1)
    decreases |ms|
  {
    if ms == [] {
      assert EncodeAll(ms) + rest == rest;
      assert ms + Reads(rest).0 == Reads(rest).0;
    } else {
      assert Acceptable(ms[0]);
      ReadsAll(ms[1..], rest);
      assert ms == [ms[0]] + ms[1..];
      Regroup(ms[0], ms[1..], rest);
      ReadsInFront(ms[0], ms[1..], EncodeAll(ms[1..]) + rest, EncodeAll([ms[0]] + ms[1..]) + rest, Reads(rest));
    }
  }

  lemma ReadsInFront(m: Msg, ms: seq<Msg>, tail: seq<Byte>, whole: seq<Byte>, later: (seq<Msg>, bool))
    requires Acceptable(m) && Fits(m) && whole == Encode(m) + tail && Reads(tail) == (ms + later.0, later.1)
    ensures Reads(whole) == ([m] + ms + later.0, later.1)
  {
    ReadExactly(m, tail);
    assert [m] + (ms + later.0) == [m] + ms + later.0;
  }

  /** A message that has not arrived whole is waited for. */
  lemma CutIsWaitedFor(m: Msg, n: nat)
    requires Acceptable(m) && Fits(m) && n < |Encode(m)|
    ensures Read(Encode(m)[..n]) == Waiting
  {
    var bs, whole := Encode(m)[..n], Encode(m);
    if n >= 19 {
      HeaderOfEncoded(m, []);
      assert whole + [] == whole;
      assert forall i :: 0 <= i < 19 ==> bs[i] == whole[i];
    }
  }

  /** Wherever the stream is cut, the neighbour has the messages that arrived whole, and no complaint. */
  lemma CutStreamIsRead(ms: seq<Msg>, m: Msg, n: nat)
    requires AllAcceptable(ms) && AllFit(ms) && Acceptable(m) && Fits(m) && n < |Encode(m)|
    ensures Reads(EncodeAll(ms) + Encode(m)[..n]) == (ms, false)
  {
    ReadsAll(ms, Encode(m)[..n]);
    CutIsWaitedFor(m, n);
    assert ms + [] == ms;
  }
}
