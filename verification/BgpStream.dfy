/** Reading messages off a TCP stream that delivers bytes in arbitrary pieces
    (servers/bgp_speaker.py, `_recv_n` and `_recv_msg`). */
module BgpStream {
  import opened BgpWire
  import opened Wrappers

  /** What one receive call may meet: some bytes, a timeout, or an error. */
  datatype Arrival = Chunk(bytes: seq<Byte>) | Timeout | Failure

  /** A chunk brings at least one byte; an empty one would be the end of the stream. */
  predicate Proper(as': seq<Arrival>) {
    forall i :: 0 <= i < |as'| && as'[i].Chunk? ==> as'[i].bytes != []
  }

  /** The bytes that will come through: everything up to an error or the end. */
  function Incoming(as': seq<Arrival>): seq<Byte> {
    if as' == [] || as'[0].Failure? then []
    else (if as'[0].Chunk? then as'[0].bytes else []) + Incoming(as'[1..])
  }

  /** The first message of a byte string and what follows it.  A length field below 19 is taken
      for a message without a body. */
  function First(bs: seq<Byte>): Maybe<(Msg, seq<Byte>)> {
    if |bs| < 19 then Nothing
    else
      var length := U16(bs[16..18]);
      var n := if length > 19 then length - 19 else 0;
      if |bs| < 19 + n then Nothing else Just((Msg(bs[18], bs[19..19 + n]), bs[19 + n..]))
  }

  /** All complete messages at the front of a byte string. */
  function Messages(bs: seq<Byte>): seq<Msg>
    decreases |bs|
  {
    match First(bs)
    case Nothing => []
    case Just((m, rest)) => [m] + Messages(rest)
  }

  predicate AllFit(ms: seq<Msg>) {
    forall i :: 0 <= i < |ms| ==> Fits(ms[i])
  }

  function EncodeAll(ms: seq<Msg>): seq<Byte>
    requires AllFit(ms)
  {
    if ms == [] then [] else Encode(ms[0]) + EncodeAll(ms[1..])
  }

  lemma FirstOfEncoded(m: Msg, rest: seq<Byte>)
    requires Fits(m)
    ensures First(Encode(m) + rest) == Just((m, rest))
  {
    var bs := Encode(m) + rest;
    var n := |m.body|;
    U16Be16(19 + n);
    assert bs[16..18] == Be16(19 + n);
    assert bs[18] == m.mtype;
    assert bs[19..19 + n] == m.body;
    assert bs[19 + n..] == rest;
  }

  lemma MessagesStep(m: Msg, rest: seq<Byte>)
    requires Fits(m)
    ensures Messages(Encode(m) + rest) == [m] + Messages(rest)
  {
    FirstOfEncoded(m, rest);
  }

  /** Framing: the messages of a stream that was written message by message are the messages
      written, and then those of whatever follows; a cut-off last message is not delivered. */
  lemma {:induction false} FramingRoundTrip(ms: seq<Msg>, rest: seq<Byte>)
    requires AllFit(ms)
    ensures Messages(EncodeAll(ms) + rest) == ms + Messages(rest)
    decreases |ms|
  {
    if ms == [] {
      assert EncodeAll(ms) + rest == rest;
    } else {
      FramingRoundTrip(ms[1..], rest);
      FramingStep(ms[0], ms[1..], rest);
      assert ms == [ms[0]] + ms[1..];
    }
  }

  lemma FramingStep(m: Msg, ms: seq<Msg>, rest: seq<Byte>)
    requires Fits(m) && AllFit(ms) && Messages(EncodeAll(ms) + rest) == ms + Messages(rest)
    ensures AllFit([m] + ms) && Messages(EncodeAll([m] + ms) + rest) == [m] + ms + Messages(rest)
  {
    Regroup(m, ms, rest);
    MessagesInFront(m, ms, EncodeAll(ms) + rest, EncodeAll([m] + ms) + rest, Messages(rest));
  }

  lemma MessagesInFront(m: Msg, ms: seq<Msg>, tail: seq<Byte>, whole: seq<Byte>, later: seq<Msg>)
    requires Fits(m) && whole == Encode(m) + tail && Messages(tail) == ms + later
    ensures Messages(whole) == [m] + ms + later
  {
    MessagesStep(m, tail);
    assert [m] + (ms + later) == [m] + ms + later;
  }

  lemma Regroup(m: Msg, ms: seq<Msg>, rest: seq<Byte>)
    requires Fits(m) && AllFit(ms)
    ensures AllFit([m] + ms)
    ensures EncodeAll([m] + ms) + rest == Encode(m) + (EncodeAll(ms) + rest)
  {
    assert ([m] + ms)[1..] == ms;
    var e, f := Encode(m), EncodeAll(ms);
    assert (e + f) + rest == e + (f + rest);
  }

  lemma {:induction false} EncodeAllAppend(ms: seq<Msg>, m: Msg)
    requires AllFit(ms)
    requires Fits(m)
    ensures AllFit(ms + [m])
    ensures EncodeAll(ms + [m]) == EncodeAll(ms) + Encode(m)
    decreases |ms|
  {
    if ms == [] {
      assert [m][1..] == [];
      assert EncodeAll([m]) == Encode(m) + [];
    } else {
      assert (ms + [m])[1..] == ms[1..] + [m];
      EncodeAllAppend(ms[1..], m);
    }
  }

  /** A proper prefix of a message is never delivered, nor is anything of it. */
  lemma CutMessageIsHeldBack(m: Msg, n: nat)
    requires Fits(m) && n < |Encode(m)|
    ensures Messages(Encode(m)[..n]) == []
  {
    var bs := Encode(m)[..n];
    U16Be16(19 + |m.body|);
    if |bs| >= 19 { assert bs[16..18] == Be16(19 + |m.body|); }
  }

  class Socket {
    /** What is still to come. */
    var todo: seq<Arrival>

    constructor (todo: seq<Arrival>)
      ensures this.todo == todo
    {
      this.todo := todo;
    }

    /** At most `n` bytes of the next chunk; nothing at all when the stream has ended. */
    method Recv(n: nat) returns (a: Arrival)
      requires Proper(todo) && n > 0
      modifies this
      ensures Proper(todo)
      ensures old(todo) == [] ==> a == Chunk([]) && todo == []
      ensures old(todo) != [] ==> a.Chunk? == old(todo)[0].Chunk? && a.Failure? == old(todo)[0].Failure?
      ensures old(todo) != [] && a.Chunk? ==>
                1 <= |a.bytes| <= n && a.bytes + Incoming(todo) == Incoming(old(todo))
      ensures a.Timeout? ==> Incoming(todo) == Incoming(old(todo)) && |todo| < |old(todo)|
    {
      if todo == [] {
        return Chunk([]);
      }
      a := todo[0];
      if a.Chunk? && |a.bytes| > n {
        var rest := Chunk(a.bytes[n..]);
        a := Chunk(a.bytes[..n]);
        assert ([rest] + todo[1..])[1..] == todo[1..];
        assert a.bytes + rest.bytes == todo[0].bytes;
        todo := [rest] + todo[1..];
      } else {
        todo := todo[1..];
      }
    }

    /** Exactly `n` bytes, through any number of pieces and timeouts, or nothing when the stream
        ends or fails before that. */
    method RecvN(n: nat) returns (r: Maybe<seq<Byte>>)
      requires Proper(todo)
      modifies this
      ensures Proper(todo)
      ensures r.Just? <==> |Incoming(old(todo))| >= n
      ensures r.Just? ==> r.value == Incoming(old(todo))[..n] && Incoming(todo) == Incoming(old(todo))[n..]
    {
      var buf: seq<Byte> := [];
      ghost var all := Incoming(todo);
      while |buf| < n
        invariant |buf| <= n && Proper(todo)
        invariant buf + Incoming(todo) == all
        decreases n - |buf|, |todo|
      {
        ghost var before := todo;
        var a := Recv(n - |buf|);
        if a.Timeout? {
          continue;
        }
        if a.Failure? || a.bytes == [] {
          assert Incoming(before) == [];
          return Nothing;
        }
        assert (buf + a.bytes) + Incoming(todo) == buf + (a.bytes + Incoming(todo));
        buf := buf + a.bytes;
      }
      assert all[..n] == buf && all[n..] == Incoming(todo);
      r := Just(buf);
    }

    method RecvMsg() returns (r: Maybe<Msg>)
      requires Proper(todo)
      modifies this
      ensures Proper(todo)
      ensures r.Just? <==> First(Incoming(old(todo))).Just?
      ensures r.Just? ==> (r.value, Incoming(todo)) == First(Incoming(old(todo))).value
    {
      ghost var all := Incoming(todo);
      var hdr := RecvN(19);
      if hdr.Nothing? {
        return Nothing;
      }
      assert hdr.value[16..18] == all[16..18];
      var length := U16(hdr.value[16..18]);
      var body: seq<Byte> := [];
      if length > 19 {
        var b := RecvN(length - 19);
        if b.Nothing? {
          return Nothing;
        }
        body := b.value;
        assert body == all[19..][..length - 19] == all[19..length];
        assert all[19..][length - 19..] == all[length..];
      } else {
        assert all[19..19] == [];
      }
      r := Just(Msg(hdr.value[18], body));
    }

    /** Whatever the pieces and the timeouts, the messages received are those of the bytes that
        come through. */
    method RecvAll() returns (ms: seq<Msg>)
      requires Proper(todo)
      modifies this
      ensures ms == Messages(Incoming(old(todo)))
    {
      ms := [];
      ghost var all := Incoming(todo);
      while true
        invariant Proper(todo)
        invariant ms + Messages(Incoming(todo)) == Messages(all)
        decreases |Incoming(todo)|
      {
        ghost var before := Incoming(todo);
        var m := RecvMsg();
        if m.Nothing? {
          assert Messages(before) == [];
          return;
        }
        assert Messages(before) == [m.value] + Messages(Incoming(todo));
        assert ms + ([m.value] + Messages(Incoming(todo))) == (ms + [m.value]) + Messages(Incoming(todo));
        ms := ms + [m.value];
      }
    }
  }
}
