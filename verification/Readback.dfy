/** Writing a port VLAN and reading it back as text (topo/hairpin.py, framework/loopback.py): the
    program looks for the wanted number behind a fixed phrase, and so accepts every number that
    starts with it. */
module Readback {
  import opened Chip
  import opened Text
  import opened Wrappers

  const MAX_VID: Vid := 4094

  /** The text that shows VLAN `now` holds the text that would show `v`. */
  predicate ReadsAs(now: Vid, v: Vid) { StartsWith(Dec(now), Dec(v)) }

  /** A read-back that holds, and by what VLAN: the attempts write `v`, and `back[i]` is what the
      product writes between the `i`-th write and the read. */
  function Settles(v: Vid, back: seq<Maybe<Vid>>): Maybe<Vid> {
    if back == [] then Nothing
    else if back[0].Nothing? then Just(v)
    else if ReadsAs(back[0].value, v) then back[0]
    else Settles(v, back[1..])
  }

  /** Where the port is in the end: where a read-back held, or where the last attempt left it. */
  function Ends(v: Vid, back: seq<Maybe<Vid>>): Vid {
    if Settles(v, back).Just? then Settles(v, back).value
    else if back != [] && back[|back| - 1].Just? then back[|back| - 1].value
    else v
  }

  /** In numbers: dropping digits from the right reaches the wanted VLAN. */
  lemma ReadsAsStep(now: Vid, v: Vid)
    ensures ReadsAs(now, v) <==> now == v || (now >= 10 && ReadsAs(now / 10, v))
  {
    DecInjective(now, v);
    var s, t := Dec(now), Dec(v);
    if now >= 10 {
      var h := Dec(now / 10);
      assert s[..|h|] == h && |s| == |h| + 1;
      if |t| <= |h| {
        assert s[..|t|] == h[..|t|];
      } else if |t| == |s| {
        assert s[..|t|] == s;
      }
    } else {
      assert |s| == 1 && s[..1] == s && |t| >= 1;
    }
  }

  lemma {:induction false} ReadsAsBounds(now: Vid, v: Vid)
    requires ReadsAs(now, v)
    ensures now >= v && (now != v ==> v > 0 && now >= 10 * v)
  {
    ReadsAsStep(now, v);
    ZeroReadsAlone(now);
    if now != v {
      ReadsAsBounds(now / 10, v);
    }
  }

  lemma {:induction false} ZeroReadsAlone(now: Vid)
    ensures ReadsAs(now, 0) <==> now == 0
  {
    ReadsAsStep(now, 0);
    if now >= 10 { ZeroReadsAlone(now / 10); }
  }

  lemma TenfoldReadsAs(v: Vid)
    requires v > 0
    ensures ReadsAs(10 * v, v)
  {
    ReadsAsStep(10 * v, v);
    ReadsAsStep(v, v);
  }

  /** Nothing in `others` is mistaken for `v`. */
  predicate Unmistaken(v: Vid, others: set<Vid>) {
    forall w :: w in others && ReadsAs(w, v) ==> w == v
  }

  predicate From(back: seq<Maybe<Vid>>, others: set<Vid>) {
    forall i :: 0 <= i < |back| && back[i].Just? ==> back[i].value in others
  }

  lemma {:induction false} SettlesWithin(v: Vid, back: seq<Maybe<Vid>>, others: set<Vid>)
    requires From(back, others) && Unmistaken(v, others)
    ensures Settles(v, back).Just? ==> Settles(v, back).value == v
  {
    if back != [] {
      assert From(back[1..], others) by {
        assert forall i :: 0 <= i < |back| - 1 ==> back[1..][i] == back[i + 1];
      }
      SettlesWithin(v, back[1..], others);
    }
  }

  /** A read-back that holds can be believed. */
  ghost predicate Believable(v: Vid, others: set<Vid>) {
    forall back :: From(back, others) && Settles(v, back).Just? ==> Settles(v, back).value == v
  }

  /** When success means what it says: whatever the product writes back from these VLANs and how
      often, the VLAN that was read as `v` is `v`, if and only if none of them has a decimal that
      properly starts with that of `v`. */
  lemma BelievableExactly(v: Vid, others: set<Vid>)
    ensures Believable(v, others) <==> Unmistaken(v, others)
  {
    if Unmistaken(v, others) {
      forall back | From(back, others) && Settles(v, back).Just? ensures Settles(v, back).value == v {
        SettlesWithin(v, back, others);
      }
    } else {
      var w :| w in others && ReadsAs(w, v) && w != v;
      var back: seq<Maybe<Vid>> := [Just(w)];
      assert From(back, others) && Settles(v, back) == Just(w);
    }
  }

  predicate IsVid(w: Vid) { w <= MAX_VID }

  function AllVids(): set<Vid> { set w: Vid | 0 <= w <= MAX_VID && IsVid(w) }

  /** The guard a caller can check when the product may write any VLAN: ten times the wanted one is
      none. */
  lemma GuardExactly(v: Vid)
    ensures Believable(v, AllVids()) <==> v == 0 || 10 * v > MAX_VID
  {
    BelievableExactly(v, AllVids());
    if v == 0 || 10 * v > MAX_VID {
      forall w | w in AllVids() && ReadsAs(w, v) ensures w == v {
        ReadsAsBounds(w, v);
      }
    } else {
      TenfoldReadsAs(v);
      assert 10 * v in AllVids();
    }
  }

  /** How the tries end, in general: held exactly when some attempt is left alone or read as `v`. */
  lemma {:induction false} SettlesExactly(v: Vid, back: seq<Maybe<Vid>>)
    ensures Settles(v, back).Just? <==>
            exists i :: 0 <= i < |back| && (back[i].Nothing? || ReadsAs(back[i].value, v))
  {
    if back != [] {
      SettlesExactly(v, back[1..]);
      assert forall i :: 0 < i < |back| ==> back[i] == back[1..][i - 1];
      if back[0].Just? && !ReadsAs(back[0].value, v) && Settles(v, back[1..]).Just? {
        var i :| 0 <= i < |back[1..]| && (back[1..][i].Nothing? || ReadsAs(back[1..][i].value, v));
        assert back[i + 1] == back[1..][i];
      }
    }
  }

  /** One attempt more after some that did not hold. */
  lemma {:induction false} SettlesAppend(v: Vid, back: seq<Maybe<Vid>>, b: Maybe<Vid>)
    requires Settles(v, back).Nothing?
    ensures Settles(v, back + [b]) == Settles(v, [b])
  {
    if back == [] {
      assert back + [b] == [b];
    } else {
      assert (back + [b])[1..] == back[1..] + [b];
      SettlesAppend(v, back[1..], b);
    }
  }

  /** And once held, later attempts are not made. */
  lemma {:induction false} SettlesPrefix(v: Vid, back: seq<Maybe<Vid>>, n: nat)
    requires n <= |back| && Settles(v, back[..n]).Just?
    ensures Settles(v, back) == Settles(v, back[..n])
  {
    if n > 0 {
      assert back[..n][0] == back[0] && back[..n][1..] == back[1..][..n - 1];
      if back[0].Just? && !ReadsAs(back[0].value, v) {
        SettlesPrefix(v, back[1..], n - 1);
      }
    }
  }

  /** One attempt more. */
  lemma EndsNext(v: Vid, back: seq<Maybe<nat>>, i: nat)
    requires i < |back| && Settles(v, back[..i]) == Nothing
    ensures Settles(v, back[..i + 1]) == Settles(v, [back[i]]) && Ends(v, back[..i + 1]) == Ends(v, [back[i]])
    ensures Settles(v, [back[i]]).Just? ==>
              Settles(v, back) == Settles(v, [back[i]]) && Ends(v, back) == Ends(v, [back[i]])
  {
    assert back[..i + 1] == back[..i] + [back[i]];
    SettlesAppend(v, back[..i], back[i]);
    if Settles(v, [back[i]]).Just? { SettlesPrefix(v, back, i + 1); }
  }
}
