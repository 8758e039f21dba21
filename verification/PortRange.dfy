/** Port ranges: how a worker's port block is printed (framework/dut.py) and how such text is read
    back (framework/vlanchk.py). */
module PortRange {
  import opened Text
  import opened Wrappers

  /** A chip port name: letters and a number. */
  datatype Name = Name(prefix: string, num: nat)

  function Written(n: Name): string { n.prefix + Dec(n.num) }

  predicate IsLower(c: char) { 'a' <= c <= 'z' }

  predicate IsLetter(c: char) { IsLower(c) || 'A' <= c <= 'Z' }

  predicate Lower(s: string) { forall i :: 0 <= i < |s| ==> IsLower(s[i]) }

  predicate Letters(p: string) { p != "" && forall i :: 0 <= i < |p| ==> IsLetter(p[i]) }

  predicate Proper(n: Name) { Letters(n.prefix) }

  /** A port block: some ports, with different numbers. */
  predicate Block(ns: seq<Name>) {
    && ns != []
    && (forall i :: 0 <= i < |ns| ==> Proper(ns[i]))
    && (forall i, j :: 0 <= i < j < |ns| ==> ns[i].num != ns[j].num)
  }

  function Names(ns: seq<Name>): set<string> { set n | n in ns :: Written(n) }

  // ---- printing ----

  function Insert(n: Name, s: seq<Name>): (r: seq<Name>)
    ensures r != []
  {
    if s == [] || n.num <= s[0].num then [n] + s else [s[0]] + Insert(n, s[1..])
  }

  function Sort(ns: seq<Name>): seq<Name> {
    if ns == [] then [] else Insert(ns[0], Sort(ns[1..]))
  }

  predicate Consecutive(s: seq<Name>) {
    forall i :: 0 <= i < |s| ==> s[i].num == s[0].num + i
  }

  function WrittenAll(s: seq<Name>): (r: seq<string>)
    ensures |r| == |s| && forall i :: 0 <= i < |s| ==> r[i] == Written(s[i])
  {
    if s == [] then [] else [Written(s[0])] + WrittenAll(s[1..])
  }

  function Range(p: string, lo: nat, hi: nat): string { p + (Dec(lo) + "-" + (p + Dec(hi))) }

  function WorkerPbm(ns: seq<Name>): string
    requires ns != []
  {
    var s := Sort(ns);
    if s == [] then ""
    else if Consecutive(s) then Range(s[0].prefix, s[0].num, s[|s| - 1].num)
    else Join(WrittenAll(s), ',')
  }

  // ---- reading ----

  predicate IsSpace(c: char) { c in " \t\n\r" }

  function Strip(s: string): string
    decreases |s|
  {
    if s == "" then ""
    else if IsSpace(s[0]) then Strip(s[1..])
    else if IsSpace(s[|s| - 1]) then Strip(s[..|s| - 1])
    else s
  }

  /** The letters a token starts with. */
  function LowerLen(s: string): (n: nat)
    ensures n <= |s| && (forall i :: 0 <= i < n ==> IsLower(s[i])) && (n < |s| ==> !IsLower(s[n]))
  {
    if s == "" || !IsLower(s[0]) then 0
    else
      var n := LowerLen(s[1..]);
      assert forall i :: 0 < i < n + 1 ==> s[i] == s[1..][i - 1];
      n + 1
  }

  /** A range: letters, a number, a dash, the letters again or not, a number. */
  function ParseRange(tok: string): Maybe<(string, nat, nat)> {
    var n := LowerLen(tok);
    if n == 0 then Nothing
    else match Partition(tok[n..], '-')
      case Nothing => Nothing
      case Just(ab) =>
        var hi := if StartsWith(ab.1, tok[..n]) then ab.1[n..] else ab.1;
        if Number(ab.0) && Number(hi) then Just((tok[..n], Val(ab.0), Val(hi))) else Nothing
  }

  function RangeOf(p: string, lo: nat, hi: nat): set<string> { set i | lo <= i <= hi :: p + Dec(i) }

  /** A port name, or with no number the marker for a whole class of ports. */
  function ParseToken(tok: string): set<string> {
    var n := LowerLen(tok);
    if tok == "" || tok == "none" then {}
    else match ParseRange(tok)
      case Just(r) => RangeOf(r.0, r.1, r.2)
      case Nothing =>
        if n > 0 && Number(tok[n..]) then {tok}
        else if n == |tok| then {"*" + tok}
        else {}
  }

  function ParseTokens(toks: seq<string>): set<string> {
    if toks == [] then {} else ParseTokens(toks[..|toks| - 1]) + ParseToken(Strip(toks[|toks| - 1]))
  }

  function Expand(seg: string): set<string> { ParseTokens(Split(seg, ',')) }

  predicate Has(ports: set<string>, bcm: string) {
    bcm in ports || (LowerLen(bcm) > 0 && "*" + bcm[..LowerLen(bcm)] in ports)
  }

  method ExpandSegment(seg: string) returns (out: set<string>)
    ensures out == Expand(seg)
  {
    out := {};
    var toks := Split(seg, ',');
    for k := 0 to |toks|
      invariant out == ParseTokens(toks[..k])
    {
      ParseTokensNext(toks, k);
      out := out + ParseToken(Strip(toks[k]));
    }
    assert toks[..|toks|] == toks;
  }

  // ---- sorting ----

  predicate Sorted(s: seq<Name>) {
    forall i, j :: 0 <= i < j < |s| ==> s[i].num <= s[j].num
  }

  lemma {:induction false} InsertKeeps(n: Name, s: seq<Name>)
    ensures multiset(Insert(n, s)) == multiset([n] + s)
  {
    if s != [] && n.num > s[0].num {
      InsertKeeps(n, s[1..]);
      assert s == [s[0]] + s[1..];
    }
  }

  lemma {:induction false} InsertSorted(n: Name, s: seq<Name>)
    requires Sorted(s)
    ensures Sorted(Insert(n, s)) && (Insert(n, s)[0] == n || (s != [] && Insert(n, s)[0] == s[0]))
  {
    if s != [] && n.num > s[0].num {
      InsertSorted(n, s[1..]);
      SortedCons(s[0], Insert(n, s[1..]));
    } else if s != [] {
      SortedCons(n, s);
      assert [n] + s == Insert(n, s);
    }
  }

  lemma SortedCons(n: Name, s: seq<Name>)
    requires Sorted(s) && s != [] && n.num <= s[0].num
    ensures Sorted([n] + s)
  {
  }

  lemma {:induction false} SortSorts(ns: seq<Name>)
    ensures Sorted(Sort(ns)) && multiset(Sort(ns)) == multiset(ns)
  {
    if ns != [] {
      SortSorts(ns[1..]);
      InsertSorted(ns[0], Sort(ns[1..]));
      InsertKeeps(ns[0], Sort(ns[1..]));
      assert ns == [ns[0]] + ns[1..];
    }
  }

  /** The sorted block has the same ports, and is a block. */
  lemma SortBlock(ns: seq<Name>)
    requires Block(ns)
    ensures var s := Sort(ns); Block(s) && |s| == |ns| && forall n :: n in s <==> n in ns
  {
    SortSorts(ns);
    var s := Sort(ns);
    assert |multiset(s)| == |multiset(ns)|;
    forall n ensures n in s <==> n in ns {
      assert n in s <==> n in multiset(s);
      assert n in ns <==> n in multiset(ns);
    }
    forall i | 0 <= i < |s| ensures Proper(s[i]) {
      assert s[i] in ns;
    }
    forall i, j | 0 <= i < j < |s| ensures s[i].num != s[j].num {
      if s[i].num == s[j].num {
        SameNumberSame(ns, s[i], s[j]);
        TwiceInMultiset(s, i, j);
        OnceInMultiset(ns, s[i]);
      }
    }
  }

  lemma SameNumberSame(ns: seq<Name>, a: Name, b: Name)
    requires Block(ns) && a in ns && b in ns && a.num == b.num
    ensures a == b
  {
  }

  lemma TwiceInMultiset(s: seq<Name>, i: nat, j: nat)
    requires i < j < |s| && s[i] == s[j]
    ensures multiset(s)[s[i]] >= 2
  {
    assert s == s[..j] + s[j..];
    assert s[i] in s[..j] by { assert s[..j][i] == s[i]; }
    assert s[j] in s[j..] by { assert s[j..][0] == s[j]; }
    assert s[i] in multiset(s[..j]) && s[i] in multiset(s[j..]);
  }

  lemma {:induction false} OnceInMultiset(ns: seq<Name>, n: Name)
    requires forall i, j :: 0 <= i < j < |ns| ==> ns[i].num != ns[j].num
    ensures multiset(ns)[n] <= 1
  {
    if ns != [] {
      OnceInMultiset(ns[1..], n);
      assert ns == [ns[0]] + ns[1..];
      assert forall i :: 0 <= i < |ns| - 1 ==> ns[1..][i] == ns[i + 1];
    }
  }

  // ---- one token ----

  lemma LowerLenOf(p: string, rest: string)
    requires Lower(p) && (rest != "" ==> !IsLower(rest[0]))
    ensures LowerLen(p + rest) == |p|
  {
    assert forall i :: 0 <= i < |p| ==> (p + rest)[i] == p[i];
    assert rest != "" ==> (p + rest)[|p|] == rest[0];
  }

  /** A prefix with another letter in it stops the reading inside itself. */
  lemma LowerLenShort(p: string, rest: string)
    requires !Lower(p)
    ensures LowerLen(p + rest) < |p|
  {
    var i :| 0 <= i < |p| && !IsLower(p[i]);
    assert (p + rest)[i] == p[i];
  }

  lemma {:induction false} StripWhole(s: string)
    requires forall i :: 0 <= i < |s| ==> !IsSpace(s[i])
    ensures Strip(s) == s
  {
  }

  predicate Plain(s: string) {
    forall i :: 0 <= i < |s| ==> IsLetter(s[i]) || IsDigit(s[i]) || s[i] == '-'
  }

  lemma PlainConcat(a: string, b: string)
    requires Plain(a) && Plain(b)
    ensures Plain(a + b)
  {
  }

  lemma PlainToken(tok: string)
    requires Plain(tok)
    ensures ',' !in tok && Strip(tok) == tok
  {
    StripWhole(tok);
  }

  /** Letters come first, then a digit. */
  lemma WrittenShape(n: Name)
    requires Proper(n)
    ensures var w := Written(n);
            && (forall i :: 0 <= i < |n.prefix| ==> IsLetter(w[i]))
            && |n.prefix| < |w| && IsDigit(w[|n.prefix|]) && IsDigit(w[|w| - 1])
            && w[..|n.prefix|] == n.prefix && w[|n.prefix|..] == Dec(n.num)
  {
    var w := Written(n);
    assert w[|n.prefix|] == Dec(n.num)[0] && w[|w| - 1] == Dec(n.num)[|Dec(n.num)| - 1];
  }

  lemma WrittenPlain(n: Name)
    requires Proper(n)
    ensures Plain(Written(n)) && '-' !in Written(n) && Written(n) != "none"
  {
    PlainConcat(n.prefix, Dec(n.num));
    WrittenShape(n);
  }

  /** A name reads as itself when its letters are lower case, and as nothing otherwise. */
  lemma NameToken(n: Name)
    requires Proper(n)
    ensures ParseToken(Written(n)) == if Lower(n.prefix) then {Written(n)} else {}
  {
    var w, d := Written(n), Dec(n.num);
    WrittenPlain(n);
    var k := LowerLen(w);
    assert '-' !in w[k..];
    PartitionNone(w[k..], '-');
    if Lower(n.prefix) {
      LowerLenOf(n.prefix, d);
      assert w[k..] == d;
    } else {
      MixedUnread(n.prefix, d);
    }
  }

  lemma RangeRead(p: string, lo: nat, hi: nat)
    requires Letters(p) && Lower(p)
    ensures ParseRange(Range(p, lo, hi)) == Just((p, lo, hi))
  {
    var rest, tail := Dec(lo) + "-" + (p + Dec(hi)), p + Dec(hi);
    assert rest[0] == Dec(lo)[0];
    LowerLenOf(p, rest);
    assert (p + rest)[..|p|] == p && (p + rest)[|p|..] == rest;
    PartitionAt(Dec(lo), '-', tail);
    assert tail[..|p|] == p && tail[|p|..] == Dec(hi);
    ValDec(lo);
    ValDec(hi);
  }

  /** A token whose letters are not all lower case reads as nothing. */
  lemma MixedUnread(p: string, rest: string)
    requires Letters(p) && !Lower(p) && (p + rest) != "none"
    ensures ParseToken(p + rest) == {}
  {
    var tok, k := p + rest, LowerLen(p + rest);
    LowerLenShort(p, rest);
    assert tok[k..][0] == tok[k] == p[k];
    NotANumber(tok[k..]);
  }

  /** A range reads as its names when its letters are lower case, and as nothing otherwise. */
  lemma RangeToken(p: string, lo: nat, hi: nat)
    requires Letters(p)
    ensures ParseToken(Range(p, lo, hi)) == if Lower(p) then RangeOf(p, lo, hi) else {}
  {
    var rest := Dec(lo) + "-" + (p + Dec(hi));
    NoneHasNoDigit(p, rest);
    if Lower(p) {
      RangeRead(p, lo, hi);
    } else {
      MixedUnread(p, rest);
    }
  }

  lemma NoneHasNoDigit(p: string, rest: string)
    requires rest != "" && IsDigit(rest[0])
    ensures p + rest != "none" && p + rest != ""
  {
    assert (p + rest)[|p|] == rest[0];
    assert forall i :: 0 <= i < 4 ==> !IsDigit("none"[i]);
  }

  /** Text that starts with a letter has no number before its first dash, and is none. */
  lemma NotANumber(s: string)
    requires s != "" && !IsDigit(s[0]) && s[0] != '-'
    ensures !Number(s)
    ensures var ab := Partition(s, '-'); ab.Just? ==> !Number(ab.value.0)
  {
    var ab := Partition(s, '-');
    if ab.Just? { assert ab.value.0[0] == s[0]; }
  }

  /** The three shapes a token can have besides plain lower-case letters: letters and a number, and two
      numbers with a dash between, the second with or without the letters. */
  predicate IsName(tok: string, p: string, d: string) {
    p != "" && Lower(p) && Number(d) && tok == p + d
  }

  predicate IsRange(tok: string, p: string, a: string, b: string) {
    && p != "" && Lower(p) && Number(a) && Number(b)
    && (tok == p + (a + "-" + b) || tok == p + (a + "-" + (p + b)))
  }

  lemma NumberBehind(p: string, rest: string)
    requires Lower(p) && rest != "" && IsDigit(rest[0])
    ensures LowerLen(p + rest) == |p| && (p + rest)[..|p|] == p && (p + rest)[|p|..] == rest
    ensures p + rest != "none" && p + rest != ""
  {
    LowerLenOf(p, rest);
    NoneHasNoDigit(p, rest);
  }

  lemma RangeIsRead(tok: string, p: string, a: string, b: string)
    requires IsRange(tok, p, a, b)
    ensures ParseRange(tok) == Just((p, Val(a), Val(b))) && tok != "none" && tok != ""
  {
    var tail := if tok == p + (a + "-" + b) then b else p + b;
    var rest := a + "-" + tail;
    assert rest[0] == a[0];
    NumberBehind(p, rest);
    PartitionAt(a, '-', tail);
    if tail == b {
      assert IsDigit(b[0]) && !IsDigit(p[0]);
      assert |p| <= |b| ==> b[..|p|][0] == b[0];
    } else {
      assert tail[..|p|] == p && tail[|p|..] == b;
    }
  }

  lemma RangeWasThere(tok: string)
    requires ParseRange(tok).Just?
    ensures exists p, a, b :: IsRange(tok, p, a, b)
  {
    var n := LowerLen(tok);
    var p, rest := tok[..n], tok[n..];
    PartitionExactly(rest, '-');
    var ab := Partition(rest, '-').value;
    TwoParts(tok, n);
    if StartsWith(ab.1, p) {
      TwoParts(ab.1, n);
      assert IsRange(tok, p, ab.0, ab.1[n..]);
    } else {
      assert IsRange(tok, p, ab.0, ab.1);
    }
  }

  lemma TwoParts(s: string, n: nat)
    requires n <= |s|
    ensures s == s[..n] + s[n..]
  {
  }

  lemma NameIsRead(tok: string, p: string, d: string)
    requires IsName(tok, p, d)
    ensures ParseToken(tok) == {tok}
  {
    NumberBehind(p, d);
    PartitionNone(d, '-');
  }

  lemma NameWasThere(tok: string)
    requires LowerLen(tok) > 0 && Number(tok[LowerLen(tok)..])
    ensures IsName(tok, tok[..LowerLen(tok)], tok[LowerLen(tok)..])
  {
  }

  /** Letters alone, other than the word none, stand for a whole class. */
  lemma ClassToken(c: string)
    requires Lower(c)
    ensures ParseToken(c) == if c == "" || c == "none" then {} else {"*" + c}
  {
    assert c + "" == c;
    LowerLenOf(c, "");
    assert c[|c|..] == "";
    assert Partition("", '-') == Nothing;
  }

  /** What a token stands for, for every text: a range for its names, inclusive on both ends; a name for
      itself; letters alone for their class; and everything else, the word none included, for nothing. */
  lemma TokenExactly(tok: string)
    ensures forall p, a, b :: IsRange(tok, p, a, b) ==> ParseToken(tok) == RangeOf(p, Val(a), Val(b))
    ensures forall p, d :: IsName(tok, p, d) ==> ParseToken(tok) == {tok}
    ensures Lower(tok) && tok != "" && tok != "none" ==> ParseToken(tok) == {"*" + tok}
    ensures (forall p, a, b :: !IsRange(tok, p, a, b)) && (forall p, d :: !IsName(tok, p, d)) &&
            (Lower(tok) ==> tok == "" || tok == "none") ==>
              ParseToken(tok) == {}
  {
    forall p, a, b | IsRange(tok, p, a, b) ensures ParseToken(tok) == RangeOf(p, Val(a), Val(b)) {
      RangeIsRead(tok, p, a, b);
    }
    forall p, d | IsName(tok, p, d) ensures ParseToken(tok) == {tok} {
      NameIsRead(tok, p, d);
    }
    if Lower(tok) { ClassToken(tok); }
    if ParseToken(tok) != {} {
      if ParseRange(tok).Just? {
        RangeWasThere(tok);
      } else if LowerLen(tok) > 0 && Number(tok[LowerLen(tok)..]) {
        NameWasThere(tok);
      }
    }
  }

  lemma LowerLenWritten(n: Name)
    requires Proper(n)
    ensures LowerLen(Written(n)) <= |n.prefix|
    ensures Written(n)[..LowerLen(Written(n))] == n.prefix[..LowerLen(Written(n))]
    ensures Lower(n.prefix) ==> LowerLen(Written(n)) == |n.prefix|
  {
    WrittenShape(n);
    var k := LowerLen(Written(n));
    assert !IsLower(Written(n)[|n.prefix|]);
    if Lower(n.prefix) { LowerLenOf(n.prefix, Dec(n.num)); }
  }

  /** Such a token makes the membership test answer for every port whose name begins with just these
      lower-case letters, and for no other. */
  lemma ClassHasExactly(c: string, n: Name)
    requires Lower(c) && c != "" && Proper(n)
    ensures Has(ParseToken(c), Written(n)) <==>
            c != "none" && LowerLen(Written(n)) == |c| && c <= Written(n)
    ensures Lower(n.prefix) ==> (Has(ParseToken(c), Written(n)) <==> c != "none" && n.prefix == c)
  {
    ClassToken(c);
    LowerLenWritten(n);
    WrittenShape(n);
    var w := Written(n);
    var k := LowerLen(w);
    assert "*" + c != w by { assert ("*" + c)[0] == '*' && IsLetter(w[0]); }
    if "*" + c == "*" + w[..k] {
      assert c == ("*" + c)[1..] == ("*" + w[..k])[1..] == w[..k];
    }
  }

  /** A name that begins with no lower-case letter belongs to no class. */
  lemma HasNoClass(ports: set<string>, bcm: string)
    requires bcm == "" || !IsLower(bcm[0])
    ensures Has(ports, bcm) <==> bcm in ports
  {
  }

  predicate Blank(s: string) { forall i :: 0 <= i < |s| ==> IsSpace(s[i]) }

  lemma {:induction false} StripFront(a: string, t: string)
    requires Blank(a) && t != "" && !IsSpace(t[0])
    ensures Strip(a + t) == Strip(t)
  {
    if a == "" {
      assert a + t == t;
    } else {
      assert (a + t)[1..] == a[1..] + t && IsSpace((a + t)[0]);
      StripFront(a[1..], t);
    }
  }

  lemma {:induction false} StripBack(t: string, b: string)
    requires Blank(b) && t != "" && !IsSpace(t[0]) && !IsSpace(t[|t| - 1])
    ensures Strip(t + b) == t
    decreases |b|
  {
    if b == "" {
      assert t + b == t;
    } else {
      var n := |b| - 1;
      assert (t + b)[0] == t[0] && (t + b)[|t + b| - 1] == b[n] && (t + b)[..|t + b| - 1] == t + b[..n];
      StripBack(t, b[..n]);
    }
  }

  /** Blanks around a token do not count. */
  lemma StripExactly(a: string, t: string, b: string)
    requires Blank(a) && Blank(b) && t != "" && !IsSpace(t[0]) && !IsSpace(t[|t| - 1])
    ensures Strip(a + t + b) == t
  {
    assert a + t + b == a + (t + b);
    StripFront(a, t + b);
    StripBack(t, b);
  }

  // ---- whole segments ----

  /** A segment stands for what its tokens stand for. */
  lemma ExpandAppend(seg: string, tok: string)
    requires ',' !in tok
    ensures Expand(seg + [','] + tok) == Expand(seg) + ParseToken(Strip(tok))
  {
    SplitAt(seg, ',', tok);
    ParseTokensAppend(Split(seg, ','), tok);
  }

  lemma ExpandOne(tok: string)
    requires ',' !in tok
    ensures Expand(tok) == ParseToken(Strip(tok))
  {
    SplitWhole(tok, ',');
    var none: seq<string> := [];
    assert none + [tok] == [tok];
    ParseTokensAppend(none, tok);
  }

  function LowerNames(s: seq<Name>): set<string> { set n | n in s && Lower(n.prefix) :: Written(n) }

  function Seen(n: Name): set<string> { if Lower(n.prefix) then {Written(n)} else {} }

  lemma LowerNamesAppend(s: seq<Name>, n: Name)
    ensures LowerNames(s + [n]) == LowerNames(s) + Seen(n)
  {
    forall m ensures m in s + [n] <==> m in s || m == n {
    }
  }

  lemma StrippedNameToken(n: Name)
    requires Proper(n)
    ensures ParseToken(Strip(Written(n))) == Seen(n)
  {
    WrittenPlain(n);
    PlainToken(Written(n));
    NameToken(n);
  }

  lemma ParseTokensAppend(toks: seq<string>, tok: string)
    ensures ParseTokens(toks + [tok]) == ParseTokens(toks) + ParseToken(Strip(tok))
  {
    assert (toks + [tok])[..|toks|] == toks;
  }

  lemma ParseTokensNext(toks: seq<string>, k: nat)
    requires k < |toks|
    ensures ParseTokens(toks[..k + 1]) == ParseTokens(toks[..k]) + ParseToken(Strip(toks[k]))
  {
    TakeGrows(toks, k);
    ParseTokensAppend(toks[..k], toks[k]);
  }

  predicate Tokens(toks: seq<string>, s: seq<Name>) {
    |toks| == |s| && forall i :: 0 <= i < |s| ==> Token(toks[i], s[i])
  }

  predicate Token(tok: string, n: Name) { ParseToken(Strip(tok)) == Seen(n) }

  lemma TokensStep(toks: seq<string>, tok: string, s: seq<Name>, n: Name)
    requires ParseTokens(toks) == LowerNames(s) && Token(tok, n)
    ensures ParseTokens(toks + [tok]) == LowerNames(s + [n])
  {
    ParseTokensAppend(toks, tok);
    LowerNamesAppend(s, n);
  }

  lemma {:induction false} TokensOfNames(toks: seq<string>, s: seq<Name>, n: nat)
    requires Tokens(toks, s) && n <= |s|
    ensures ParseTokens(toks[..n]) == LowerNames(s[..n])
  {
    if n == 0 {
      assert LowerNames(s[..0]) == {};
    } else {
      var k := n - 1;
      assert Token(toks[k], s[k]);
      TokensOfNames(toks, s, k);
      TokensStep(toks[..k], toks[k], s[..k], s[k]);
      TakeGrows(toks, k);
      TakeGrows(s, k);
    }
  }

  lemma WrittenTokens(s: seq<Name>)
    requires Block(s)
    ensures Tokens(WrittenAll(s), s)
  {
    forall i | 0 <= i < |s| ensures Token(WrittenAll(s)[i], s[i]) {
      StrippedNameToken(s[i]);
    }
  }

  lemma AllTokens(toks: seq<string>, s: seq<Name>)
    requires Tokens(toks, s)
    ensures ParseTokens(toks) == LowerNames(s)
  {
    TokensOfNames(toks, s, |s|);
    assert toks[..|s|] == toks && s[..|s|] == s;
  }

  lemma ExpandJoined(s: seq<Name>)
    requires Block(s)
    ensures Expand(Join(WrittenAll(s), ',')) == LowerNames(s)
  {
    ListPrinted(s);
    WrittenTokens(s);
    AllTokens(WrittenAll(s), s);
  }

  lemma ExpandRange(p: string, lo: nat, hi: nat)
    requires Letters(p)
    ensures Expand(Range(p, lo, hi)) == ParseToken(Range(p, lo, hi))
  {
    var tok := Range(p, lo, hi);
    PlainConcat(p, Dec(hi));
    PlainConcat(Dec(lo), "-");
    PlainConcat(Dec(lo) + "-", p + Dec(hi));
    PlainConcat(p, Dec(lo) + "-" + (p + Dec(hi)));
    PlainToken(tok);
    ExpandOne(tok);
  }

  lemma WrittenInjective(a: Name, b: Name)
    requires Proper(a) && Proper(b)
    ensures Written(a) == Written(b) <==> a == b
  {
    WrittenShape(a);
    WrittenShape(b);
    DecInjective(a.num, b.num);
  }

  predicate AllLower(ns: seq<Name>) { forall n :: n in ns ==> Lower(n.prefix) }

  predicate SharedPrefix(ns: seq<Name>) { forall m, n :: m in ns && n in ns ==> m.prefix == n.prefix }

  /** The block has no gap in its numbers. */
  predicate Gapless(ns: seq<Name>) { Consecutive(Sort(ns)) }

  /** The names of a gapless sorted block, and the names its printed range stands for. */
  lemma RangeNames(s: seq<Name>)
    requires Block(s) && Consecutive(s) && Lower(s[0].prefix)
    ensures RangeOf(s[0].prefix, s[0].num, s[|s| - 1].num) == Names(s) <==> SharedPrefix(s)
  {
    var p, lo, hi := s[0].prefix, s[0].num, s[|s| - 1].num;
    var r := RangeOf(p, lo, hi);
    assert hi == lo + |s| - 1;
    if SharedPrefix(s) {
      forall w | w in r ensures w in Names(s) {
        var i :| lo <= i <= hi && w == p + Dec(i);
        assert s[i - lo] in s && Written(s[i - lo]) == w;
      }
      forall w | w in Names(s) ensures w in r {
        var n :| n in s && w == Written(n);
        var i :| 0 <= i < |s| && s[i] == n;
        assert n.prefix == p && lo <= n.num <= hi;
      }
      assert r == Names(s);
    } else {
      var n :| n in s && n.prefix != p;
      assert Written(n) in Names(s);
      if Written(n) in r {
        var i :| lo <= i <= hi && Written(n) == p + Dec(i);
        WrittenInjective(n, Name(p, i));
      }
    }
  }

  /** The lower-case names are all names exactly when every name is lower-case. */
  lemma LowerNamesAll(s: seq<Name>)
    requires Block(s)
    ensures LowerNames(s) == Names(s) <==> AllLower(s)
  {
    if !AllLower(s) {
      var n :| n in s && !Lower(n.prefix);
      assert Written(n) in Names(s);
      if Written(n) in LowerNames(s) {
        var m :| m in s && Lower(m.prefix) && Written(m) == Written(n);
        WrittenInjective(m, n);
      }
    }
  }

  /** Reading back a printed block gives exactly its ports when, and only when, all its letters are
      lower case and, if its numbers have no gap, all its ports share them. */
  lemma ExpandPbmExactly(ns: seq<Name>)
    requires Block(ns)
    ensures Expand(WorkerPbm(ns)) == Names(ns) <==> AllLower(ns) && (Gapless(ns) ==> SharedPrefix(ns))
  {
    SortBlock(ns);
    var s := Sort(ns);
    assert Names(s) == Names(ns);
    if Gapless(ns) {
      var last := s[|s| - 1].num;
      ExpandRange(s[0].prefix, s[0].num, last);
      RangeToken(s[0].prefix, s[0].num, last);
      assert s[0] in s;
      if Lower(s[0].prefix) {
        RangeNames(s);
      } else {
        assert Written(s[0]) in Names(s);
        assert !AllLower(ns);
      }
    } else {
      ExpandJoined(s);
      LowerNamesAll(s);
      assert AllLower(s) <==> AllLower(ns);
    }
  }

  /** The lowest and the highest number of a block. */
  ghost predicate Spans(ns: seq<Name>, lo: nat, hi: nat) {
    && (forall n :: n in ns ==> lo <= n.num <= hi)
    && (exists n :: n in ns && n.num == lo) && (exists n :: n in ns && n.num == hi)
  }

  lemma {:induction false} SortedGrows(s: seq<Name>, i: nat, j: nat)
    requires Sorted(s) && Block(s) && i <= j < |s|
    ensures s[j].num - s[i].num >= j - i
    decreases j
  {
    if i < j {
      SortedGrows(s, i, j - 1);
      assert s[j - 1].num <= s[j].num && s[j - 1].num != s[j].num;
    }
  }

  lemma SpanEnds(s: seq<Name>, lo: nat, hi: nat)
    requires Sorted(s) && s != [] && Spans(s, lo, hi)
    ensures s[0].num == lo && s[|s| - 1].num == hi
  {
    var low :| low in s && low.num == lo;
    var high :| high in s && high.num == hi;
    var i :| 0 <= i < |s| && s[i] == low;
    var j :| 0 <= j < |s| && s[j] == high;
    assert s[0] in s && s[|s| - 1] in s;
  }

  lemma SameSpan(ns: seq<Name>, s: seq<Name>, lo: nat, hi: nat)
    requires Spans(ns, lo, hi) && forall n :: n in s <==> n in ns
    ensures Spans(s, lo, hi)
  {
    var low :| low in ns && low.num == lo;
    var high :| high in ns && high.num == hi;
    assert low in s && high in s;
  }

  lemma SortSpans(ns: seq<Name>, lo: nat, hi: nat)
    requires Block(ns) && Spans(ns, lo, hi)
    ensures var s := Sort(ns); Sorted(s) && Block(s) && |s| == |ns| && s[0].num == lo && s[|s| - 1].num == hi
  {
    SortBlock(ns);
    SortIsSorted(ns);
    EndsOfSorted(ns, Sort(ns), lo, hi);
  }

  lemma SortIsSorted(ns: seq<Name>)
    ensures Sorted(Sort(ns))
  {
    SortSorts(ns);
  }

  lemma EndsOfSorted(ns: seq<Name>, s: seq<Name>, lo: nat, hi: nat)
    requires Spans(ns, lo, hi) && Sorted(s) && s != [] && forall n :: n in s <==> n in ns
    ensures s[0].num == lo && s[|s| - 1].num == hi
  {
    SameSpan(ns, s, lo, hi);
    SpanEnds(s, lo, hi);
  }

  /** The numbers of a block have no gap exactly when it has as many ports as its span has numbers. */
  lemma GaplessExactly(ns: seq<Name>, lo: nat, hi: nat)
    requires Block(ns) && Spans(ns, lo, hi)
    ensures Gapless(ns) <==> |ns| == hi - lo + 1
  {
    SortSpans(ns, lo, hi);
    var s := Sort(ns);
    if |ns| == hi - lo + 1 {
      forall i | 0 <= i < |s| ensures s[i].num == s[0].num + i {
        SortedGrows(s, 0, i);
        SortedGrows(s, i, |s| - 1);
      }
    }
  }

  lemma ListPrinted(s: seq<Name>)
    requires Block(s)
    ensures Split(Join(WrittenAll(s), ','), ',') == WrittenAll(s)
  {
    forall i | 0 <= i < |s| ensures ',' !in WrittenAll(s)[i] {
      WrittenPlain(s[i]);
      PlainToken(Written(s[i]));
    }
    SplitJoin(WrittenAll(s), ',');
  }

  /** What is printed for a block without a gap: its first and its last name with a dash between. */
  lemma RunPrinted(ns: seq<Name>, lo: nat, hi: nat, p: string)
    requires Block(ns) && Spans(ns, lo, hi) && |ns| == hi - lo + 1
    requires forall n :: n in ns ==> n.prefix == p
    ensures WorkerPbm(ns) == p + (Dec(lo) + "-" + (p + Dec(hi)))
  {
    GaplessExactly(ns, lo, hi);
    SortSpans(ns, lo, hi);
    SortBlock(ns);
    assert Sort(ns)[0] in ns;
  }

  /** And for one with a gap: the names of its ports, in the order of their numbers. */
  lemma GapPrinted(ns: seq<Name>, lo: nat, hi: nat)
    requires Block(ns) && Spans(ns, lo, hi) && |ns| != hi - lo + 1
    ensures var s := Sort(ns);
            && Split(WorkerPbm(ns), ',') == WrittenAll(s)
            && Sorted(s) && |s| == |ns| && forall n :: n in s <==> n in ns
  {
    GaplessExactly(ns, lo, hi);
    SortSpans(ns, lo, hi);
    SortBlock(ns);
    ListPrinted(Sort(ns));
  }

  predicate Readable(ns: seq<Name>) {
    Block(ns) && AllLower(ns) && (Gapless(ns) ==> SharedPrefix(ns))
  }

  /** The membership test on a printed block answers for its ports and no others. */
  lemma HasExactly(ns: seq<Name>, n: Name)
    requires Readable(ns) && Proper(n)
    ensures Has(Expand(WorkerPbm(ns)), Written(n)) <==> n in ns
  {
    ExpandPbmExactly(ns);
    var w := Written(n);
    if n in ns { assert w in Names(ns); }
    if w in Names(ns) {
      var m :| m in ns && Written(m) == w;
      assert Proper(m);
      WrittenInjective(m, n);
    }
    var star := "*" + w[..LowerLen(w)];
    assert star[0] == '*';
    forall m | m in ns ensures Written(m) != star {
      WrittenShape(m);
      assert IsLetter(Written(m)[0]);
    }
  }

  /** A range command of one worker touches no port of another worker's block. */
  lemma BlocksStayApart(mine: seq<Name>, theirs: seq<Name>)
    requires Readable(mine) && Block(theirs) && forall n :: n in mine ==> n !in theirs
    ensures Expand(WorkerPbm(mine)) !! Names(theirs)
  {
    ExpandPbmExactly(mine);
    forall w | w in Names(mine) && w in Names(theirs) ensures false {
      var m :| m in mine && Written(m) == w;
      var t :| t in theirs && Written(t) == w;
      assert Proper(m) && Proper(t);
      WrittenInjective(m, t);
    }
  }
}
