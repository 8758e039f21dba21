/** Text as the program handles it: decimal numbers, prefixes, splitting and joining. */
module Text {
  import opened Wrappers

  // ---- decimal numbers ----

  predicate IsDigit(c: char) { '0' <= c <= '9' }

  predicate AllDigits(s: string) { forall i :: 0 <= i < |s| ==> IsDigit(s[i]) }

  /** `str.isdigit` on ASCII text. */
  predicate Number(s: string) { s != "" && AllDigits(s) }

  function Dec(n: nat): (s: string)
    ensures Number(s)
  {
    if n < 10 then [('0' as int + n) as char] else Dec(n / 10) + [('0' as int + n % 10) as char]
  }

  function Val(s: string): nat
    requires AllDigits(s)
  {
    if s == "" then 0 else 10 * Val(s[..|s| - 1]) + (s[|s| - 1] as int - '0' as int)
  }

  lemma {:induction false} ValDec(n: nat)
    ensures Val(Dec(n)) == n
  {
    if n >= 10 {
      ValDec(n / 10);
      var s := Dec(n / 10);
      assert (s + [('0' as int + n % 10) as char])[..|s|] == s;
    } else {
      var s := Dec(n);
      assert s[..|s| - 1] == "";
    }
  }

  lemma DecInjective(m: nat, n: nat)
    ensures Dec(m) == Dec(n) <==> m == n
  {
    ValDec(m);
    ValDec(n);
  }

  // ---- cutting ----

  lemma TakeGrows<T>(s: seq<T>, n: nat)
    requires n < |s|
    ensures s[..n + 1] == s[..n] + [s[n]]
  {
  }

  lemma Assoc<T>(a: seq<T>, b: seq<T>, c: seq<T>)
    ensures (a + b) + c == a + (b + c)
  {
  }

  predicate StartsWith(s: string, p: string) { |p| <= |s| && s[..|p|] == p }

  /** The text before and after the first separator; without one, nothing. */
  function Partition(s: string, sep: char): Maybe<(string, string)> {
    if s == "" then Nothing
    else if s[0] == sep then Just(("", s[1..]))
    else match Partition(s[1..], sep)
      case Nothing => Nothing
      case Just(ab) => Just(([s[0]] + ab.0, ab.1))
  }

  lemma {:induction false} PartitionAt(a: string, sep: char, b: string)
    requires sep !in a
    ensures Partition(a + [sep] + b, sep) == Just((a, b))
  {
    var s := a + [sep] + b;
    if a == "" {
      assert s[1..] == b;
    } else {
      assert s[1..] == a[1..] + [sep] + b;
      PartitionAt(a[1..], sep, b);
      assert [a[0]] + a[1..] == a;
    }
  }

  lemma {:induction false} PartitionNone(a: string, sep: char)
    requires sep !in a
    ensures Partition(a, sep) == Nothing
  {
    if a != "" { PartitionNone(a[1..], sep); }
  }

  lemma {:induction false} PartitionExactly(s: string, sep: char)
    ensures Partition(s, sep).Nothing? <==> sep !in s
    ensures var ab := Partition(s, sep);
            ab.Just? ==> s == ab.value.0 + [sep] + ab.value.1 && sep !in ab.value.0
  {
    if s != "" && s[0] != sep {
      PartitionExactly(s[1..], sep);
      assert s == [s[0]] + s[1..];
      var ab := Partition(s[1..], sep);
      if ab.Just? {
        assert [s[0]] + (ab.value.0 + [sep] + ab.value.1) == ([s[0]] + ab.value.0) + [sep] + ab.value.1;
      }
    }
  }

  /** The pieces between separators. */
  function Split(s: string, sep: char): (r: seq<string>)
    ensures r != []
  {
    if s == "" then [""]
    else var rest := Split(s[1..], sep);
      if s[0] == sep then [""] + rest else [[s[0]] + rest[0]] + rest[1..]
  }

  lemma {:induction false} SplitWhole(s: string, sep: char)
    requires sep !in s
    ensures Split(s, sep) == [s]
  {
    if s != "" {
      SplitWhole(s[1..], sep);
      assert [s[0]] + s[1..] == s;
    }
  }

  lemma {:induction false} SplitAt(s: string, sep: char, u: string)
    requires sep !in u
    ensures Split(s + [sep] + u, sep) == Split(s, sep) + [u]
    decreases |s|
  {
    if s == "" {
      assert (s + [sep] + u)[1..] == u;
      SplitWhole(u, sep);
    } else {
      assert (s + [sep] + u)[1..] == s[1..] + [sep] + u;
      SplitAt(s[1..], sep, u);
    }
  }

  function Join(ss: seq<string>, sep: char): string
    requires ss != []
  {
    if |ss| == 1 then ss[0] else Join(ss[..|ss| - 1], sep) + [sep] + ss[|ss| - 1]
  }

  /** Splitting undoes joining when no piece holds the separator. */
  lemma {:induction false} SplitJoin(ss: seq<string>, sep: char)
    requires ss != [] && forall i :: 0 <= i < |ss| ==> sep !in ss[i]
    ensures Split(Join(ss, sep), sep) == ss
  {
    var n := |ss| - 1;
    if n == 0 {
      SplitWhole(ss[0], sep);
    } else {
      SplitJoin(ss[..n], sep);
      SplitAt(Join(ss[..n], sep), sep, ss[n]);
      assert ss == ss[..n] + [ss[n]];
    }
  }
}
