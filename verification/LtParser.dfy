/** The `lt` table output (framework/dlb.py): splitting fields into entries, and reading an array
    whose equal neighbours were printed as one run. */
module LtParser {
  import opened Text
  import opened Wrappers

  type Value = string

  /** One field as parsed: the key it is stored under, its name, and whether it had an index. */
  datatype Field = Field(key: string, name: string, indexed: bool, value: Value)

  /** NAME=v, NAME[i]=v or NAME[a-b]=v; empty brackets count as no index. */
  function Matched(name: string, idx: Maybe<string>, value: Value): Field {
    if idx.Just? && idx.value != "" then Field(name + "_" + idx.value, name, true, value)
    else Field(name, name, false, value)
  }

  /** Brackets with nothing between them count for none. */
  lemma MatchedExactly(name: string, idx: Maybe<string>, value: Value)
    ensures var f := Matched(name, idx, value);
            && f.name == name && f.value == value
            && (f.indexed <==> idx.Just? && idx != Just(""))
            && (f.key == name <==> !f.indexed)
  {
  }

  type Entry = seq<Field>

  predicate HasKey(e: Entry, k: string) { exists i :: 0 <= i < |e| && e[i].key == k }

  // ---- entries ----

  /** The entries closed so far and the one being filled. */
  datatype Parse = Parse(entries: seq<Entry>, cur: Entry)

  function Take(p: Parse, f: Field): Parse {
    if HasKey(p.cur, f.key) then Parse(p.entries + [p.cur], [f])
    else Parse(p.entries, p.cur + [f])
  }

  function ParseAll(fs: seq<Field>): Parse {
    if fs == [] then Parse([], []) else Take(ParseAll(fs[..|fs| - 1]), fs[|fs| - 1])
  }

  function Close(p: Parse): seq<Entry> { if p.cur == [] then p.entries else p.entries + [p.cur] }

  function Entries(fs: seq<Field>): seq<Entry> { Close(ParseAll(fs)) }

  /** Printing entries one after another. */
  function Flatten(es: seq<Entry>): seq<Field> {
    if es == [] then [] else Flatten(es[..|es| - 1]) + es[|es| - 1]
  }

  predicate DistinctKeys(e: Entry) {
    forall i, j :: 0 <= i < j < |e| ==> e[i].key != e[j].key
  }

  /** An entry list that printing keeps apart: entries are not empty and repeat no key, and each
      later one starts with a key of its predecessor. */
  predicate Separable(es: seq<Entry>) {
    && (forall i :: 0 <= i < |es| ==> es[i] != [] && DistinctKeys(es[i]))
    && (forall i :: 0 < i < |es| ==> HasKey(es[i - 1], es[i][0].key))
  }

  lemma ParseAppend(fs: seq<Field>, f: Field)
    ensures ParseAll(fs + [f]) == Take(ParseAll(fs), f)
  {
    assert (fs + [f])[..|fs|] == fs;
  }

  lemma FlattenAppend(es: seq<Entry>, e: Entry)
    ensures Flatten(es + [e]) == Flatten(es) + e
  {
    assert (es + [e])[..|es|] == es;
  }

  lemma DistinctGrow(e: Entry, f: Field)
    requires DistinctKeys(e) && !HasKey(e, f.key)
    ensures DistinctKeys(e + [f])
  {
    assert forall i :: 0 <= i < |e| ==> (e + [f])[i] == e[i];
  }

  lemma DistinctInit(e: Entry)
    requires DistinctKeys(e) && e != []
    ensures DistinctKeys(e[..|e| - 1]) && !HasKey(e[..|e| - 1], e[|e| - 1].key)
  {
  }

  lemma SeparableAppend(es: seq<Entry>, e: Entry)
    requires Separable(es) && e != [] && DistinctKeys(e)
    requires es != [] ==> HasKey(es[|es| - 1], e[0].key)
    ensures Separable(es + [e])
  {
    assert forall i :: 0 <= i < |es| ==> (es + [e])[i] == es[i];
  }

  lemma SeparableInit(es: seq<Entry>)
    requires Separable(es) && es != []
    ensures Separable(es[..|es| - 1])
  {
  }

  /** The invariant of the loop: nothing is lost, and the closed entries and the open one can be
      told apart. */
  predicate Kept(p: Parse, fs: seq<Field>) {
    && Flatten(p.entries) + p.cur == fs
    && Separable(p.entries) && DistinctKeys(p.cur)
    && (p.entries != [] ==> p.cur != [] && HasKey(p.entries[|p.entries| - 1], p.cur[0].key))
  }

  lemma TakeKeeps(p: Parse, fs: seq<Field>, f: Field)
    requires Kept(p, fs)
    ensures Kept(Take(p, f), fs + [f])
  {
    if HasKey(p.cur, f.key) {
      FlattenAppend(p.entries, p.cur);
      SeparableAppend(p.entries, p.cur);
    } else {
      assert Flatten(p.entries) + (p.cur + [f]) == fs + [f];
      DistinctGrow(p.cur, f);
    }
  }

  lemma {:induction false} ParseKeeps(fs: seq<Field>)
    ensures Kept(ParseAll(fs), fs)
  {
    if fs != [] {
      var n := |fs| - 1;
      ParseKeeps(fs[..n]);
      TakeKeeps(ParseAll(fs[..n]), fs[..n], fs[n]);
      assert fs == fs[..n] + [fs[n]];
    }
  }

  /** Parsing loses and reorders nothing, no entry repeats a key, and each later entry starts with a
      key of its predecessor. */
  lemma EntriesExact(fs: seq<Field>)
    ensures Flatten(Entries(fs)) == fs && Separable(Entries(fs))
  {
    ParseKeeps(fs);
    var p := ParseAll(fs);
    if p.cur != [] {
      FlattenAppend(p.entries, p.cur);
      SeparableAppend(p.entries, p.cur);
    }
  }

  lemma TakeFirst(p: Parse, f: Field)
    requires p.cur == [] || HasKey(p.cur, f.key)
    ensures Take(p, f) == Parse(Close(p), [f])
  {
    assert p.cur == [] ==> p.cur + [f] == [f];
  }

  lemma TakeFresh(es: seq<Entry>, cur: Entry, f: Field)
    requires !HasKey(cur, f.key)
    ensures Take(Parse(es, cur), f) == Parse(es, cur + [f])
  {
  }

  lemma PrefixFresh(e: Entry, n: nat)
    requires n < |e| && DistinctKeys(e)
    ensures !HasKey(e[..n], e[n].key)
  {
  }

  /** Fields with fresh keys extend the current entry. */
  lemma {:induction false} ParseEntry(fs: seq<Field>, p: Parse, e: Entry, n: nat)
    requires n < |e| && DistinctKeys(e)
    requires p == ParseAll(fs) && (p.cur == [] || HasKey(p.cur, e[0].key))
    ensures ParseAll(fs + e[..n + 1]) == Parse(Close(p), e[..n + 1])
  {
    var f := e[n];
    TakeGrows(e, n);
    Assoc(fs, e[..n], [f]);
    ParseAppend(fs + e[..n], f);
    if n == 0 {
      assert e[..0] == [] && fs + [] == fs;
      TakeFirst(p, f);
    } else {
      ParseEntry(fs, p, e, n - 1);
      PrefixFresh(e, n);
      TakeFresh(Close(p), e[..n], f);
    }
  }

  lemma {:induction false} ParseFlatten(es: seq<Entry>)
    requires Separable(es)
    ensures ParseAll(Flatten(es)) == if es == [] then Parse([], []) else Parse(es[..|es| - 1], es[|es| - 1])
  {
    if es != [] {
      var n := |es| - 1;
      SeparableInit(es);
      ParseFlatten(es[..n]);
      var fs := Flatten(es[..n]);
      if n > 0 {
        assert es[..n][n - 1] == es[n - 1];
        assert es[..n][..n - 1] + [es[n - 1]] == es[..n];
      }
      ParseEntry(fs, ParseAll(fs), es[n], |es[n]| - 1);
      assert es[n][..|es[n]|] == es[n];
    }
  }

  lemma CloseWhole(es: seq<Entry>)
    requires es != [] ==> es[|es| - 1] != []
    ensures Close(if es == [] then Parse([], []) else Parse(es[..|es| - 1], es[|es| - 1])) == es
  {
  }

  /** Parsing inverts printing exactly for separable entry lists. */
  lemma EntriesInvertExactly(es: seq<Entry>)
    ensures Entries(Flatten(es)) == es <==> Separable(es)
  {
    EntriesExact(Flatten(es));
    if Separable(es) {
      ParseFlatten(es);
      CloseWhole(es);
    }
  }

  // ---- the parse loop ----

  /** The values of the indexed fields of one name, in order: the list kept under NAME[]. */
  function Listed(e: Entry, name: string): seq<Value> {
    if e == [] then []
    else var n := |e| - 1;
      Listed(e[..n], name) +
      if e[n].name == name && e[n].indexed then [e[n].value] else []
  }

  /** One parsed entry: its fields and its lists. */
  datatype Row = Row(fields: Entry, lists: map<string, seq<Value>>)

  /** The tokens that are fields, in order. */
  function Fields(toks: seq<Maybe<Field>>): seq<Field> {
    if toks == [] then []
    else var n := |toks| - 1; Fields(toks[..n]) + if toks[n].Just? then [toks[n].value] else []
  }

  lemma FieldsAppend(toks: seq<Maybe<Field>>, t: Maybe<Field>)
    ensures Fields(toks + [t]) == Fields(toks) + if t.Just? then [t.value] else []
  {
    assert (toks + [t])[..|toks|] == toks;
  }

  /** Token by token, in order. */
  lemma {:induction false} FieldsConcat(a: seq<Maybe<Field>>, b: seq<Maybe<Field>>)
    ensures Fields(a + b) == Fields(a) + Fields(b)
    decreases |b|
  {
    if b == [] {
      assert a + b == a;
    } else {
      var n := |b| - 1;
      var last := if b[n].Just? then [b[n].value] else [];
      TakeGrows(b, n);
      assert b[..n + 1] == b;
      Assoc(a, b[..n], [b[n]]);
      FieldsConcat(a, b[..n]);
      FieldsAppend(a + b[..n], b[n]);
      Assoc(Fields(a), Fields(b[..n]), last);
    }
  }

  function WithField(r: Row, f: Field): Row {
    Row(r.fields + [f],
        if f.indexed
        then r.lists[f.name := (if f.name in r.lists then r.lists[f.name] else []) + [f.value]]
        else r.lists)
  }

  /** The row holds the entry, and a list for exactly the names that have indexed fields. */
  ghost predicate RowComplete(r: Row, e: Entry) {
    r.fields == e && forall name :: (name in r.lists <==> Listed(e, name) != []) &&
                                    (name in r.lists ==> r.lists[name] == Listed(e, name))
  }

  lemma WithFieldComplete(r: Row, e: Entry, f: Field)
    requires RowComplete(r, e)
    ensures RowComplete(WithField(r, f), e + [f])
  {
    var t := WithField(r, f);
    assert (e + [f])[..|e|] == e;
    forall name ensures (name in t.lists <==> Listed(e + [f], name) != []) &&
                        (name in t.lists ==> t.lists[name] == Listed(e + [f], name))
    {
      assert Listed(e, name) + [] == Listed(e, name);
      assert [] + [f.value] == [f.value];
    }
  }

  /** How many fields of an entry are elements of the array. */
  function Elements(e: Entry, name: string): nat {
    if e == [] then 0
    else var n := |e| - 1; Elements(e[..n], name) + if e[n].name == name && e[n].indexed then 1 else 0
  }

  lemma {:induction false} ElementsGrow(e: Entry, name: string, j: nat)
    requires j < |e| && e[j].name == name && e[j].indexed
    ensures Elements(e[..j], name) < Elements(e, name)
    decreases |e|
  {
    var n := |e| - 1;
    if j < n {
      assert e[..n][..j] == e[..j];
      ElementsGrow(e[..n], name, j);
    }
  }

  lemma {:induction false} ListedLength(e: Entry, name: string)
    ensures |Listed(e, name)| == Elements(e, name)
  {
    if e != [] { ListedLength(e[..|e| - 1], name); }
  }

  /** The list under NAME[] holds every element of the array and nothing else, in the order of printing:
      the value of an element is at the place that counts the elements before it. */
  lemma {:induction false} ListedExactly(e: Entry, name: string, j: nat)
    requires j < |e| && e[j].name == name && e[j].indexed
    ensures Elements(e[..j], name) < |Listed(e, name)| == Elements(e, name)
    ensures Listed(e, name)[Elements(e[..j], name)] == e[j].value
    decreases |e|
  {
    var n := |e| - 1;
    ListedLength(e, name);
    ListedLength(e[..n], name);
    ElementsGrow(e, name, j);
    if j < n {
      assert e[..n][..j] == e[..j];
      ListedExactly(e[..n], name, j);
    }
  }

  ghost predicate AllComplete(rows: seq<Row>, es: seq<Entry>) {
    |rows| == |es| && forall i :: 0 <= i < |rows| ==> RowComplete(rows[i], es[i])
  }

  /** One field: it starts a new row when the open one has its key already. */
  method TakeField(rows: seq<Row>, cur: Row, f: Field, ghost p: Parse) returns (rows': seq<Row>, cur': Row)
    requires AllComplete(rows, p.entries) && RowComplete(cur, p.cur)
    ensures AllComplete(rows', Take(p, f).entries) && RowComplete(cur', Take(p, f).cur)
  {
    if HasKey(cur.fields, f.key) {
      rows' := rows + [cur];
      WithFieldComplete(Row([], map[]), [], f);
      cur' := WithField(Row([], map[]), f);
      assert [] + [f] == [f];
    } else {
      rows' := rows;
      WithFieldComplete(cur, p.cur, f);
      cur' := WithField(cur, f);
    }
  }

  lemma FieldsNext(toks: seq<Maybe<Field>>, k: nat)
    requires k < |toks|
    ensures toks[k].Nothing? ==> Fields(toks[..k + 1]) == Fields(toks[..k])
    ensures toks[k].Just? ==> Fields(toks[..k + 1]) == Fields(toks[..k]) + [toks[k].value]
  {
    assert toks[..k + 1][..k] == toks[..k];
    assert Fields(toks[..k]) + [] == Fields(toks[..k]);
  }

  /** The parser's loop: its rows are the entries above, with their lists. */
  method ParseEntries(toks: seq<Maybe<Field>>) returns (rows: seq<Row>)
    ensures AllComplete(rows, Entries(Fields(toks)))
  {
    rows := [];
    var cur := Row([], map[]);
    for k := 0 to |toks|
      invariant var p := ParseAll(Fields(toks[..k])); AllComplete(rows, p.entries) && RowComplete(cur, p.cur)
    {
      FieldsNext(toks, k);
      if toks[k].Just? {
        ParseAppend(Fields(toks[..k]), toks[k].value);
        rows, cur := TakeField(rows, cur, toks[k].value, ParseAll(Fields(toks[..k])));
      }
    }
    assert toks[..|toks|] == toks;
    if cur.fields != [] {
      rows := rows + [cur];
    }
  }

  // ---- reading an array ----

  /** The span of indices a key names, when it is a run of this array. */
  function Span(k: string, name: string): Maybe<(nat, nat)> {
    if !StartsWith(k, name + "_") then Nothing
    else match Partition(k[|name| + 1..], '-')
      case Nothing => Nothing
      case Just(ab) => if Number(ab.0) && Number(ab.1) then Just((Val(ab.0), Val(ab.1))) else Nothing
  }

  predicate Covers(k: string, name: string, index: nat) {
    var s := Span(k, name);
    s.Just? && s.value.0 <= index <= s.value.1
  }

  function Lookup(e: Entry, k: string): Maybe<Value> {
    if e == [] then Nothing else if e[0].key == k then Just(e[0].value) else Lookup(e[1..], k)
  }

  function FirstCovering(e: Entry, name: string, index: nat): Maybe<Value> {
    if e == [] then Nothing
    else if Covers(e[0].key, name, index) then Just(e[0].value)
    else FirstCovering(e[1..], name, index)
  }

  function FieldAt(e: Entry, name: string, index: nat): Maybe<Value> {
    var exact := Lookup(e, name + "_" + Dec(index));
    if exact.Just? then exact
    else
      var whole := Lookup(e, name);
      if whole.Just? then whole else FirstCovering(e, name, index)
  }

  // ---- arrays printed as runs ----

  /** `hi` is inclusive. */
  datatype Run = Run(lo: nat, hi: nat, value: Value)

  function Index(r: Run): string {
    if r.lo == r.hi then Dec(r.lo) else Dec(r.lo) + "-" + Dec(r.hi)
  }

  function Printed(name: string, rs: seq<Run>): Entry {
    if rs == [] then [] else [Matched(name, Just(Index(rs[0])), rs[0].value)] + Printed(name, rs[1..])
  }

  /** The runs cover the array from index `from` on, each with the value of all its elements. */
  predicate RunsOf(rs: seq<Run>, vs: seq<Value>, from: nat)
    decreases |rs|
  {
    if rs == [] then from == |vs|
    else
      && rs[0].lo == from && from <= rs[0].hi < |vs|
      && (forall i :: from <= i <= rs[0].hi ==> vs[i] == rs[0].value)
      && RunsOf(rs[1..], vs, rs[0].hi + 1)
  }

  /** A key that answers for this index of the array: the element itself, the whole array, or a run
      that covers the index. */
  predicate Answers(k: string, name: string, index: nat) {
    k == name || k == name + "_" + Dec(index) || Covers(k, name, index)
  }

  /** Nothing here answers for this index. */
  predicate Silent(e: Entry, name: string, index: nat) {
    forall i :: 0 <= i < |e| ==> !Answers(e[i].key, name, index)
  }

  /** The index stands alone in its run, and so is printed by itself. */
  predicate Alone(rs: seq<Run>, index: nat) {
    exists i :: 0 <= i < |rs| && rs[i].lo == rs[i].hi == index
  }

  /** The key a run is printed under names its span, and names one element only when it is one. */
  lemma RunKey(name: string, r: Run, index: nat)
    requires r.lo <= r.hi
    ensures var k := Matched(name, Just(Index(r)), r.value).key;
            && k != name
            && (k == name + "_" + Dec(index) <==> r.lo == r.hi == index)
            && (Covers(k, name, index) <==> r.lo < r.hi && r.lo <= index <= r.hi)
  {
    var k := Matched(name, Just(Index(r)), r.value).key;
    assert Index(r) != "";
    assert k == name + "_" + Index(r) && |k| > |name|;
    assert k[..|name| + 1] == name + "_" && k[|name| + 1..] == Index(r);
    var d := name + "_" + Dec(index);
    assert d[|name| + 1..] == Dec(index);
    if r.lo == r.hi {
      PartitionNone(Dec(r.lo), '-');
      DecInjective(r.lo, index);
    } else {
      PartitionAt(Dec(r.lo), '-', Dec(r.hi));
      ValDec(r.lo);
      ValDec(r.hi);
      assert Index(r)[|Dec(r.lo)|] == '-';
      assert '-' !in Dec(index);
    }
  }

  lemma AloneCons(r: Run, rs: seq<Run>, index: nat)
    ensures Alone([r] + rs, index) <==> r.lo == r.hi == index || Alone(rs, index)
  {
    var all := [r] + rs;
    if r.lo == r.hi == index { assert all[0] == r; }
    if Alone(rs, index) {
      var i :| 0 <= i < |rs| && rs[i].lo == rs[i].hi == index;
      assert all[i + 1] == rs[i];
    }
  }

  /** Runs that start behind the index say nothing about it. */
  lemma {:induction false} LaterRunsNotAlone(rs: seq<Run>, vs: seq<Value>, from: nat, index: nat)
    requires RunsOf(rs, vs, from) && index < from
    ensures !Alone(rs, index)
    decreases |rs|
  {
    if rs != [] {
      LaterRunsNotAlone(rs[1..], vs, rs[0].hi + 1, index);
      assert rs == [rs[0]] + rs[1..];
      AloneCons(rs[0], rs[1..], index);
    }
  }

  /** What the printed runs themselves answer, index by index. */
  lemma {:induction false} RunsAnswer(name: string, rs: seq<Run>, vs: seq<Value>, from: nat, index: nat)
    requires RunsOf(rs, vs, from)
    ensures from <= |vs|
    ensures Alone(rs, index) ==> from <= index < |vs|
    ensures var e := Printed(name, rs);
            && Lookup(e, name) == Nothing
            && Lookup(e, name + "_" + Dec(index)) == (if Alone(rs, index) then Just(vs[index]) else Nothing)
            && FirstCovering(e, name, index) ==
                 (if from <= index < |vs| && !Alone(rs, index) then Just(vs[index]) else Nothing)
    decreases |rs|
  {
    if rs != [] {
      var r := rs[0];
      var e := Printed(name, rs);
      assert e[0] == Matched(name, Just(Index(r)), r.value) && e[1..] == Printed(name, rs[1..]);
      RunKey(name, r, index);
      RunsAnswer(name, rs[1..], vs, r.hi + 1, index);
      assert rs == [r] + rs[1..];
      AloneCons(r, rs[1..], index);
      if index <= r.hi { LaterRunsNotAlone(rs[1..], vs, r.hi + 1, index); }
    }
  }

  lemma {:induction false} LookupConcat(a: Entry, b: Entry, k: string)
    ensures Lookup(a + b, k) == if Lookup(a, k).Just? then Lookup(a, k) else Lookup(b, k)
  {
    if a == [] {
      assert a + b == b;
    } else {
      assert (a + b)[1..] == a[1..] + b;
      LookupConcat(a[1..], b, k);
    }
  }

  lemma {:induction false} CoveringConcat(a: Entry, b: Entry, name: string, index: nat)
    ensures FirstCovering(a + b, name, index) ==
            if FirstCovering(a, name, index).Just? then FirstCovering(a, name, index)
            else FirstCovering(b, name, index)
  {
    if a == [] {
      assert a + b == b;
    } else {
      assert (a + b)[1..] == a[1..] + b;
      CoveringConcat(a[1..], b, name, index);
    }
  }

  lemma {:induction false} SilentNothing(e: Entry, name: string, index: nat)
    requires Silent(e, name, index)
    ensures Lookup(e, name) == Nothing && Lookup(e, name + "_" + Dec(index)) == Nothing
    ensures FirstCovering(e, name, index) == Nothing
  {
    if e != [] {
      assert !Answers(e[0].key, name, index);
      SilentNothing(e[1..], name, index);
    }
  }

  /** A part in front that is silent changes nothing. */
  lemma SilentFront(a: Entry, b: Entry, name: string, index: nat)
    requires Silent(a, name, index)
    ensures FieldAt(a + b, name, index) == FieldAt(b, name, index)
  {
    SilentNothing(a, name, index);
    LookupConcat(a, b, name);
    LookupConcat(a, b, name + "_" + Dec(index));
    CoveringConcat(a, b, name, index);
  }

  lemma SilentBack(a: Entry, b: Entry, name: string, index: nat)
    requires Silent(b, name, index)
    ensures FieldAt(a + b, name, index) == FieldAt(a, name, index)
  {
    SilentNothing(b, name, index);
    LookupConcat(a, b, name);
    LookupConcat(a, b, name + "_" + Dec(index));
    CoveringConcat(a, b, name, index);
  }

  function Element(vs: seq<Value>, index: nat): Maybe<Value> {
    if index < |vs| then Just(vs[index]) else Nothing
  }

  lemma RunsAlone(name: string, rs: seq<Run>, vs: seq<Value>, index: nat)
    requires RunsOf(rs, vs, 0)
    ensures FieldAt(Printed(name, rs), name, index) == Element(vs, index)
  {
    RunsAnswer(name, rs, vs, 0, index);
  }

  /** However an array was cut into runs of equal values, and whatever fields stand around it that do
      not answer for the index themselves, reading an index returns the original element, and past
      the end nothing. */
  lemma FieldAtExact(before: Entry, name: string, rs: seq<Run>, vs: seq<Value>, after: Entry, index: nat)
    requires RunsOf(rs, vs, 0) && Silent(before, name, index) && Silent(after, name, index)
    ensures FieldAt(before + Printed(name, rs) + after, name, index) == Element(vs, index)
  {
    SilentBack(before + Printed(name, rs), after, name, index);
    SilentFront(before, Printed(name, rs), name, index);
    RunsAlone(name, rs, vs, index);
  }

  /** One more field in front of the array: it is read instead of the element exactly when its key is
      the element's own, or the element does not stand alone and the key answers for it. */
  lemma FieldInFrontExactly(before: Entry, f: Field, name: string, rs: seq<Run>, vs: seq<Value>,
                            after: Entry, index: nat)
    requires RunsOf(rs, vs, 0) && Silent(before, name, index) && Silent(after, name, index)
    ensures FieldAt(before + ([f] + Printed(name, rs)) + after, name, index) ==
            if f.key == name + "_" + Dec(index) || (!Alone(rs, index) && Answers(f.key, name, index))
            then Just(f.value) else Element(vs, index)
  {
    var p := Printed(name, rs);
    SilentBack(before + ([f] + p), after, name, index);
    SilentFront(before, [f] + p, name, index);
    RunsAnswer(name, rs, vs, 0, index);
    assert ([f] + p)[1..] == p;
  }

  /** One more field behind the array: a run there only answers past the end. */
  lemma FieldBehindExactly(before: Entry, f: Field, name: string, rs: seq<Run>, vs: seq<Value>,
                           after: Entry, index: nat)
    requires RunsOf(rs, vs, 0) && Silent(before, name, index) && Silent(after, name, index)
    ensures FieldAt(before + (Printed(name, rs) + [f]) + after, name, index) ==
            if !Alone(rs, index) &&
               (f.key == name || f.key == name + "_" + Dec(index) || (index >= |vs| && Covers(f.key, name, index)))
            then Just(f.value) else Element(vs, index)
  {
    var p := Printed(name, rs);
    SilentBack(before + (p + [f]), after, name, index);
    SilentFront(before, p + [f], name, index);
    RunsAnswer(name, rs, vs, 0, index);
    LookupConcat(p, [f], name);
    LookupConcat(p, [f], name + "_" + Dec(index));
    CoveringConcat(p, [f], name, index);
    assert [f][1..] == [];
  }

  /** So one field with a different value spoils the reading exactly for these keys and indices. */
  lemma MisreadExactly(before: Entry, f: Field, name: string, rs: seq<Run>, vs: seq<Value>, after: Entry, index: nat)
    requires RunsOf(rs, vs, 0) && Silent(before, name, index) && Silent(after, name, index)
    requires Just(f.value) != Element(vs, index)
    ensures FieldAt(before + ([f] + Printed(name, rs)) + after, name, index) != Element(vs, index) <==>
            f.key == name + "_" + Dec(index) || (!Alone(rs, index) && Answers(f.key, name, index))
    ensures FieldAt(before + (Printed(name, rs) + [f]) + after, name, index) != Element(vs, index) <==>
            !Alone(rs, index) &&
            (f.key == name || f.key == name + "_" + Dec(index) || (index >= |vs| && Covers(f.key, name, index)))
  {
    FieldInFrontExactly(before, f, name, rs, vs, after, index);
    FieldBehindExactly(before, f, name, rs, vs, after, index);
  }

  /** A neighbour such as NAME_SIZE is silent at every index: its key is the name and a suffix that is
      no number and holds no dash. */
  lemma SuffixIsSilent(name: string, suffix: string, value: Value, index: nat)
    requires !Number(suffix) && '-' !in suffix
    ensures Silent([Matched(name + "_" + suffix, Nothing, value)], name, index)
  {
    var k := name + "_" + suffix;
    assert |k| > |name| && k[..|name| + 1] == name + "_" && k[|name| + 1..] == suffix;
    PartitionNone(suffix, '-');
    var d := name + "_" + Dec(index);
    assert d[|name| + 1..] == Dec(index);
  }

  /** A neighbour NAME_3 without an index is not: in front of the array or behind it, it answers for
      element 3 when that was printed within a longer run. */
  lemma UnderscoreShadows(before: Entry, name: string, rs: seq<Run>, vs: seq<Value>, after: Entry, index: nat,
                          v: Value)
    requires RunsOf(rs, vs, 0) && Silent(before, name, index) && Silent(after, name, index) && !Alone(rs, index)
    ensures var f := Matched(name + "_" + Dec(index), Nothing, v);
            && FieldAt(before + ([f] + Printed(name, rs)) + after, name, index) == Just(v)
            && FieldAt(before + (Printed(name, rs) + [f]) + after, name, index) == Just(v)
  {
    var f := Matched(name + "_" + Dec(index), Nothing, v);
    FieldInFrontExactly(before, f, name, rs, vs, after, index);
    FieldBehindExactly(before, f, name, rs, vs, after, index);
  }
}
