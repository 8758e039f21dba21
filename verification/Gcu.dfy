/** JSON paths and single-entry patches of CONFIG_DB (framework/gcu.py), against RFC 6901 and
    RFC 6902. */
module Gcu {
  import opened Text
  import opened Wrappers

  // ---- paths ----

  /** Every occurrence of one character replaced by a string. */
  function Replace(s: string, c: char, put: string): string {
    if s == "" then "" else (if s[0] == c then put else [s[0]]) + Replace(s[1..], c, put)
  }

  /** Every occurrence of a two-character string replaced by a character, from the left. */
  function ReplacePair(s: string, a: char, b: char, put: char): string {
    if s == "" then ""
    else if |s| >= 2 && s[0] == a && s[1] == b then [put] + ReplacePair(s[2..], a, b, put)
    else [s[0]] + ReplacePair(s[1..], a, b, put)
  }

  function Escape(t: string): string { Replace(Replace(t, '~', "~0"), '/', "~1") }

  /** Section 4 of RFC 6901: first every "~1", then every "~0". */
  function Unescape(s: string): string { ReplacePair(ReplacePair(s, '~', '1', '/'), '~', '0', '~') }

  function Path(tokens: seq<string>): string {
    if tokens == [] then "" else Path(tokens[..|tokens| - 1]) + "/" + Escape(tokens[|tokens| - 1])
  }

  function UnescapeAll(ss: seq<string>): (r: seq<string>)
    ensures |r| == |ss|
  {
    if ss == [] then [] else [Unescape(ss[0])] + UnescapeAll(ss[1..])
  }

  /** Sections 3 and 4 of RFC 6901: a path is empty or starts with a slash. */
  function Decode(p: string): Maybe<seq<string>> {
    if p == "" then Just([])
    else if p[0] != '/' then Nothing
    else Just(UnescapeAll(Split(p[1..], '/')))
  }

  lemma ReplaceCons(ch: char, s: string, c: char, put: string)
    ensures Replace([ch] + s, c, put) == (if ch == c then put else [ch]) + Replace(s, c, put)
  {
    assert ([ch] + s)[1..] == s;
  }

  lemma PairCons(x: char, y: char, s: string, a: char, b: char, put: char)
    ensures x == a && y == b ==> ReplacePair([x, y] + s, a, b, put) == [put] + ReplacePair(s, a, b, put)
    ensures !(x == a && y == b) ==> ReplacePair([x, y] + s, a, b, put) == [x] + ReplacePair([y] + s, a, b, put)
  {
    assert ([x, y] + s)[2..] == s && ([x, y] + s)[1..] == [y] + s;
  }

  lemma PairOther(x: char, s: string, a: char, b: char, put: char)
    requires x != a
    ensures ReplacePair([x] + s, a, b, put) == [x] + ReplacePair(s, a, b, put)
  {
    assert ([x] + s)[1..] == s;
  }

  /** The escape of a token one character longer. */
  lemma EscapeCons(c: char, t: string)
    ensures Escape([c] + t) == (if c == '~' then "~0" else if c == '/' then "~1" else [c]) + Escape(t)
  {
    ReplaceCons(c, t, '~', "~0");
    var inner := Replace(t, '~', "~0");
    if c == '~' {
      assert "~0" + inner == ['~'] + (['0'] + inner);
      ReplaceCons('~', ['0'] + inner, '/', "~1");
      ReplaceCons('0', inner, '/', "~1");
    } else {
      ReplaceCons(c, inner, '/', "~1");
    }
  }

  lemma UnescapeTilde(s: string)
    ensures Unescape("~0" + s) == "~" + Unescape(s)
  {
    var inner := ReplacePair(s, '~', '1', '/');
    assert "~0" + s == ['~', '0'] + s;
    PairCons('~', '0', s, '~', '1', '/');
    PairOther('0', s, '~', '1', '/');
    assert "~" + (['0'] + inner) == ['~', '0'] + inner;
    PairCons('~', '0', inner, '~', '0', '~');
  }

  lemma UnescapeSlash(s: string)
    ensures Unescape("~1" + s) == "/" + Unescape(s)
  {
    assert "~1" + s == ['~', '1'] + s;
    PairCons('~', '1', s, '~', '1', '/');
    PairOther('/', ReplacePair(s, '~', '1', '/'), '~', '0', '~');
  }

  lemma UnescapeOther(c: char, s: string)
    requires c != '~'
    ensures Unescape([c] + s) == [c] + Unescape(s)
  {
    PairOther(c, s, '~', '1', '/');
    PairOther(c, ReplacePair(s, '~', '1', '/'), '~', '0', '~');
  }

  /** The reverse on an escaped string one piece longer. */
  lemma UnescapeCons(c: char, s: string)
    ensures Unescape((if c == '~' then "~0" else if c == '/' then "~1" else [c]) + s) == [c] + Unescape(s)
  {
    if c == '~' {
      UnescapeTilde(s);
    } else if c == '/' {
      UnescapeSlash(s);
    } else {
      UnescapeOther(c, s);
    }
  }

  /** The two passes in the standard's order undo the two replacements, for every string. */
  lemma {:induction false} UnescapeEscape(t: string)
    ensures Unescape(Escape(t)) == t
  {
    if t != "" {
      assert t == [t[0]] + t[1..];
      EscapeCons(t[0], t[1..]);
      UnescapeCons(t[0], Escape(t[1..]));
      UnescapeEscape(t[1..]);
    }
  }

  /** Section 3 of RFC 6901: a tilde is followed by 0 or 1, and a slash only separates. */
  predicate ReferenceToken(s: string) {
    s == "" ||
    if s[0] == '~' then |s| >= 2 && (s[1] == '0' || s[1] == '1') && ReferenceToken(s[2..])
    else s[0] != '/' && ReferenceToken(s[1..])
  }

  lemma {:induction false} EscapeIsToken(t: string)
    ensures ReferenceToken(Escape(t))
  {
    if t != "" {
      assert t == [t[0]] + t[1..];
      EscapeCons(t[0], t[1..]);
      EscapeIsToken(t[1..]);
      var e := Escape(t[1..]);
      assert ("~0" + e)[2..] == e && ("~1" + e)[2..] == e && ([t[0]] + e)[1..] == e;
    }
  }

  /** On well-formed tokens decoding loses nothing: escaping restores the token. */
  lemma {:induction false} EscapeUnescape(s: string)
    requires ReferenceToken(s)
    ensures Escape(Unescape(s)) == s
    decreases |s|
  {
    if s == "" {
    } else if s[0] == '~' {
      var rest := s[2..];
      assert s == ['~', s[1]] + rest;
      EscapeUnescape(rest);
      var c := if s[1] == '0' then '~' else '/';
      UnescapeCons(c, rest);
      EscapeCons(c, Unescape(rest));
    } else {
      var rest := s[1..];
      assert s == [s[0]] + rest;
      EscapeUnescape(rest);
      UnescapeCons(s[0], rest);
      EscapeCons(s[0], Unescape(rest));
    }
  }

  lemma {:induction false} TokenHasNoSlash(s: string)
    requires ReferenceToken(s)
    ensures '/' !in s
    decreases |s|
  {
    if s != "" {
      var n := if s[0] == '~' then 2 else 1;
      TokenHasNoSlash(s[n..]);
      assert s == s[..n] + s[n..];
    }
  }

  lemma {:induction false} UnescapeAllAppend(ss: seq<string>, s: string)
    ensures UnescapeAll(ss + [s]) == UnescapeAll(ss) + [Unescape(s)]
  {
    if ss == [] {
      assert ss + [s] == [s];
    } else {
      assert (ss + [s])[1..] == ss[1..] + [s];
      UnescapeAllAppend(ss[1..], s);
    }
  }

  /** Decoding a built path returns the tokens, for all strings, with tildes and slashes in them. */
  lemma {:induction false} DecodePath(tokens: seq<string>)
    ensures Decode(Path(tokens)) == Just(tokens)
  {
    if tokens != [] {
      var n := |tokens| - 1;
      var init, last := Path(tokens[..n]), Escape(tokens[n]);
      DecodePath(tokens[..n]);
      EscapeIsToken(tokens[n]);
      TokenHasNoSlash(last);
      UnescapeEscape(tokens[n]);
      var p := Path(tokens);
      assert tokens == tokens[..n] + [tokens[n]];
      if n == 0 {
        assert p == "/" + last && p[1..] == last;
        SplitWhole(last, '/');
        assert p[0] == '/' && Split(p[1..], '/') == [last];
        assert [last][1..] == [];
        assert UnescapeAll([last]) == [tokens[0]];
      } else {
        assert init != "" by { assert tokens[..n] != []; }
        assert p[1..] == init[1..] + "/" + last;
        SplitAt(init[1..], '/', last);
        UnescapeAllAppend(Split(init[1..], '/'), last);
      }
    }
  }

  /** Different token lists have different paths. */
  lemma PathInjective(a: seq<string>, b: seq<string>)
    ensures Path(a) == Path(b) <==> a == b
  {
    DecodePath(a);
    DecodePath(b);
  }

  method BuildPath(tokens: seq<string>) returns (out: string)
    ensures out == Path(tokens)
  {
    out := "";
    for k := 0 to |tokens|
      invariant out == Path(tokens[..k])
    {
      assert tokens[..k + 1][..k] == tokens[..k];
      out := out + "/" + Escape(tokens[k]);
    }
    assert tokens[..|tokens|] == tokens;
  }

  // ---- documents and patches ----

  datatype Json = Leaf(text: string) | Obj(fields: map<string, Json>)

  /** Section 4.1 of RFC 6902 for objects: the parent must exist. */
  function AddAt(doc: Json, tokens: seq<string>, v: Json): Maybe<Json>
    decreases |tokens|
  {
    if tokens == [] then Just(v)
    else if doc.Leaf? then Nothing
    else if |tokens| == 1 then Just(Obj(doc.fields[tokens[0] := v]))
    else if tokens[0] !in doc.fields then Nothing
    else match AddAt(doc.fields[tokens[0]], tokens[1..], v)
      case Nothing => Nothing
      case Just(sub) => Just(Obj(doc.fields[tokens[0] := sub]))
  }

  /** Section 4.2 of RFC 6902: the target must exist. */
  function RemoveAt(doc: Json, tokens: seq<string>): Maybe<Json>
    decreases |tokens|
  {
    if tokens == [] || doc.Leaf? || tokens[0] !in doc.fields then Nothing
    else if |tokens| == 1 then Just(Obj(doc.fields - {tokens[0]}))
    else match RemoveAt(doc.fields[tokens[0]], tokens[1..])
      case Nothing => Nothing
      case Just(sub) => Just(Obj(doc.fields[tokens[0] := sub]))
  }

  datatype Patch = Add(path: string, value: Json) | Remove(path: string)

  function Apply(doc: Json, p: Patch): Maybe<Json> {
    match Decode(p.path)
    case Nothing => Nothing
    case Just(tokens) => if p.Add? then AddAt(doc, tokens, p.value) else RemoveAt(doc, tokens)
  }

  /** A CONFIG_DB document: tables of entries, none of them empty. */
  predicate Config(doc: Json) {
    && doc.Obj?
    && forall t :: t in doc.fields ==> doc.fields[t].Obj? && doc.fields[t].fields != map[]
  }

  function Keys(doc: Json, table: string): set<string>
    requires Config(doc)
  {
    if table in doc.fields then doc.fields[table].fields.Keys else {}
  }

  function Entry(doc: Json, table: string, key: string): Maybe<Json>
    requires Config(doc)
  {
    if key in Keys(doc, table) then Just(doc.fields[table].fields[key]) else Nothing
  }

  function AddEntry(doc: Json, table: string, key: string, v: Json): Patch
    requires Config(doc)
  {
    if Keys(doc, table) != {} then Add(Path([table, key]), v)
    else Add(Path([table]), Obj(map[key := v]))
  }

  function RemoveEntry(doc: Json, table: string, key: string): Patch
    requires Config(doc)
  {
    if |Keys(doc, table)| <= 1 then Remove(Path([table])) else Remove(Path([table, key]))
  }

  /** The same document but for one entry. */
  ghost predicate DiffersAt(doc: Json, doc': Json, table: string, key: string, now: Maybe<Json>)
    requires Config(doc) && Config(doc')
  {
    forall t, k :: Entry(doc', t, k) == if t == table && k == key then now else Entry(doc, t, k)
  }

  /** A document is its entries, as no table is empty. */
  lemma SameEntries(a: Json, b: Json)
    requires Config(a) && Config(b) && forall t, k :: Entry(a, t, k) == Entry(b, t, k)
    ensures a == b
  {
    forall t ensures t in a.fields <==> t in b.fields {
      HasEntry(a, t);
      HasEntry(b, t);
    }
    forall t | t in a.fields ensures a.fields[t] == b.fields[t] {
      var x, y := a.fields[t].fields, b.fields[t].fields;
      forall k ensures (k in x <==> k in y) && (k in x ==> x[k] == y[k]) {
        assert Entry(a, t, k) == Entry(b, t, k);
      }
      assert x == y;
    }
    assert a.fields == b.fields;
  }

  lemma HasEntry(a: Json, t: string)
    requires Config(a)
    ensures t in a.fields <==> exists k :: Entry(a, t, k) != Nothing
  {
    if t in a.fields {
      var k :| k in a.fields[t].fields;
      assert Entry(a, t, k) != Nothing;
    }
  }

  lemma AddTable(doc: Json, table: string, v: Json)
    ensures Apply(doc, Add(Path([table]), v)) ==
            if doc.Obj? then Just(Obj(doc.fields[table := v])) else Nothing
  {
    DecodePath([table]);
  }

  lemma AddKey(doc: Json, table: string, key: string, v: Json)
    requires doc.Obj? && table in doc.fields && doc.fields[table].Obj?
    ensures Apply(doc, Add(Path([table, key]), v)) ==
            Just(Obj(doc.fields[table := Obj(doc.fields[table].fields[key := v])]))
  {
    DecodePath([table, key]);
    assert [table, key][1..] == [key];
    assert AddAt(doc.fields[table], [key], v) == Just(Obj(doc.fields[table].fields[key := v]));
  }

  lemma RemoveTable(doc: Json, table: string)
    requires doc.Obj?
    ensures Apply(doc, Remove(Path([table]))) ==
            if table in doc.fields then Just(Obj(doc.fields - {table})) else Nothing
  {
    DecodePath([table]);
  }

  lemma RemoveKey(doc: Json, table: string, key: string)
    requires doc.Obj? && table in doc.fields && doc.fields[table].Obj?
    ensures Apply(doc, Remove(Path([table, key]))) ==
            if key in doc.fields[table].fields
            then Just(Obj(doc.fields[table := Obj(doc.fields[table].fields - {key})])) else Nothing
  {
    DecodePath([table, key]);
    assert [table, key][1..] == [key];
    if key in doc.fields[table].fields {
      assert RemoveAt(doc.fields[table], [key]) == Just(Obj(doc.fields[table].fields - {key}));
    } else {
      assert RemoveAt(doc.fields[table], [key]) == Nothing;
    }
  }

  /** Adding an entry always succeeds, sets that entry and changes nothing else, whatever characters
      its table and key hold, and leaves no table empty. */
  lemma AddEntryExact(doc: Json, table: string, key: string, v: Json)
    requires Config(doc)
    ensures var r := Apply(doc, AddEntry(doc, table, key, v));
            r.Just? && Config(r.value) && DiffersAt(doc, r.value, table, key, Just(v))
  {
    if Keys(doc, table) != {} {
      AddKey(doc, table, key, v);
      var t' := Obj(doc.fields[table].fields[key := v]);
      assert key in t'.fields;
    } else {
      assert table !in doc.fields;
      AddTable(doc, table, Obj(map[key := v]));
      var t' := Obj(map[key := v]);
      assert key in t'.fields;
    }
  }

  /** Removing a present entry removes it and nothing else, and leaves no table empty. */
  lemma RemovePresentExact(doc: Json, table: string, key: string)
    requires Config(doc) && key in Keys(doc, table)
    ensures var r := Apply(doc, RemoveEntry(doc, table, key));
            r.Just? && Config(r.value) && DiffersAt(doc, r.value, table, key, Nothing)
  {
    var ks := Keys(doc, table);
    if |ks| <= 1 {
      RemoveTable(doc, table);
      assert ks == {key} by { OneKey(ks, key); }
    } else {
      RemoveKey(doc, table, key);
      var t' := Obj(doc.fields[table].fields - {key});
      assert t'.fields.Keys == ks - {key};
      assert |ks - {key}| >= 1;
      assert t'.fields != map[];
    }
  }

  lemma OneKey(ks: set<string>, key: string)
    requires |ks| <= 1 && key in ks
    ensures ks == {key}
  {
    assert |ks - {key}| == |ks| - 1;
  }

  /** What removing an absent key does: a table with one other entry loses that entry; in every
      other case the patch is refused. */
  lemma RemoveAbsentExact(doc: Json, table: string, key: string)
    requires Config(doc) && key !in Keys(doc, table)
    ensures var r := Apply(doc, RemoveEntry(doc, table, key));
            && (r.Just? <==> |Keys(doc, table)| == 1)
            && (r.Just? ==> Config(r.value) && Keys(r.value, table) == {} && r.value != doc)
  {
    var ks := Keys(doc, table);
    if |ks| <= 1 {
      RemoveTable(doc, table);
      if table !in doc.fields { assert ks == {}; }
    } else {
      RemoveKey(doc, table, key);
    }
  }

  /** Removing an entry does what it says exactly when the entry is there or nothing is touched:
      it is wrong exactly on the absent key of a one-entry table. */
  lemma RemoveEntryRightExactly(doc: Json, table: string, key: string)
    requires Config(doc)
    ensures var r := Apply(doc, RemoveEntry(doc, table, key));
            (r.Just? ==> Config(r.value) && DiffersAt(doc, r.value, table, key, Nothing)) <==>
            !(key !in Keys(doc, table) && |Keys(doc, table)| == 1)
  {
    if key in Keys(doc, table) {
      RemovePresentExact(doc, table, key);
    } else {
      RemoveAbsentExact(doc, table, key);
      if |Keys(doc, table)| == 1 {
        var other :| other in Keys(doc, table);
        var r := Apply(doc, RemoveEntry(doc, table, key));
        assert Entry(r.value, table, other) == Nothing && Entry(doc, table, other) != Nothing;
      }
    }
  }

  /** Adding an entry and then removing it restores the document exactly when its key was fresh. */
  lemma RemoveUndoesAddExactly(doc: Json, table: string, key: string, v: Json)
    requires Config(doc)
    ensures var mid := Apply(doc, AddEntry(doc, table, key, v));
            && mid.Just? && Config(mid.value)
            && (Apply(mid.value, RemoveEntry(mid.value, table, key)) == Just(doc) <==> key !in Keys(doc, table))
  {
    AddEntryExact(doc, table, key, v);
    var mid := Apply(doc, AddEntry(doc, table, key, v)).value;
    assert Entry(mid, table, key) == Just(v);
    RemovePresentExact(mid, table, key);
    var end := Apply(mid, RemoveEntry(mid, table, key)).value;
    assert Entry(end, table, key) == Nothing;
    if key !in Keys(doc, table) {
      assert Entry(doc, table, key) == Nothing;
      SameEntries(end, doc);
    } else {
      assert Entry(doc, table, key) != Nothing;
    }
  }

  /** Removing an entry and adding it back restores the document. */
  lemma AddUndoesRemove(doc: Json, table: string, key: string)
    requires Config(doc) && key in Keys(doc, table)
    ensures var mid := Apply(doc, RemoveEntry(doc, table, key));
            && mid.Just? && Config(mid.value)
            && Apply(mid.value, AddEntry(mid.value, table, key, Entry(doc, table, key).value)) == Just(doc)
  {
    RemovePresentExact(doc, table, key);
    var v := Entry(doc, table, key).value;
    var mid := Apply(doc, RemoveEntry(doc, table, key)).value;
    AddEntryExact(mid, table, key, v);
    var end := Apply(mid, AddEntry(mid, table, key, v)).value;
    SameEntries(end, doc);
  }
}
