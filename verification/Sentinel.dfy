/** The contamination log (framework/sentinel.py) and its analyser (tools/analyze_sentinel.py).

    After every test the sentinel compares the configuration keys with a baseline that rolls
    forward, and appends what changed to a log.  The analyser sees only the log. */
module Sentinel {
  import opened Wrappers

  type Key = string
  type Node = string

  /** What is looked at after a test. */
  datatype Snap = Snap(cfg: set<Key>, fdb: int, neigh: int, watched: map<Key, string>)

  /** One line of the log. */
  datatype Line =
    | Baseline(keys: nat, fdb: int, neigh: int)
    | Change(node: Node, added: seq<Key>, removed: seq<Key>, dfdb: int, dneigh: int,
             fields: map<Key, (string, string)>)
    | Heal(node: Node, ports: seq<string>)

  /** What happens in a session: a test has run and this is the state it left, or the self-heal
      guard has restored some ports. */
  datatype Event = Ran(node: Node, snap: Snap) | Healed(node: Node, ports: seq<string>)

  const FDB_DELTA := 4
  const NEIGH_DELTA := 4

  /** The keys of a set, each once, in some order. */
  predicate Lists(ks: seq<Key>, s: set<Key>) {
    && (forall k :: k in ks ==> k in s)
    && (forall k :: k in s ==> k in ks)
    && (forall i, j :: 0 <= i < j < |ks| ==> ks[i] != ks[j])
  }

  // ---- the session, independently of any log ----

  /** The configuration keys at the end of a session. */
  function Now(base: Snap, ev: seq<Event>): set<Key>
    decreases |ev|
  {
    if ev == [] then base.cfg
    else var n := |ev| - 1; if ev[n].Ran? then ev[n].snap.cfg else Now(base, ev[..n])
  }

  function Watched(base: Snap, ev: seq<Event>): map<Key, string>
    decreases |ev|
  {
    if ev == [] then base.watched
    else var n := |ev| - 1; if ev[n].Ran? then ev[n].snap.watched else Watched(base, ev[..n])
  }

  /** Event `i` made the key appear, or made it disappear. */
  predicate Appears(base: Snap, ev: seq<Event>, i: nat, k: Key) {
    i < |ev| && k !in Now(base, ev[..i]) && k in Now(base, ev[..i + 1])
  }

  predicate Disappears(base: Snap, ev: seq<Event>, i: nat, k: Key) {
    i < |ev| && k in Now(base, ev[..i]) && k !in Now(base, ev[..i + 1])
  }

  ghost predicate Flipped(base: Snap, ev: seq<Event>, k: Key) {
    exists i: nat :: Appears(base, ev, i, k) || Disappears(base, ev, i, k)
  }

  /** The test at the last appearance of the key. */
  function Creator(base: Snap, ev: seq<Event>, k: Key): Maybe<Node>
    decreases |ev|
  {
    if ev == [] then Nothing
    else
      var n := |ev| - 1;
      if ev[n].Ran? && k in ev[n].snap.cfg && k !in Now(base, ev[..n]) then Just(ev[n].node)
      else Creator(base, ev[..n], k)
  }

  function Appearances(base: Snap, ev: seq<Event>): nat
    decreases |ev|
  {
    if ev == [] then 0
    else var n := |ev| - 1; |Now(base, ev) - Now(base, ev[..n])| + Appearances(base, ev[..n])
  }

  function Disappearances(base: Snap, ev: seq<Event>): nat
    decreases |ev|
  {
    if ev == [] then 0
    else var n := |ev| - 1; |Now(base, ev[..n]) - Now(base, ev)| + Disappearances(base, ev[..n])
  }

  ghost predicate LastAppearance(base: Snap, ev: seq<Event>, i: nat, k: Key, node: Node) {
    && Appears(base, ev, i, k) && ev[i].Ran? && ev[i].node == node
    && forall j: nat :: Appears(base, ev, j, k) ==> j <= i
  }

  lemma FlipsOfPrefix(base: Snap, ev: seq<Event>, n: nat, j: nat, k: Key)
    requires j < n <= |ev|
    ensures Appears(base, ev, j, k) <==> Appears(base, ev[..n], j, k)
    ensures Disappears(base, ev, j, k) <==> Disappears(base, ev[..n], j, k)
  {
    assert ev[..n][..j] == ev[..j] && ev[..n][..j + 1] == ev[..j + 1];
  }

  /** `Creator` names the last appearance, and nothing else. */
  lemma {:induction false} CreatorIsLastAppearance(base: Snap, ev: seq<Event>, k: Key)
    ensures Creator(base, ev, k).Nothing? ==> forall j: nat :: !Appears(base, ev, j, k)
    ensures Creator(base, ev, k).Just? ==>
              exists i: nat :: LastAppearance(base, ev, i, k, Creator(base, ev, k).value)
    decreases |ev|
  {
    if ev == [] { return; }
    var n := |ev| - 1;
    assert ev[..n + 1] == ev;
    forall j: nat | j < n ensures Appears(base, ev, j, k) <==> Appears(base, ev[..n], j, k) {
      FlipsOfPrefix(base, ev, n, j, k);
    }
    CreatorIsLastAppearance(base, ev[..n], k);
    if Appears(base, ev, n, k) {
      assert LastAppearance(base, ev, n, k, ev[n].node);
    } else if Creator(base, ev[..n], k).Just? {
      var i: nat :| LastAppearance(base, ev[..n], i, k, Creator(base, ev[..n], k).value);
      assert i < n && ev[..n][i] == ev[i];
      assert LastAppearance(base, ev, i, k, Creator(base, ev, k).value);
    }
  }

  lemma FlippedBefore(base: Snap, ev: seq<Event>, k: Key)
    requires ev != [] && Flipped(base, ev[..|ev| - 1], k)
    ensures Flipped(base, ev, k)
  {
    var n := |ev| - 1;
    var i: nat :| Appears(base, ev[..n], i, k) || Disappears(base, ev[..n], i, k);
    FlipsOfPrefix(base, ev, n, i, k);
    assert Appears(base, ev, i, k) || Disappears(base, ev, i, k);
  }

  lemma FlippedLast(base: Snap, ev: seq<Event>, k: Key)
    requires ev != []
    ensures var n := |ev| - 1;
            Appears(base, ev, n, k) || Disappears(base, ev, n, k) <==>
            ((k in Now(base, ev[..n])) != (k in Now(base, ev)))
  {
    assert ev[..|ev|] == ev;
  }

  lemma FlippedThen(base: Snap, ev: seq<Event>, k: Key, i: nat)
    requires ev != [] && (Appears(base, ev, i, k) || Disappears(base, ev, i, k)) && i < |ev| - 1
    ensures Flipped(base, ev[..|ev| - 1], k)
  {
    FlipsOfPrefix(base, ev, |ev| - 1, i, k);
    assert Appears(base, ev[..|ev| - 1], i, k) || Disappears(base, ev[..|ev| - 1], i, k);
  }

  lemma FlippedNow(base: Snap, ev: seq<Event>, k: Key)
    requires ev != [] && Flipped(base, ev, k) && !Flipped(base, ev[..|ev| - 1], k)
    ensures (k in Now(base, ev[..|ev| - 1])) != (k in Now(base, ev))
  {
    var i: nat :| Appears(base, ev, i, k) || Disappears(base, ev, i, k);
    if i < |ev| - 1 {
      FlippedThen(base, ev, k, i);
    } else {
      FlippedLast(base, ev, k);
    }
  }

  lemma FlippedStep(base: Snap, ev: seq<Event>, k: Key)
    requires ev != []
    ensures var n := |ev| - 1;
            Flipped(base, ev, k) <==>
            Flipped(base, ev[..n], k) || ((k in Now(base, ev[..n])) != (k in Now(base, ev)))
  {
    var n := |ev| - 1;
    if Flipped(base, ev[..n], k) {
      FlippedBefore(base, ev, k);
    } else if Flipped(base, ev, k) {
      FlippedNow(base, ev, k);
    } else {
      FlippedLast(base, ev, k);
    }
  }

  // ---- the log of a session ----

  /** Watched keys whose content differs from what it was; a key not watched before counts as
      unchanged. */
  function ChangedFields(prev: map<Key, string>, cur: map<Key, string>): map<Key, (string, string)> {
    map k | k in cur && k in prev && prev[k] != cur[k] :: (prev[k], cur[k])
  }

  predicate Dirty(base: Snap, ev: seq<Event>, s: Snap) {
    || s.cfg != Now(base, ev)
    || s.fdb - base.fdb > FDB_DELTA || s.neigh - base.neigh > NEIGH_DELTA
    || ChangedFields(Watched(base, ev), s.watched) != map[]
  }

  /** The line says what the test changed since the previous one. */
  predicate Describes(base: Snap, ev: seq<Event>, e: Event, l: Line) {
    && e.Ran? && l.Change? && l.node == e.node
    && Lists(l.added, e.snap.cfg - Now(base, ev)) && Lists(l.removed, Now(base, ev) - e.snap.cfg)
    && l.dfdb == e.snap.fdb - base.fdb && l.dneigh == e.snap.neigh - base.neigh
    && l.fields == ChangedFields(Watched(base, ev), e.snap.watched)
  }

  predicate LogOf(base: Snap, ev: seq<Event>, log: seq<Line>)
    decreases |ev|
  {
    if ev == [] then log == [Baseline(|base.cfg|, base.fdb, base.neigh)]
    else
      var n := |ev| - 1;
      match ev[n]
      case Healed(node, ports) =>
        log != [] && log[|log| - 1] == Heal(node, ports) && LogOf(base, ev[..n], log[..|log| - 1])
      case Ran(_, s) =>
        if Dirty(base, ev[..n], s) then
          log != [] && Describes(base, ev[..n], ev[n], log[|log| - 1]) && LogOf(base, ev[..n], log[..|log| - 1])
        else LogOf(base, ev[..n], log)
  }

  // ---- the analyser ----

  /** The part of a test identifier before the first "::". */
  function Mod(node: Node): string {
    if |node| < 2 then node
    else if node[0] == ':' && node[1] == ':' then ""
    else [node[0]] + Mod(node[1..])
  }

  lemma {:induction false} ModOfTest(file: string, test: string)
    requires ':' !in file
    ensures Mod(file + "::" + test) == file
  {
    var node := file + "::" + test;
    if file != "" {
      assert node[0] == file[0] && node[0] in file;
      assert node[1..] == file[1..] + "::" + test;
      ModOfTest(file[1..], test);
    }
  }

  /** A removed key, the test that had added it, and the test that removed it. */
  datatype Row = Row(key: Key, creator: Maybe<Node>, remover: Node)

  datatype Analysis = Analysis(out: map<Key, Node>, cross: seq<Row>, benign: seq<Row>,
                               storms: seq<(Node, int, int)>)

  predicate SameModule(r: Row) {
    r.creator.Just? && Mod(r.creator.value) == Mod(r.remover)
  }

  function RemoveOne(a: Analysis, k: Key, node: Node): Analysis {
    var row := Row(k, if k in a.out then Just(a.out[k]) else Nothing, node);
    Analysis(a.out - {k},
             if SameModule(row) then a.cross else a.cross + [row],
             if SameModule(row) then a.benign + [row] else a.benign,
             a.storms)
  }

  function RemoveAll(a: Analysis, ks: seq<Key>, node: Node): Analysis {
    if ks == [] then a
    else var n := |ks| - 1; RemoveOne(RemoveAll(a, ks[..n], node), ks[n], node)
  }

  function AddAll(a: Analysis, ks: seq<Key>, node: Node): Analysis {
    a.(out := a.out + map k | k in ks :: node)
  }

  function AnalyseLine(a: Analysis, l: Line): Analysis {
    match l
    case Baseline(_, _, _) => a
    case Heal(_, _) => a
    case Change(node, added, removed, dfdb, dneigh, _) =>
      var b := RemoveAll(AddAll(a, added, node), removed, node);
      if dfdb > 4 || dneigh > 4 then b.(storms := b.storms + [(node, dfdb, dneigh)]) else b
  }

  function Analyse(log: seq<Line>): Analysis {
    if log == [] then Analysis(map[], [], [], [])
    else var n := |log| - 1; AnalyseLine(Analyse(log[..n]), log[n])
  }

  /** Rows of keys that were not seen being added. */
  function BaselineRows(rows: seq<Row>, k: Key): nat {
    if rows == [] then 0
    else var n := |rows| - 1;
      (if rows[n].key == k && rows[n].creator.Nothing? then 1 else 0) + BaselineRows(rows[..n], k)
  }

  function Attributed(rows: seq<Row>): nat {
    if rows == [] then 0
    else var n := |rows| - 1; (if rows[n].creator.Just? then 1 else 0) + Attributed(rows[..n])
  }

  predicate Distinct(ks: seq<Key>) {
    forall i, j :: 0 <= i < j < |ks| ==> ks[i] != ks[j]
  }

  lemma DistinctInit(ks: seq<Key>)
    requires ks != [] && Distinct(ks)
    ensures Distinct(ks[..|ks| - 1]) && ks[|ks| - 1] !in ks[..|ks| - 1]
    ensures forall k :: k in ks <==> k in ks[..|ks| - 1] || k == ks[|ks| - 1]
  {
    assert ks == ks[..|ks| - 1] + [ks[|ks| - 1]];
  }

  function KeySet(ks: seq<Key>): set<Key> {
    set k | k in ks
  }

  lemma RemoveInit(out: map<Key, Node>, ks: seq<Key>)
    requires ks != []
    ensures out - KeySet(ks[..|ks| - 1]) - {ks[|ks| - 1]} == out - KeySet(ks)
  {
    assert ks == ks[..|ks| - 1] + [ks[|ks| - 1]];
    assert KeySet(ks) == KeySet(ks[..|ks| - 1]) + {ks[|ks| - 1]};
  }

  lemma {:induction false} RemoveAllOut(a: Analysis, ks: seq<Key>, node: Node)
    ensures RemoveAll(a, ks, node).out == a.out - KeySet(ks)
    ensures RemoveAll(a, ks, node).storms == a.storms
  {
    if ks == [] {
      assert a.out - KeySet(ks) == a.out;
    } else {
      RemoveAllOut(a, ks[..|ks| - 1], node);
      RemoveInit(a.out, ks);
    }
  }

  /** What a sequence of removals conserves. */
  lemma {:induction false} RemoveAllConserves(a: Analysis, ks: seq<Key>, node: Node)
    ensures var b := RemoveAll(a, ks, node);
            && |b.benign| + |b.cross| == |a.benign| + |a.cross| + |ks|
            && |b.benign| + Attributed(b.cross) + |b.out| == |a.benign| + Attributed(a.cross) + |a.out|
  {
    if ks != [] {
      RemoveAllConserves(a, ks[..|ks| - 1], node);
      RemoveOneConserves(RemoveAll(a, ks[..|ks| - 1], node), ks[|ks| - 1], node);
    }
  }

  lemma RemoveOneConserves(c: Analysis, k: Key, node: Node)
    ensures var b := RemoveOne(c, k, node);
            && b.out == c.out - {k} && b.storms == c.storms
            && |b.benign| + |b.cross| == |c.benign| + |c.cross| + 1
            && |b.benign| + Attributed(b.cross) + |b.out| == |c.benign| + Attributed(c.cross) + |c.out|
  {
    var row := Row(k, if k in c.out then Just(c.out[k]) else Nothing, node);
    assert (c.cross + [row])[..|c.cross|] == c.cross;
    var b := RemoveOne(c, k, node);
    if k in c.out {
      assert b.out.Keys == c.out.Keys - {k};
      assert |b.out.Keys| == |c.out.Keys| - 1;
    } else {
      assert b.out == c.out;
    }
  }

  /** The rows a sequence of removals adds. */
  predicate Removal(a: Analysis, ks: seq<Key>, node: Node, r: Row) {
    r.key in ks && r.remover == node
    && r.creator == if r.key in a.out then Just(a.out[r.key]) else Nothing
  }

  lemma {:induction false} RemoveAllRows(a: Analysis, ks: seq<Key>, node: Node, r: Row)
    requires Distinct(ks)
    ensures r in RemoveAll(a, ks, node).benign <==> r in a.benign || (Removal(a, ks, node, r) && SameModule(r))
    ensures r in RemoveAll(a, ks, node).cross <==> r in a.cross || (Removal(a, ks, node, r) && !SameModule(r))
  {
    if ks != [] {
      var init, k := ks[..|ks| - 1], ks[|ks| - 1];
      DistinctInit(ks);
      RemoveAllRows(a, init, node, r);
      RemoveAllOut(a, init, node);
      var c := RemoveAll(a, init, node);
      assert k in c.out <==> k in a.out;
      var row := Row(k, if k in a.out then Just(a.out[k]) else Nothing, node);
      assert Removal(a, ks, node, r) <==> Removal(a, init, node, r) || r == row;
      assert r in c.benign + [row] <==> r in c.benign || r == row;
      assert r in c.cross + [row] <==> r in c.cross || r == row;
    }
  }

  lemma RemoveOneBaseline(c: Analysis, j: Key, node: Node, k: Key)
    ensures BaselineRows(RemoveOne(c, j, node).cross, k) ==
              BaselineRows(c.cross, k) + if j == k && k !in c.out then 1 else 0
  {
    var row := Row(j, if j in c.out then Just(c.out[j]) else Nothing, node);
    assert (c.cross + [row])[..|c.cross|] == c.cross;
  }

  lemma {:induction false} RemoveAllBaseline(a: Analysis, ks: seq<Key>, node: Node, k: Key)
    requires Distinct(ks)
    ensures BaselineRows(RemoveAll(a, ks, node).cross, k) ==
              BaselineRows(a.cross, k) + if k in ks && k !in a.out then 1 else 0
  {
    if ks != [] {
      var n := |ks| - 1;
      DistinctInit(ks);
      RemoveAllBaseline(a, ks[..n], node, k);
      RemoveAllOut(a, ks[..n], node);
      var c := RemoveAll(a, ks[..n], node);
      assert ks[n] in c.out <==> ks[n] in a.out;
      RemoveOneBaseline(c, ks[n], node, k);
    }
  }

  // ---- what the analysis of a log means ----

  /** The log of a session read back: what the last event added to it. */
  lemma LogStep(base: Snap, ev: seq<Event>, log: seq<Line>) returns (before: seq<Line>)
    requires ev != [] && LogOf(base, ev, log)
    ensures LogOf(base, ev[..|ev| - 1], before)
    ensures before == log ||
            (log != [] && before == log[..|log| - 1] && Analyse(log) == AnalyseLine(Analyse(before), log[|log| - 1]))
    ensures before == log ==> Now(base, ev) == Now(base, ev[..|ev| - 1])
    ensures before == log ==> ev[|ev| - 1].Ran? && !Dirty(base, ev[..|ev| - 1], ev[|ev| - 1].snap)
    ensures before != log ==>
              || (log[|log| - 1].Heal? && ev[|ev| - 1].Healed?)
              || Describes(base, ev[..|ev| - 1], ev[|ev| - 1], log[|log| - 1])
  {
    var n := |ev| - 1;
    if ev[n].Ran? && !Dirty(base, ev[..n], ev[n].snap) {
      before := log;
    } else {
      before := log[..|log| - 1];
    }
  }

  lemma LineOut(a: Analysis, l: Line, k: Key)
    requires l.Change?
    ensures k in AnalyseLine(a, l).out <==> (k in l.added || k in a.out) && k !in l.removed
    ensures k in AnalyseLine(a, l).out ==>
              AnalyseLine(a, l).out[k] == if k in l.added then l.node else a.out[k]
  {
    RemoveAllOut(AddAll(a, l.added, l.node), l.removed, l.node);
  }

  lemma LineBaseline(a: Analysis, l: Line, k: Key)
    requires l.Change? && Distinct(l.removed)
    ensures BaselineRows(AnalyseLine(a, l).cross, k) ==
              BaselineRows(a.cross, k) + if k in l.removed && k !in l.added && k !in a.out then 1 else 0
  {
    RemoveAllBaseline(AddAll(a, l.added, l.node), l.removed, l.node, k);
  }

  /** The outstanding keys of the analysis of a log are the keys that are there and were not there
      all along, each with the test that last made it appear. */
  lemma {:induction false} OutstandingExactly(base: Snap, ev: seq<Event>, log: seq<Line>, k: Key)
    requires LogOf(base, ev, log)
    ensures k in Analyse(log).out <==> k in Now(base, ev) && Flipped(base, ev, k)
    ensures k in Analyse(log).out ==> Creator(base, ev, k) == Just(Analyse(log).out[k])
    decreases |ev|
  {
    if ev == [] {
      assert log[..0] == [];
      assert Analyse(log).out == map[];
    } else {
      var n := |ev| - 1;
      var before := LogStep(base, ev, log);
      OutstandingExactly(base, ev[..n], before, k);
      FlippedStep(base, ev, k);
      if before != log && log[|log| - 1].Change? {
        var l := log[|log| - 1];
        var a := Analyse(before);
        LineOut(a, l, k);
        assert k in l.added <==> k in Now(base, ev) - Now(base, ev[..n]);
        assert k in l.removed <==> k in Now(base, ev[..n]) - Now(base, ev);
      }
    }
  }

  /** The leak report is exact: for every session and every log of it, a key is reported as a true
      leak if and only if it is present at the end and changed at least once, which every key
      does that was not there at the start; it is blamed on the test at its last appearance. */
  lemma LeakReportExact(base: Snap, ev: seq<Event>, log: seq<Line>, k: Key)
    requires LogOf(base, ev, log)
    ensures k in Analyse(log).out <==> k in Now(base, ev) && Flipped(base, ev, k)
    ensures k in Now(base, ev) - base.cfg ==> k in Analyse(log).out
    ensures k in Analyse(log).out ==>
              exists i: nat :: LastAppearance(base, ev, i, k, Analyse(log).out[k])
  {
    OutstandingExactly(base, ev, log, k);
    if k in Analyse(log).out {
      CreatorIsLastAppearance(base, ev, k);
    } else if k in Now(base, ev) {
      UnflippedStays(base, ev, k);
    }
  }

  lemma {:induction false} UnflippedStays(base: Snap, ev: seq<Event>, k: Key)
    requires !Flipped(base, ev, k)
    ensures k in Now(base, ev) <==> k in base.cfg
    decreases |ev|
  {
    if ev != [] {
      FlippedStep(base, ev, k);
      UnflippedStays(base, ev[..|ev| - 1], k);
    }
  }

  // ---- conservation ----

  lemma {:induction false} ListsLength(ks: seq<Key>, s: set<Key>)
    requires Lists(ks, s)
    ensures |ks| == |s|
    decreases |ks|
  {
    if ks == [] {
      assert s == {};
    } else {
      var init, k := ks[..|ks| - 1], ks[|ks| - 1];
      DistinctInit(ks);
      assert k in s;
      assert Lists(init, s - {k});
      ListsLength(init, s - {k});
    }
  }

  lemma AddAllSize(out: map<Key, Node>, ks: seq<Key>, s: set<Key>, node: Node)
    requires Lists(ks, s) && s !! out.Keys
    ensures |out + map k | k in ks :: node| == |out| + |s|
  {
    var m := map k | k in ks :: node;
    assert m.Keys == s;
    assert (out + m).Keys == out.Keys + s;
    assert |out.Keys + s| == |out.Keys| + |s|;
  }

  /** Storms aside, a line adds and then removes. */
  lemma LineParts(a: Analysis, l: Line)
    requires l.Change?
    ensures var b, c := AnalyseLine(a, l), RemoveAll(AddAll(a, l.added, l.node), l.removed, l.node);
            b.out == c.out && b.cross == c.cross && b.benign == c.benign
  {
  }

  lemma LineConserves(a: Analysis, l: Line, added: set<Key>, removed: set<Key>)
    requires l.Change? && Lists(l.added, added) && Lists(l.removed, removed) && added !! a.out.Keys
    ensures var b := AnalyseLine(a, l);
            && |b.benign| + Attributed(b.cross) + |b.out| == |a.benign| + Attributed(a.cross) + |a.out| + |added|
            && |b.benign| + |b.cross| == |a.benign| + |a.cross| + |removed|
  {
    ListsLength(l.removed, removed);
    AddAllSize(a.out, l.added, added, l.node);
    RemoveAllConserves(AddAll(a, l.added, l.node), l.removed, l.node);
    LineParts(a, l);
  }

  /** The counts add up over the whole session: every appearance of a key is accounted for by
      exactly one benign row, one cross-module row or one true leak, and every disappearance by
      exactly one row. */
  lemma {:induction false} LogConservation(base: Snap, ev: seq<Event>, log: seq<Line>)
    requires LogOf(base, ev, log)
    ensures var a := Analyse(log);
            && Appearances(base, ev) == |a.benign| + Attributed(a.cross) + |a.out|
            && Disappearances(base, ev) == |a.benign| + |a.cross|
    decreases |ev|
  {
    if ev == [] {
      assert log[..0] == [];
      assert Analyse(log) == Analysis(map[], [], [], []);
    } else {
      var n := |ev| - 1;
      var before := LogStep(base, ev, log);
      LogConservation(base, ev[..n], before);
      if before == log || !log[|log| - 1].Change? {
        assert Now(base, ev) - Now(base, ev[..n]) == {} == Now(base, ev[..n]) - Now(base, ev);
      } else {
        var a := Analyse(before);
        forall k | k in Now(base, ev) - Now(base, ev[..n]) ensures k !in a.out {
          OutstandingExactly(base, ev[..n], before, k);
        }
        LineConserves(a, log[|log| - 1], Now(base, ev) - Now(base, ev[..n]), Now(base, ev[..n]) - Now(base, ev));
      }
    }
  }

  /** A key is reported as removed from the baseline once if it was in the baseline and has
      changed at all, and never otherwise. */
  lemma {:induction false} BaselineRemovalsExact(base: Snap, ev: seq<Event>, log: seq<Line>, k: Key)
    requires LogOf(base, ev, log)
    ensures BaselineRows(Analyse(log).cross, k) == if k in base.cfg && Flipped(base, ev, k) then 1 else 0
    decreases |ev|
  {
    if ev == [] {
      assert log[..0] == [];
      assert Analyse(log) == Analysis(map[], [], [], []);
    } else {
      var n := |ev| - 1;
      var before := LogStep(base, ev, log);
      BaselineRemovalsExact(base, ev[..n], before, k);
      FlippedStep(base, ev, k);
      OutstandingExactly(base, ev[..n], before, k);
      if !Flipped(base, ev[..n], k) { UnflippedStays(base, ev[..n], k); }
      if before != log && log[|log| - 1].Change? {
        var l := log[|log| - 1];
        assert k in l.added <==> k in Now(base, ev) - Now(base, ev[..n]);
        assert k in l.removed <==> k in Now(base, ev[..n]) - Now(base, ev);
        LineBaseline(Analyse(before), l, k);
      }
    }
  }

  /** A disappearance at event `i`, with the test that had made the key appear. */
  predicate RowOf(base: Snap, ev: seq<Event>, i: nat, r: Row) {
    && Disappears(base, ev, i, r.key) && ev[i].Ran? && ev[i].node == r.remover
    && r.creator == Creator(base, ev[..i], r.key)
  }

  ghost predicate HasRow(base: Snap, ev: seq<Event>, r: Row) {
    exists i: nat :: RowOf(base, ev, i, r)
  }

  lemma HasRowStep(base: Snap, ev: seq<Event>, r: Row)
    requires ev != []
    ensures HasRow(base, ev, r) <==> HasRow(base, ev[..|ev| - 1], r) || RowOf(base, ev, |ev| - 1, r)
  {
    var n := |ev| - 1;
    forall j: nat | j < n ensures RowOf(base, ev, j, r) <==> RowOf(base, ev[..n], j, r) {
      FlipsOfPrefix(base, ev, n, j, r.key);
      assert ev[..n][..j] == ev[..j];
    }
    if HasRow(base, ev[..n], r) {
      var i: nat :| RowOf(base, ev[..n], i, r);
      assert RowOf(base, ev, i, r);
    }
  }

  /** The rows are exact: a row is reported as benign if and only if at some event that test made
      the key disappear, the key had last been made to appear by that creator, and both tests
      are in the same module; it is reported as crossing in all other disappearances, with no
      creator when the key had never appeared before. */
  lemma {:induction false} RowsExact(base: Snap, ev: seq<Event>, log: seq<Line>, r: Row)
    requires LogOf(base, ev, log)
    ensures r in Analyse(log).benign <==>
              HasRow(base, ev, r) && r.creator.Just? && Mod(r.creator.value) == Mod(r.remover)
    ensures r in Analyse(log).cross <==>
              HasRow(base, ev, r) && (r.creator.Just? ==> Mod(r.creator.value) != Mod(r.remover))
    decreases |ev|
  {
    if ev == [] {
      assert log[..0] == [];
      assert Analyse(log) == Analysis(map[], [], [], []);
    } else {
      var n := |ev| - 1;
      assert ev[..n + 1] == ev;
      var before := LogStep(base, ev, log);
      RowsExact(base, ev[..n], before, r);
      HasRowStep(base, ev, r);
      if before != log && log[|log| - 1].Change? {
        var l := log[|log| - 1];
        var a := Analyse(before);
        RemoveAllRows(AddAll(a, l.added, l.node), l.removed, l.node, r);
        RowAtEnd(base, ev, before, l, r);
      }
    }
  }

  /** The second list continues the first in every table. */
  predicate Continues(a: Analysis, b: Analysis) {
    a.cross <= b.cross && a.benign <= b.benign && a.storms <= b.storms
  }

  lemma ContinuesTrans(a: Analysis, b: Analysis, c: Analysis)
    requires Continues(a, b) && Continues(b, c)
    ensures Continues(a, c)
  {
  }

  lemma {:induction false} RemovalsContinue(a: Analysis, ks: seq<Key>, j: nat, node: Node)
    requires j <= |ks|
    ensures Continues(RemoveAll(a, ks[..j], node), RemoveAll(a, ks, node))
    decreases |ks|
  {
    if j == |ks| {
      assert ks[..j] == ks;
    } else {
      var n := |ks| - 1;
      assert ks[..n][..j] == ks[..j];
      RemovalsContinue(a, ks[..n], j, node);
      ContinuesTrans(RemoveAll(a, ks[..j], node), RemoveAll(a, ks[..n], node), RemoveAll(a, ks, node));
    }
  }

  /** Rows and storms come in the order of the log, and within a record in the order of its removals. */
  lemma {:induction false} RowsInOrder(log: seq<Line>, i: nat)
    requires i <= |log|
    ensures Continues(Analyse(log[..i]), Analyse(log))
    ensures i < |log| && log[i].Change? ==>
              var a := AddAll(Analyse(log[..i]), log[i].added, log[i].node);
              forall j: nat :: j <= |log[i].removed| ==>
                Continues(RemoveAll(a, log[i].removed[..j], log[i].node), Analyse(log))
    decreases |log|
  {
    if i == |log| {
      assert log[..i] == log;
    } else {
      var n := |log| - 1;
      var a := Analyse(log[..n]);
      if i < n {
        assert log[..n][..i] == log[..i] && log[..n][i] == log[i];
        RowsInOrder(log[..n], i);
      }
      LineContinues(a, log[n]);
    }
  }

  lemma LineContinues(a: Analysis, l: Line)
    ensures Continues(a, AnalyseLine(a, l))
    ensures l.Change? ==>
              forall j: nat :: j <= |l.removed| ==>
                Continues(RemoveAll(AddAll(a, l.added, l.node), l.removed[..j], l.node), AnalyseLine(a, l))
  {
    if l.Change? {
      var b := AddAll(a, l.added, l.node);
      forall j: nat | j <= |l.removed|
        ensures Continues(RemoveAll(b, l.removed[..j], l.node), AnalyseLine(a, l))
      {
        RemovalsContinue(b, l.removed, j, l.node);
      }
      assert RemoveAll(b, l.removed[..0], l.node) == b;
    }
  }

  lemma RowAtEnd(base: Snap, ev: seq<Event>, before: seq<Line>, l: Line, r: Row)
    requires ev != [] && LogOf(base, ev[..|ev| - 1], before)
    requires Describes(base, ev[..|ev| - 1], ev[|ev| - 1], l)
    ensures Removal(AddAll(Analyse(before), l.added, l.node), l.removed, l.node, r) <==>
            RowOf(base, ev, |ev| - 1, r)
  {
    var n := |ev| - 1;
    assert ev[..n + 1] == ev;
    var k := r.key;
    OutstandingExactly(base, ev[..n], before, k);
    CreatorIsLastAppearance(base, ev[..n], k);
    assert k in l.removed <==> k in Now(base, ev[..n]) - Now(base, ev);
    assert k in l.added <==> k in Now(base, ev) - Now(base, ev[..n]);
    if Creator(base, ev[..n], k).Just? {
      var i: nat :| LastAppearance(base, ev[..n], i, k, Creator(base, ev[..n], k).value);
      assert Flipped(base, ev[..n], k);
    }
  }

  /** Reading the log forward over the baseline. */
  function Replay(cfg: set<Key>, log: seq<Line>): set<Key> {
    if log == [] then cfg
    else
      var n := |log| - 1;
      var before := Replay(cfg, log[..n]);
      if log[n].Change? then before + KeySet(log[n].added) - KeySet(log[n].removed) else before
  }

  /** The log loses nothing: replayed over the keys of the start it gives the keys of the end. */
  lemma {:induction false} ReplayReachesNow(base: Snap, ev: seq<Event>, log: seq<Line>)
    requires LogOf(base, ev, log)
    ensures Replay(base.cfg, log) == Now(base, ev)
    decreases |ev|
  {
    if ev == [] {
      assert log[..0] == [];
      assert Replay(base.cfg, []) == base.cfg;
    } else {
      var n := |ev| - 1;
      var before := LogStep(base, ev, log);
      ReplayReachesNow(base, ev[..n], before);
      if before != log && log[|log| - 1].Change? {
        var l := log[|log| - 1];
        assert KeySet(l.added) == Now(base, ev) - Now(base, ev[..n]);
        assert KeySet(l.removed) == Now(base, ev[..n]) - Now(base, ev);
      }
    }
  }

  /** The tests after which one of the two table sizes was too far above the baseline. */
  function Storms(base: Snap, ev: seq<Event>): seq<(Node, int, int)>
    decreases |ev|
  {
    if ev == [] then []
    else
      var n := |ev| - 1;
      Storms(base, ev[..n]) +
      if ev[n].Ran? && (ev[n].snap.fdb - base.fdb > FDB_DELTA || ev[n].snap.neigh - base.neigh > NEIGH_DELTA)
      then [(ev[n].node, ev[n].snap.fdb - base.fdb, ev[n].snap.neigh - base.neigh)] else []
  }

  /** No storm escapes the log: the reported ones are exactly those of the session, in order. */
  lemma {:induction false} StormsExact(base: Snap, ev: seq<Event>, log: seq<Line>)
    requires LogOf(base, ev, log)
    ensures Analyse(log).storms == Storms(base, ev)
    decreases |ev|
  {
    if ev == [] {
      assert log[..0] == [];
      assert Analyse(log) == Analysis(map[], [], [], []);
    } else {
      var n := |ev| - 1;
      var before := LogStep(base, ev, log);
      StormsExact(base, ev[..n], before);
      if before != log && log[|log| - 1].Change? {
        LineStorms(Analyse(before), log[|log| - 1]);
      }
    }
  }

  lemma LineStorms(a: Analysis, l: Line)
    requires l.Change?
    ensures AnalyseLine(a, l).storms ==
            a.storms + if l.dfdb > 4 || l.dneigh > 4 then [(l.node, l.dfdb, l.dneigh)] else []
  {
    RemoveAllOut(AddAll(a, l.added, l.node), l.removed, l.node);
    assert a.storms + [] == a.storms;
  }

  // ---- what gets on record ----

  /** The snapshot after the last test, or the baseline when there was none. */
  ghost predicate Previous(base: Snap, ev: seq<Event>, prev: Snap) {
    || (prev == base && forall j :: 0 <= j < |ev| ==> ev[j].Healed?)
    || exists i :: 0 <= i < |ev| && ev[i].Ran? && ev[i].snap == prev && forall j :: i < j < |ev| ==> ev[j].Healed?
  }

  lemma {:induction false} PreviousExactly(base: Snap, ev: seq<Event>, prev: Snap)
    requires Previous(base, ev, prev)
    ensures Now(base, ev) == prev.cfg && Watched(base, ev) == prev.watched
    decreases |ev|
  {
    if ev != [] && ev[|ev| - 1].Healed? {
      PreviousExactly(base, ev[..|ev| - 1], prev);
    }
  }

  lemma {:induction false} LogLength(base: Snap, ev: seq<Event>, log: seq<Line>, log': seq<Line>)
    requires LogOf(base, ev, log) && LogOf(base, ev, log')
    ensures |log| == |log'|
    decreases |ev|
  {
    if ev != [] {
      var n := |ev| - 1;
      if ev[n].Ran? && !Dirty(base, ev[..n], ev[n].snap) {
        LogLength(base, ev[..n], log, log');
      } else {
        LogLength(base, ev[..n], log[..|log| - 1], log'[..|log'| - 1]);
      }
    }
  }

  /** A watched key that was there before and now has another content. */
  predicate ContentChanged(prev: Snap, cur: Snap, k: Key) {
    k in prev.watched && k in cur.watched && prev.watched[k] != cur.watched[k]
  }

  ghost predicate SomethingChanged(base: Snap, prev: Snap, cur: Snap) {
    || cur.cfg != prev.cfg || cur.fdb > base.fdb + 4 || cur.neigh > base.neigh + 4
    || exists k :: ContentChanged(prev, cur, k)
  }

  lemma DirtyExactly(base: Snap, ev: seq<Event>, prev: Snap, cur: Snap)
    requires Previous(base, ev, prev)
    ensures Dirty(base, ev, cur) <==> SomethingChanged(base, prev, cur)
  {
    PreviousExactly(base, ev, prev);
    var changed := ChangedFields(prev.watched, cur.watched);
    if k :| ContentChanged(prev, cur, k) { assert k in changed; }
    if changed != map[] {
      var k :| k in changed;
      assert ContentChanged(prev, cur, k);
    }
  }

  /** The record names what appeared, what disappeared, and what changed from what to what. */
  ghost predicate Names(prev: Snap, cur: Snap, l: Line)
    requires l.Change?
  {
    && (forall k :: k in l.added <==> k in cur.cfg && k !in prev.cfg)
    && (forall k :: k in l.removed <==> k in prev.cfg && k !in cur.cfg)
    && (forall k :: k in l.fields <==> ContentChanged(prev, cur, k))
    && (forall k :: k in l.fields ==> l.fields[k] == (prev.watched[k], cur.watched[k]))
  }

  lemma RecordNames(base: Snap, ev: seq<Event>, prev: Snap, e: Event, l: Line)
    requires Previous(base, ev, prev) && Describes(base, ev, e, l)
    ensures Names(prev, e.snap, l)
  {
    PreviousExactly(base, ev, prev);
  }

  /** From the snapshots of the session alone: a test adds one record to the log, or none, and it adds one
      if and only if the keys differ from those after the previous test, or either size is more than
      four above the baseline, or some watched key has another content than after the previous test.
      The record names exactly those keys, with the content before and after. */
  lemma RecordedExactly(base: Snap, ev: seq<Event>, prev: Snap, node: Node, cur: Snap,
                        log: seq<Line>, log': seq<Line>)
    requires Previous(base, ev, prev) && LogOf(base, ev, log) && LogOf(base, ev + [Ran(node, cur)], log')
    ensures |log| <= |log'| <= |log| + 1
    ensures |log'| == |log| + 1 <==> SomethingChanged(base, prev, cur)
    ensures |log'| == |log| + 1 ==>
              log'[|log|].Change? && log'[|log|].node == node && Names(prev, cur, log'[|log|])
  {
    var e := Ran(node, cur);
    assert (ev + [e])[..|ev|] == ev;
    DirtyExactly(base, ev, prev, cur);
    if Dirty(base, ev, cur) {
      LogLength(base, ev, log, log'[..|log'| - 1]);
      RecordNames(base, ev, prev, e, log'[|log|]);
    } else {
      LogLength(base, ev, log, log');
    }
  }

  // ---- the sentinel ----

  method List(s: set<Key>) returns (ks: seq<Key>)
    ensures Lists(ks, s)
  {
    ks := [];
    var todo := s;
    while todo != {}
      invariant todo <= s && Lists(ks, s - todo)
      decreases todo
    {
      var k :| k in todo;
      ks := ks + [k];
      todo := todo - {k};
    }
    assert s - todo == s;
  }

  /** Nothing to list on either side means nothing differs. */
  lemma ListedDifference(a: set<Key>, b: set<Key>, added: seq<Key>, removed: seq<Key>)
    requires Lists(added, a - b) && Lists(removed, b - a)
    ensures added == [] && removed == [] <==> a == b
  {
    if added != [] { assert added[0] in added; }
    if removed != [] { assert removed[0] in removed; }
    if added == [] && removed == [] {
      assert forall k :: k in a - b ==> k in added;
      assert forall k :: k in b - a ==> k in removed;
    }
  }

  /** One more test: the log grows by its record exactly when there is something to record. */
  lemma LogGrows(base: Snap, ev: seq<Event>, log: seq<Line>, e: Event, l: Line)
    requires LogOf(base, ev, log) && e.Ran? && Describes(base, ev, e, l)
    ensures LogOf(base, ev + [e], if Dirty(base, ev, e.snap) then log + [l] else log)
    ensures Now(base, ev + [e]) == e.snap.cfg && Watched(base, ev + [e]) == e.snap.watched
  {
    assert (ev + [e])[..|ev|] == ev && (log + [l])[..|log|] == log;
  }

  class Sentinel {
    var clean: Maybe<set<Key>>
    var baseFdb: int
    var baseNeigh: int
    var watch: map<Key, string>
    var records: seq<Line>
    var heals: seq<Line>
    /** The report file. */
    var report: seq<Line>
    /** The session since the baseline was captured. */
    ghost var base: Snap
    ghost var events: seq<Event>

    /** The report is a log of the session, and the state is its end. */
    ghost predicate Valid()
      reads this
    {
      clean.Just? ==>
        && clean.value == Now(base, events)
        && baseFdb == base.fdb && baseNeigh == base.neigh
        && watch == Watched(base, events)
        && LogOf(base, events, report)
    }

    constructor ()
      ensures Valid() && clean == Nothing && records == [] && heals == []
    {
      clean, baseFdb, baseNeigh, watch, records, heals, report := Nothing, 0, 0, map[], [], [], [];
      base, events := Snap({}, 0, 0, map[]), [];
    }

    method CaptureBaseline(snap: Snap)
      modifies this
      ensures Valid() && clean == Just(snap.cfg) && base == snap && events == []
      ensures records == old(records) && heals == old(heals)
    {
      clean := Just(snap.cfg);
      baseFdb, baseNeigh, watch := snap.fdb, snap.neigh, snap.watched;
      report := [Baseline(|snap.cfg|, snap.fdb, snap.neigh)];
      base, events := snap, [];
    }

    /** What a record of this test would say, and whether there is anything to record. */
    method Compare(node: Node, cur: Snap) returns (l: Line, dirty: bool)
      requires Valid() && clean.Just?
      ensures Describes(base, events, Ran(node, cur), l)
      ensures dirty <==> Dirty(base, events, cur)
    {
      var added := List(cur.cfg - clean.value);
      var removed := List(clean.value - cur.cfg);
      var dfdb, dneigh := cur.fdb - baseFdb, cur.neigh - baseNeigh;
      var fields := ChangedFields(watch, cur.watched);
      l := Change(node, added, removed, dfdb, dneigh, fields);
      ListedDifference(cur.cfg, clean.value, added, removed);
      dirty := added != [] || removed != [] || dfdb > FDB_DELTA || dneigh > NEIGH_DELTA || fields != map[];
    }

    /** Compares, attributes, records, and rolls the baseline forward. */
    method CheckAfterTest(node: Node, cur: Snap)
      requires Valid()
      modifies this
      ensures Valid() && base == old(base) && heals == old(heals)
      ensures old(clean).Nothing? ==> report == old(report) && records == old(records) && clean == Nothing
      ensures old(clean).Just? ==> clean == Just(cur.cfg) && events == old(events) + [Ran(node, cur)]
      ensures old(clean).Just? ==>
                || (report == old(report) && records == old(records) && !Dirty(base, old(events), cur))
                || (|report| == |old(report)| + 1 && report[..|old(report)|] == old(report)
                    && records == old(records) + [report[|old(report)|]]
                    && Describes(base, old(events), Ran(node, cur), report[|old(report)|]))
    {
      if clean.Nothing? {
        return;
      }
      var l, dirty := Compare(node, cur);
      LogGrows(base, events, report, Ran(node, cur), l);
      watch := cur.watched;
      if dirty {
        records := records + [l];
        report := report + [l];
      }
      clean := Just(cur.cfg);
      events := events + [Ran(node, cur)];
    }

    method RecordHeal(node: Node, ports: seq<string>)
      requires Valid()
      modifies this`heals, this`report, this`events
      ensures Valid()
      ensures report == old(report) + [Heal(node, ports)] && heals == old(heals) + [Heal(node, ports)]
      ensures events == old(events) + [Healed(node, ports)]
    {
      var l := Heal(node, ports);
      assert (events + [Healed(node, ports)])[..|events|] == events;
      assert (report + [l])[..|report|] == report;
      heals := heals + [l];
      report := report + [l];
      events := events + [Healed(node, ports)];
    }
  }

  /** The analyser: reads the log once for the events and the storms, then replays the events. */
  method AnalyseReport(log: seq<Line>) returns (trueLeak: map<Key, Node>, cross: seq<Row>, benign: seq<Row>,
                                        storms: seq<(Node, int, int)>)
    ensures Analysis(trueLeak, cross, benign, storms) == Analyse(log)
  {
    storms, trueLeak, cross, benign := [], map[], [], [];
    var i := 0;
    while i < |log|
      invariant 0 <= i <= |log|
      invariant storms == Analyse(log[..i]).storms
    {
      assert log[..i + 1][..i] == log[..i];
      if log[i].Change? {
        RemoveAllOut(AddAll(Analyse(log[..i]), log[i].added, log[i].node), log[i].removed, log[i].node);
        if log[i].dfdb > 4 || log[i].dneigh > 4 {
          storms := storms + [(log[i].node, log[i].dfdb, log[i].dneigh)];
        }
      }
      i := i + 1;
    }
    assert log[..i] == log;
    i := 0;
    while i < |log|
      invariant 0 <= i <= |log|
      invariant Analysis(trueLeak, cross, benign, Analyse(log[..i]).storms) == Analyse(log[..i])
    {
      assert log[..i + 1][..i] == log[..i];
      if log[i].Change? {
        ghost var a := Analyse(log[..i]);
        RemoveAllOut(AddAll(a, log[i].added, log[i].node), log[i].removed, log[i].node);
        trueLeak := trueLeak + map k | k in log[i].added :: log[i].node;
        trueLeak, cross, benign := Removals(trueLeak, cross, benign, log[i].removed, log[i].node,
                                            AddAll(a, log[i].added, log[i].node));
      }
      i := i + 1;
    }
    assert log[..i] == log;
  }

  method Removals(out0: map<Key, Node>, cross0: seq<Row>, benign0: seq<Row>, ks: seq<Key>, node: Node,
                  ghost a: Analysis)
      returns (out: map<Key, Node>, cross: seq<Row>, benign: seq<Row>)
    requires a.out == out0 && a.cross == cross0 && a.benign == benign0
    ensures Analysis(out, cross, benign, a.storms) == RemoveAll(a, ks, node)
  {
    out, cross, benign := out0, cross0, benign0;
    var k := 0;
    while k < |ks|
      invariant 0 <= k <= |ks|
      invariant Analysis(out, cross, benign, a.storms) == RemoveAll(a, ks[..k], node)
    {
      assert ks[..k + 1][..k] == ks[..k];
      var creator := if ks[k] in out then Just(out[ks[k]]) else Nothing;
      out := out - {ks[k]};
      if creator.Nothing? {
        cross := cross + [Row(ks[k], Nothing, node)];
      } else if Mod(creator.value) == Mod(node) {
        benign := benign + [Row(ks[k], creator, node)];
      } else {
        cross := cross + [Row(ks[k], creator, node)];
      }
      k := k + 1;
    }
    assert ks[..k] == ks;
  }
}
