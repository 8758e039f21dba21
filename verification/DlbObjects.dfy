/** The objects a test injects into syncd: their VIDs, the calls that make and remove them, and the
    final cleanup (framework/dlb.py). */
module DlbObjects {
  type Vid = nat

  const VID_NHG: Vid := 0x0500000000C000
  const VID_MBR: Vid := 0x1F00000000C100

  // ---- VIDs ----

  /** The `n`-th group and member of the `k`-th instance. */
  function GroupVid(k: nat, n: nat): Vid { VID_NHG + 0x100 * k + n }

  function MemberVid(k: nat, n: nat): Vid { VID_MBR + 0x100 * k + n }

  /** The object type a VID carries, in bits 48 to 55. */
  function TypeOf(v: Vid): nat { v / 0x1_0000_0000_0000 % 0x100 }

  /** The VIDs an instance may hand out. */
  predicate Own(k: nat, v: Vid) {
    GroupVid(k, 0) <= v < GroupVid(k, 0x100) || MemberVid(k, 0) <= v < MemberVid(k, 0x100)
  }

  /** When two VIDs are the same: indices below 0x100 keep instances of one kind apart for good, and
      a group meets a member only 0x1A0000000001 instances later. */
  lemma VidsCollideExactly(k: nat, n: nat, k': nat, n': nat)
    requires n < 0x100 && n' < 0x100
    ensures GroupVid(k, n) == GroupVid(k', n') <==> k == k' && n == n'
    ensures MemberVid(k, n) == MemberVid(k', n') <==> k == k' && n == n'
    ensures GroupVid(k, n) == MemberVid(k', n') <==> k == k' + 0x1A0000000001 && n == n'
  {
    assert VID_MBR - VID_NHG == 0x100 * 0x1A0000000001;
    if 0x100 * k + n == 0x100 * k' + n' {
      assert k == (0x100 * k + n) / 0x100 == (0x100 * k' + n') / 0x100 == k';
    }
    var j := k' + 0x1A0000000001;
    if 0x100 * k + n == 0x100 * j + n' {
      assert k == (0x100 * k + n) / 0x100 == (0x100 * j + n') / 0x100 == j;
    }
  }

  /** The bound on indices is sharp: the next index already belongs to the next instance. */
  lemma IndexTooLarge(k: nat, n: nat)
    requires n >= 0x100
    ensures GroupVid(k, n) == GroupVid(k + 1, n - 0x100) && MemberVid(k, n) == MemberVid(k + 1, n - 0x100)
    ensures Own(k, GroupVid(k, n)) <==> MemberVid(k, 0) <= GroupVid(k, n) < MemberVid(k, 0x100)
  {
  }

  /** VIDs carry the types of next hop groups and members until the instances run out of 48 bits. */
  lemma TypesKept(k: nat, n: nat)
    requires n < 0x100
    ensures 0xC000 + 0x100 * k + n < 0x1_0000_0000_0000 ==> TypeOf(GroupVid(k, n)) == 5
    ensures 0xC100 + 0x100 * k + n < 0x1_0000_0000_0000 ==> TypeOf(MemberVid(k, n)) == 31
  {
    assert VID_NHG == 5 * 0x1_0000_0000_0000 + 0xC000;
    assert VID_MBR == 31 * 0x1_0000_0000_0000 + 0xC100;
  }

  /** What the comments say of the index and of the type bits is not so.  The reserved range 0xc0xx
      is used by groups exactly when the instances are counted from 0, and never by members; they
      are counted from 1, so the first one starts at 0xc100.  And bits 40 to 47 are empty. */
  lemma CommentedRangeExactly(k: nat, n: nat)
    requires n < 0x100 && 0xC100 + 0x100 * k + n < 0x100_0000_0000
    ensures 0xC000 <= GroupVid(k, n) % 0x1_0000_0000_0000 < 0xC100 <==> k == 0
    ensures MemberVid(k, n) % 0x1_0000_0000_0000 >= 0xC100
    ensures GroupVid(1, 0) % 0x1_0000_0000_0000 == 0xC100
    ensures GroupVid(k, n) / 0x100_0000_0000 % 0x100 == 0 && MemberVid(k, n) / 0x100_0000_0000 % 0x100 == 0
  {
    assert VID_NHG == 5 * 0x1_0000_0000_0000 + 0xC000;
    assert VID_MBR == 31 * 0x1_0000_0000_0000 + 0xC100;
    assert 0x1_0000_0000_0000 == 0x100 * 0x100_0000_0000;
  }

  // ---- syncd ----

  datatype Op = Create(vid: Vid, refs: set<Vid>) | Destroy(vid: Vid)

  /** What becomes of one injection: the queues never go quiet; syncd handles the operation while
      its caller waits, and performs or refuses it; or syncd handles it after the wait. */
  datatype Fate = Busy | Done | Refused | Late(accepted: bool)

  /** `objs` maps every VID syncd knows to the VIDs it refers to. */
  datatype World = World(alive: bool, objs: map<Vid, set<Vid>>, queue: seq<(Op, bool)>)

  predicate Used(objs: map<Vid, set<Vid>>, v: Vid) {
    exists u :: u in objs && v in objs[u]
  }

  /** An unknown VID ends syncd; creating a VID twice changes nothing; an object in use stays. */
  function Handle(w: World, op: Op, accepted: bool): World {
    if !w.alive then w
    else match op
      case Create(v, refs) =>
        if !(refs <= w.objs.Keys) then w.(alive := false)
        else if v in w.objs || !accepted then w
        else w.(objs := w.objs[v := refs])
      case Destroy(v) =>
        if v !in w.objs then w.(alive := false)
        else if Used(w.objs, v) || !accepted then w
        else w.(objs := w.objs - {v})
  }

  function HandleAll(w: World, ops: seq<(Op, bool)>): World
    decreases |ops|
  {
    if ops == [] then w else HandleAll(Handle(w, ops[0].0, ops[0].1), ops[1..])
  }

  /** syncd has caught up with its queue. */
  function Settled(w: World): World { HandleAll(w.(queue := []), w.queue) }

  /** One injection: it waits for the queues to go quiet first. */
  function Push(w: World, op: Op, f: Fate): World {
    match f
    case Busy => w
    case Done => Handle(Settled(w), op, true)
    case Refused => Handle(Settled(w), op, false)
    case Late(a) => Settled(w).(queue := [(op, a)])
  }

  // ---- calls of one instance ----

  datatype State = State(k: nat, created: seq<Vid>, w: World)

  datatype Call =
    | CreateGroup(n: nat, f: Fate)
    | AddMember(group: Vid, nh: Vid, n: nat, f: Fate, lost: set<Vid>)  // `lost` after the check
    | Remove(vid: Vid, f: Fate)
    | Cleanup(fs: seq<Fate>)
    | Elsewhere(gone: set<Vid>, born: map<Vid, set<Vid>>)              // orchagent's own work

  function Recorded(s: State, v: Vid, w: World): State {
    State(s.k, if v in w.objs then s.created + [v] else s.created, w)
  }

  function Lose(w: World, gone: set<Vid>): World { w.(objs := w.objs - gone) }

  function RemoveFrom(w: World, v: Vid, f: Fate): World {
    if v !in w.objs then w else Push(w, Destroy(v), f)
  }

  function Dropping(vs: seq<Vid>, v: Vid): seq<Vid> {
    if vs == [] then []
    else var n := |vs| - 1; Dropping(vs[..n], v) + if vs[n] != v then [vs[n]] else []
  }

  /** Everything recorded is removed, the latest first. */
  function Sweep(w: World, vs: seq<Vid>, fs: seq<Fate>): World
    requires |fs| == |vs|
    decreases |vs|
  {
    if vs == [] then w
    else var n := |vs| - 1; Sweep(RemoveFrom(w, vs[n], fs[0]), vs[..n], fs[1..])
  }

  predicate Callable(s: State, c: Call) {
    c.Cleanup? ==> |c.fs| == |s.created|
  }

  function Step(s: State, c: Call): State
    requires Callable(s, c)
  {
    match c
    case CreateGroup(n, f) =>
      var v := GroupVid(s.k, n);
      if f.Busy? then s else Recorded(s, v, Push(s.w, Create(v, {}), f))
    case AddMember(g, nh, n, f, lost) =>
      if nh !in s.w.objs then s
      else
        var w, v := Lose(s.w, lost), MemberVid(s.k, n);
        if f.Busy? then s.(w := w) else Recorded(s, v, Push(w, Create(v, {g, nh}), f))
    case Remove(v, f) =>
      if v !in s.w.objs || f.Busy? then s
      else State(s.k, Dropping(s.created, v), Push(s.w, Destroy(v), f))
    case Cleanup(fs) => State(s.k, [], Sweep(s.w, s.created, fs))
    case Elsewhere(gone, born) => s.(w := s.w.(objs := s.w.objs - gone + born))
  }

  predicate RunCallable(s: State, cs: seq<Call>)
    decreases |cs|
  {
    cs != [] ==> Callable(s, cs[0]) && RunCallable(Step(s, cs[0]), cs[1..])
  }

  function Run(s: State, cs: seq<Call>): State
    requires RunCallable(s, cs)
    decreases |cs|
  {
    if cs == [] then s else Run(Step(s, cs[0]), cs[1..])
  }

  // ---- what callers and the rest of the system must respect ----

  predicate InTime(f: Fate) { !f.Late? }

  /** Other programs leave the objects of this instance alone. */
  predicate Apart(k: nat, gone: set<Vid>, born: map<Vid, set<Vid>>) {
    && (forall v :: v in gone ==> !Own(k, v))
    && (forall v :: v in born ==> !Own(k, v) && forall r :: r in born[v] ==> !Own(k, r))
  }

  /** The call respects the discipline: every operation lands while its caller waits, indices are
      below 0x100 and not in use, groups come from `create_group`, and next hops outlive their
      check.  Nothing is asked of removals. */
  predicate Disciplined(s: State, c: Call) {
    match c
    case CreateGroup(n, f) => InTime(f) && n < 0x100 && GroupVid(s.k, n) !in s.w.objs
    case AddMember(g, nh, n, f, lost) =>
      && InTime(f) && n < 0x100 && MemberVid(s.k, n) !in s.w.objs
      && g in s.created && nh !in lost && Apart(s.k, lost, map[])
    case Remove(_, f) => InTime(f)
    case Cleanup(fs) => forall i :: 0 <= i < |fs| ==> InTime(fs[i])
    case Elsewhere(gone, born) => Apart(s.k, gone, born)
  }

  predicate RunDisciplined(s: State, cs: seq<Call>)
    requires RunCallable(s, cs)
    decreases |cs|
  {
    cs != [] ==> Disciplined(s, cs[0]) && RunDisciplined(Step(s, cs[0]), cs[1..])
  }

  // ---- the invariant of a run ----

  /** Whoever refers to an object of the instance refers to one that exists. */
  predicate Closed(k: nat, objs: map<Vid, set<Vid>>) {
    forall u, r :: u in objs && r in objs[u] && Own(k, r) ==> r in objs && Own(k, u)
  }

  /** No object is recorded before one it refers to: every member follows its group. */
  predicate Ordered(vs: seq<Vid>, objs: map<Vid, set<Vid>>) {
    forall i, j :: 0 <= i < |vs| && 0 <= j < |vs| && vs[i] in objs && vs[j] in objs[vs[i]] ==> j < i
  }

  predicate Distinct(vs: seq<Vid>) {
    forall i, j :: 0 <= i < j < |vs| ==> vs[i] != vs[j]
  }

  predicate AllKnown(vs: seq<Vid>, objs: map<Vid, set<Vid>>) {
    forall i :: 0 <= i < |vs| ==> vs[i] in objs
  }

  predicate AllOwn(k: nat, vs: seq<Vid>) {
    forall i :: 0 <= i < |vs| ==> Own(k, vs[i])
  }

  predicate Healthy(s: State) {
    && s.w.alive && s.w.queue == []
    && AllKnown(s.created, s.w.objs) && AllOwn(s.k, s.created)
    && Distinct(s.created) && Ordered(s.created, s.w.objs) && Closed(s.k, s.w.objs)
  }

  /** Every object of the instance is on its list. */
  predicate Tracked(s: State) {
    forall v :: v in s.w.objs && Own(s.k, v) ==> v in s.created
  }

  lemma {:induction false} DroppingMeaning(vs: seq<Vid>, v: Vid, u: Vid)
    ensures u in Dropping(vs, v) <==> u in vs && u != v
    ensures v !in vs ==> Dropping(vs, v) == vs
  {
    if vs != [] {
      var n := |vs| - 1;
      DroppingMeaning(vs[..n], v, u);
      assert vs == vs[..n] + [vs[n]];
    }
  }

  /** With distinct entries, dropping one cuts the list at its place. */
  lemma {:induction false} DroppingCuts(vs: seq<Vid>, v: Vid) returns (i: nat)
    requires Distinct(vs) && v in vs
    ensures i < |vs| && vs[i] == v && Dropping(vs, v) == vs[..i] + vs[i + 1..]
  {
    var n := |vs| - 1;
    if vs[n] == v {
      i := n;
      DroppingMeaning(vs[..n], v, v);
      assert Dropping(vs, v) == vs[..n] + [];
    } else {
      assert v in vs[..n] by {
        var j :| 0 <= j < |vs| && vs[j] == v;
        assert vs[..n][j] == v;
      }
      i := DroppingCuts(vs[..n], v);
      assert vs[..n][..i] == vs[..i];
      assert vs[..n][i + 1..] + [vs[n]] == vs[i + 1..];
    }
  }

  lemma CutKeeps(k: nat, vs: seq<Vid>, i: nat, objs: map<Vid, set<Vid>>)
    requires i < |vs| && Distinct(vs) && AllKnown(vs, objs) && AllOwn(k, vs) && Ordered(vs, objs)
    ensures var rest := vs[..i] + vs[i + 1..];
            && Distinct(rest) && AllKnown(rest, objs) && AllOwn(k, rest) && Ordered(rest, objs)
            && vs[i] !in rest
  {
    var rest := vs[..i] + vs[i + 1..];
    assert forall j :: 0 <= j < |rest| ==> rest[j] == vs[if j < i then j else j + 1];
  }

  /** The list without one entry is as good a list. */
  lemma DroppedHealthy(k: nat, vs: seq<Vid>, objs: map<Vid, set<Vid>>, v: Vid)
    requires Distinct(vs) && AllKnown(vs, objs) && AllOwn(k, vs) && Ordered(vs, objs)
    ensures var rest := Dropping(vs, v);
            && Distinct(rest) && AllKnown(rest, objs) && AllOwn(k, rest) && Ordered(rest, objs) && v !in rest
  {
    if v in vs {
      var i := DroppingCuts(vs, v);
      CutKeeps(k, vs, i, objs);
    } else {
      DroppingMeaning(vs, v, v);
    }
  }

  /** And stays one when an object that nobody uses and that is not on it goes. */
  lemma ShrunkHealthy(k: nat, vs: seq<Vid>, objs: map<Vid, set<Vid>>, v: Vid)
    requires AllKnown(vs, objs) && Ordered(vs, objs) && Closed(k, objs) && v !in vs && !Used(objs, v)
    ensures AllKnown(vs, objs - {v}) && Ordered(vs, objs - {v}) && Closed(k, objs - {v})
  {
  }

  lemma RemoveHealthy(s: State, v: Vid, f: Fate)
    requires Healthy(s) && InTime(f)
    ensures Healthy(Step(s, Remove(v, f)))
  {
    if v in s.w.objs && !f.Busy? {
      DroppedHealthy(s.k, s.created, s.w.objs, v);
      assert Settled(s.w) == s.w;
      if f.Done? && !Used(s.w.objs, v) {
        ShrunkHealthy(s.k, Dropping(s.created, v), s.w.objs, v);
      }
    }
  }

  lemma AddHealthy(s: State, v: Vid, refs: set<Vid>, f: Fate)
    requires Healthy(s) && InTime(f) && !f.Busy? && Own(s.k, v) && v !in s.w.objs
    requires refs <= s.w.objs.Keys
    ensures Healthy(Recorded(s, v, Push(s.w, Create(v, refs), f)))
    ensures Tracked(s) ==> Tracked(Recorded(s, v, Push(s.w, Create(v, refs), f)))
  {
    assert v !in s.created;
    assert !Used(s.w.objs, v);
    var t := Recorded(s, v, Push(s.w, Create(v, refs), f));
    if f.Done? {
      assert t.w.objs == s.w.objs[v := refs];
      assert v !in refs;
    }
  }

  lemma LoseHealthy(s: State, gone: set<Vid>, born: map<Vid, set<Vid>>)
    requires Healthy(s) && Apart(s.k, gone, born)
    ensures var t := s.(w := s.w.(objs := s.w.objs - gone + born));
            Healthy(t) && (Tracked(s) ==> Tracked(t))
  {
    var objs := s.w.objs - gone + born;
    assert forall v :: Own(s.k, v) && v in s.w.objs ==> v in objs && objs[v] == s.w.objs[v];
  }

  lemma {:induction false} SweepLives(w: World, vs: seq<Vid>, fs: seq<Fate>)
    requires |fs| == |vs| && w.alive && w.queue == [] && forall i :: 0 <= i < |fs| ==> InTime(fs[i])
    ensures var t := Sweep(w, vs, fs);
            && t.alive && t.queue == [] && t.objs.Keys <= w.objs.Keys
            && (forall v :: v in t.objs ==> t.objs[v] == w.objs[v])
            && (forall v :: v in w.objs && v !in vs ==> v in t.objs)
            && (forall v :: v in w.objs && v !in t.objs ==> !Used(t.objs, v))
    decreases |vs|
  {
    if vs != [] {
      var n := |vs| - 1;
      var u := RemoveFrom(w, vs[n], fs[0]);
      assert vs == vs[..n] + [vs[n]];
      SweepLives(u, vs[..n], fs[1..]);
      var t := Sweep(w, vs, fs);
      forall v | v in w.objs && v !in t.objs ensures !Used(t.objs, v) {
        if v !in u.objs {
          assert !Used(w.objs, v);
        }
      }
    }
  }

  lemma CleanupHealthy(s: State, fs: seq<Fate>)
    requires Healthy(s) && |fs| == |s.created| && forall i :: 0 <= i < |fs| ==> InTime(fs[i])
    ensures Healthy(Step(s, Cleanup(fs)))
  {
    SweepLives(s.w, s.created, fs);
    var t := Step(s, Cleanup(fs));
    forall u, r | u in t.w.objs && r in t.w.objs[u] && Own(s.k, r) ensures r in t.w.objs && Own(s.k, u) {
      assert Used(t.w.objs, r);
      assert u in s.w.objs && r in s.w.objs[u];
    }
  }

  lemma StepHealthy(s: State, c: Call)
    requires Healthy(s) && Callable(s, c) && Disciplined(s, c)
    ensures Healthy(Step(s, c))
  {
    match c
    case CreateGroup(n, f) => if !f.Busy? { AddHealthy(s, GroupVid(s.k, n), {}, f); }
    case AddMember(g, nh, n, f, lost) =>
      if nh in s.w.objs {
        var t := s.(w := Lose(s.w, lost));
        assert s.w.objs - lost + map[] == s.w.objs - lost;
        LoseHealthy(s, lost, map[]);
        if !f.Busy? { AddHealthy(t, MemberVid(s.k, n), {g, nh}, f); }
      }
    case Remove(v, f) => RemoveHealthy(s, v, f);
    case Cleanup(fs) => CleanupHealthy(s, fs);
    case Elsewhere(gone, born) => LoseHealthy(s, gone, born);
  }

  /** Over every disciplined run, from any state of the system: syncd lives, everything recorded is
      known to it, and every member is recorded after its group. */
  lemma {:induction false} RunHealthy(s: State, cs: seq<Call>)
    requires Healthy(s) && RunCallable(s, cs) && RunDisciplined(s, cs)
    ensures Healthy(Run(s, cs))
    decreases |cs|
  {
    if cs != [] {
      StepHealthy(s, cs[0]);
      RunHealthy(Step(s, cs[0]), cs[1..]);
    }
  }

  // ---- exactness ----

  /** What the calls of a disciplined test achieve: an injection that syncd performs creates its object, with
      the references given, and goes on record; one that is refused, or was never made, changes nothing of
      the test's. */
  lemma CreatesExactly(s: State, c: Call)
    requires Healthy(s) && Callable(s, c) && Disciplined(s, c)
    ensures c.CreateGroup? ==>
              Step(s, c) ==
              if c.f.Done? then State(s.k, s.created + [GroupVid(s.k, c.n)],
                                      s.w.(objs := s.w.objs[GroupVid(s.k, c.n) := {}]))
              else s
    ensures c.AddMember? && c.nh in s.w.objs ==>
              var left := s.w.objs - c.lost;
              Step(s, c) ==
              if c.f.Done? then State(s.k, s.created + [MemberVid(s.k, c.n)],
                                      s.w.(objs := left[MemberVid(s.k, c.n) := {c.group, c.nh}]))
              else s.(w := s.w.(objs := left))
    ensures c.AddMember? && c.nh !in s.w.objs ==> Step(s, c) == s
  {
    var none: seq<(Op, bool)> := [];
    assert s.w.queue == none;
    if c.AddMember? {
      OwnFirst(s.k, s.created, c.group);
    }
  }

  lemma OwnFirst(k: nat, vs: seq<Vid>, v: Vid)
    requires AllOwn(k, vs) && v in vs
    ensures Own(k, v)
  {
  }

  /** An injected member ends syncd exactly when its next hop passed the check and then it or the
      group is unknown. */
  lemma AddMemberSafeExactly(s: State, g: Vid, nh: Vid, n: nat, f: Fate, lost: set<Vid>)
    requires s.w.alive && s.w.queue == []
    ensures Settled(Step(s, AddMember(g, nh, n, f, lost)).w).alive <==>
              (nh in s.w.objs && !f.Busy? ==> nh !in lost && g in s.w.objs && g !in lost)
  {
    var w := Lose(s.w, lost);
    var op := Create(MemberVid(s.k, n), {g, nh});
    if nh in s.w.objs && !f.Busy? {
      assert Settled(w) == w;
      if f.Late? { LateIsHandled(w, op, f.accepted); }
    }
  }

  lemma LateIsHandled(w: World, op: Op, accepted: bool)
    ensures Settled(w.(queue := [(op, accepted)])) == Handle(w.(queue := []), op, accepted)
  {
    var ops := [(op, accepted)];
    assert ops[1..] == [];
    assert HandleAll(Handle(w.(queue := []), op, accepted), ops[1..]) == Handle(w.(queue := []), op, accepted);
  }

  /** A removal asks syncd about the object before it waits for the queues: it is safe exactly when
      no earlier operation, still unhandled at the question, takes the object away. */
  lemma RemoveSafeExactly(s: State, v: Vid, f: Fate)
    requires s.w.alive && v in s.w.objs && f != Busy && Settled(s.w).alive
    ensures Settled(Step(s, Remove(v, f)).w).alive <==> v in Settled(s.w).objs
  {
    HandleAllEmpties(s.w.(queue := []), s.w.queue);
    var w := Settled(s.w);
    if f.Late? { LateIsHandled(w, Destroy(v), f.accepted); }
    assert Handle(w, Destroy(v), true).queue == [] == Handle(w, Destroy(v), false).queue;
  }

  lemma {:induction false} HandleAllEmpties(w: World, ops: seq<(Op, bool)>)
    ensures HandleAll(w, ops).queue == w.queue
    decreases |ops|
  {
    if ops != [] { HandleAllEmpties(Handle(w, ops[0].0, ops[0].1), ops[1..]); }
  }

  /** So repeating a removal that was reported as not done can end syncd: when the first one lands
      late. */
  lemma RepeatedRemovalKills(s: State, v: Vid)
    requires s.w.alive && s.w.queue == [] && v in s.w.objs && !Used(s.w.objs, v)
    ensures var t := Step(s, Remove(v, Late(true)));
            t.w.alive && v in t.w.objs && !Step(t, Remove(v, Done)).w.alive
  {
    LateIsHandled(s.w, Destroy(v), true);
  }

  /** The list stays complete over every step but one: a removal that does not remove its object
      still takes it off the list, and a cleanup leaves what it could not remove. */
  lemma RemoveTrackedExactly(s: State, v: Vid, f: Fate)
    requires Healthy(s) && Tracked(s) && InTime(f)
    ensures Tracked(Step(s, Remove(v, f))) <==>
              (v in s.w.objs && Own(s.k, v) && !f.Busy? ==> f.Done? && !Used(s.w.objs, v))
  {
    var t := Step(s, Remove(v, f));
    if v in s.w.objs && !f.Busy? {
      forall u ensures u in t.created <==> u in s.created && u != v {
        DroppingMeaning(s.created, v, u);
      }
      if v in t.w.objs && Own(s.k, v) {
        assert v !in t.created;
      }
    }
  }

  lemma CreationsTracked(s: State, c: Call)
    requires Healthy(s) && Tracked(s) && Callable(s, c) && Disciplined(s, c) && !c.Remove? && !c.Cleanup?
    ensures Tracked(Step(s, c))
  {
    match c
    case CreateGroup(n, f) => if !f.Busy? { AddHealthy(s, GroupVid(s.k, n), {}, f); }
    case AddMember(g, nh, n, f, lost) =>
      if nh in s.w.objs {
        var t := s.(w := Lose(s.w, lost));
        assert s.w.objs - lost + map[] == s.w.objs - lost;
        LoseHealthy(s, lost, map[]);
        if !f.Busy? { AddHealthy(t, MemberVid(s.k, n), {g, nh}, f); }
      }
    case Elsewhere(gone, born) => LoseHealthy(s, gone, born);
  }

  predicate AllDone(fs: seq<Fate>) {
    forall i :: 0 <= i < |fs| ==> fs[i] == Done
  }

  /** Who still refers to an object to be swept is to be swept before it. */
  predicate Sweepable(vs: seq<Vid>, objs: map<Vid, set<Vid>>) {
    && Distinct(vs) && AllKnown(vs, objs) && Ordered(vs, objs)
    && forall u, i :: u in objs && 0 <= i < |vs| && vs[i] in objs[u] ==> u in vs
  }

  /** Sweeping in reverse order removes everything exactly when every removal is performed: nothing
      is ever found in use. */
  lemma {:induction false} SweepExactly(w: World, vs: seq<Vid>, fs: seq<Fate>)
    requires |fs| == |vs| && w.alive && w.queue == [] && Sweepable(vs, w.objs)
    requires forall i :: 0 <= i < |fs| ==> InTime(fs[i])
    ensures (forall v :: v in vs ==> v !in Sweep(w, vs, fs).objs) <==> AllDone(fs)
    decreases |vs|
  {
    if vs != [] {
      var n := |vs| - 1;
      var v := vs[n];
      var u := RemoveFrom(w, v, fs[0]);
      assert vs == vs[..n] + [v];
      if fs[0] == Done {
        assert !Used(w.objs, v) by { LastIsFree(vs, w.objs); }
        assert u.objs == w.objs - {v};
        SweepableInit(vs, w.objs);
        SweepExactly(u, vs[..n], fs[1..]);
        SweepLives(u, vs[..n], fs[1..]);
        assert AllDone(fs) <==> AllDone(fs[1..]) by {
          assert forall i :: 0 < i < |fs| ==> fs[i] == fs[1..][i - 1];
        }
      } else {
        assert u.objs == w.objs;
        SweepLives(u, vs[..n], fs[1..]);
        assert v !in vs[..n];
        assert v in Sweep(w, vs, fs).objs;
      }
    }
  }

  lemma LastIsFree(vs: seq<Vid>, objs: map<Vid, set<Vid>>)
    requires vs != [] && Sweepable(vs, objs)
    ensures !Used(objs, vs[|vs| - 1])
  {
    var n := |vs| - 1;
    if Used(objs, vs[n]) {
      var u :| u in objs && vs[n] in objs[u];
      assert false;
    }
  }

  lemma SweepableInit(vs: seq<Vid>, objs: map<Vid, set<Vid>>)
    requires vs != [] && Sweepable(vs, objs)
    ensures Sweepable(vs[..|vs| - 1], objs - {vs[|vs| - 1]})
  {
    var n := |vs| - 1;
    var left := objs - {vs[n]};
    forall u, i | u in left && 0 <= i < n && vs[i] in left[u] ensures u in vs[..n] {
      assert u in vs;
    }
  }

  /** Cleanup after a disciplined run leaves no object of the instance behind exactly when every
      removal is performed, and never touches another program's objects. */
  lemma CleanupLeavesNoneExactly(s: State, fs: seq<Fate>)
    requires Healthy(s) && Tracked(s) && |fs| == |s.created| && forall i :: 0 <= i < |fs| ==> InTime(fs[i])
    ensures var t := Step(s, Cleanup(fs));
            && t.w.alive
            && ((forall v :: v in t.w.objs ==> !Own(s.k, v)) <==> AllDone(fs))
            && (forall v :: !Own(s.k, v) ==> (v in t.w.objs <==> v in s.w.objs))
  {
    forall u, i | u in s.w.objs && 0 <= i < |s.created| && s.created[i] in s.w.objs[u] ensures u in s.created {
      assert Own(s.k, s.created[i]);
    }
    SweepExactly(s.w, s.created, fs);
    SweepLives(s.w, s.created, fs);
  }

  /** No removal forgets an object it leaves behind. */
  predicate NothingForgotten(s: State, c: Call)
    requires Callable(s, c)
  {
    match c
    case Remove(v, f) => v in s.w.objs && Own(s.k, v) && !f.Busy? ==> f.Done? && !Used(s.w.objs, v)
    case Cleanup(fs) => AllDone(fs)
    case _ => true
  }

  /** Every disciplined call keeps the list complete exactly when it forgets nothing. */
  lemma StepTrackedExactly(s: State, c: Call)
    requires Healthy(s) && Tracked(s) && Callable(s, c) && Disciplined(s, c)
    ensures Tracked(Step(s, c)) <==> NothingForgotten(s, c)
  {
    match c
    case Remove(v, f) => RemoveTrackedExactly(s, v, f);
    case Cleanup(fs) => CleanupLeavesNoneExactly(s, fs);
    case _ => CreationsTracked(s, c);
  }

  predicate RunForgetsNothing(s: State, cs: seq<Call>)
    requires RunCallable(s, cs)
    decreases |cs|
  {
    cs != [] ==> NothingForgotten(s, cs[0]) && RunForgetsNothing(Step(s, cs[0]), cs[1..])
  }

  lemma {:induction false} RunTracked(s: State, cs: seq<Call>)
    requires Healthy(s) && Tracked(s) && RunCallable(s, cs) && RunDisciplined(s, cs) && RunForgetsNothing(s, cs)
    ensures Healthy(Run(s, cs)) && Tracked(Run(s, cs))
    decreases |cs|
  {
    if cs != [] {
      StepHealthy(s, cs[0]);
      StepTrackedExactly(s, cs[0]);
      RunTracked(Step(s, cs[0]), cs[1..]);
    }
  }

  /** A whole test, from an instance none of whose VIDs is in the system: any disciplined run that
      forgets nothing, and then cleanup.  syncd lives, and none of the test's objects is left if and
      only if every removal of the cleanup is performed. */
  lemma TestLeavesNoneExactly(k: nat, w: World, cs: seq<Call>, fs: seq<Fate>)
    requires w.alive && w.queue == [] && Closed(k, w.objs) && forall v :: v in w.objs ==> !Own(k, v)
    requires var s := State(k, [], w);
             && RunCallable(s, cs) && RunDisciplined(s, cs) && RunForgetsNothing(s, cs)
             && |fs| == |Run(s, cs).created| && forall i :: 0 <= i < |fs| ==> InTime(fs[i])
    ensures var end := Step(Run(State(k, [], w), cs), Cleanup(fs));
            end.w.alive && ((forall v :: v in end.w.objs ==> !Own(k, v)) <==> AllDone(fs))
  {
    var s := State(k, [], w);
    RunTracked(s, cs);
    RunKeepsInstance(s, cs);
    CleanupLeavesNoneExactly(Run(s, cs), fs);
  }

  lemma {:induction false} RunKeepsInstance(s: State, cs: seq<Call>)
    requires RunCallable(s, cs)
    ensures Run(s, cs).k == s.k
    decreases |cs|
  {
    if cs != [] { RunKeepsInstance(Step(s, cs[0]), cs[1..]); }
  }

  /** Removing a group that still has a member drops it from the list while it lives on: cleanup
      takes the member away and leaves the group. */
  lemma ForgottenGroupLeaks(s: State, g: Vid, m: Vid)
    requires Healthy(s) && s.created == [g, m] && m in s.w.objs && g in s.w.objs[m]
    ensures var t := Step(s, Remove(g, Done));
            t.created == [m] && g in t.w.objs && g in Step(t, Cleanup([Done])).w.objs
  {
    assert Used(s.w.objs, g);
    assert s.created[0] != s.created[1];
    DropFirst(g, m);
    var t := Step(s, Remove(g, Done));
    assert Settled(s.w) == s.w;
    assert t == State(s.k, [m], s.w);
    SweepLives(t.w, [m], [Done]);
  }

  lemma DropFirst(g: Vid, m: Vid)
    requires g != m
    ensures Dropping([g, m], g) == [m]
  {
    assert [g, m][..1] == [g] && [g][..0] == [];
    assert Dropping([g], g) == [];
  }

  // ---- the object ----

  class Dlb {
    const k: nat
    var created: seq<Vid>
    var w: World

    function Snapshot(): State
      reads this
    {
      State(k, created, w)
    }

    constructor (k: nat, w: World)
      ensures Snapshot() == State(k, [], w)
    {
      this.k, this.w, created := k, w, [];
    }

    method CreateGroup(n: nat, f: Fate) returns (vid: Vid, made: bool)
      modifies this
      ensures Snapshot() == Step(old(Snapshot()), Call.CreateGroup(n, f))
      ensures vid == GroupVid(k, n) && (made <==> !f.Busy? && vid in w.objs)
    {
      vid, made := GroupVid(k, n), false;
      if !f.Busy? {
        w := Push(w, Create(vid, {}), f);
        if vid in w.objs {
          created, made := created + [vid], true;
        }
      }
    }

    method AddMember(g: Vid, nh: Vid, n: nat, f: Fate, lost: set<Vid>) returns (vid: Vid, made: bool)
      modifies this
      ensures Snapshot() == Step(old(Snapshot()), Call.AddMember(g, nh, n, f, lost))
      ensures vid == MemberVid(k, n) && (made <==> nh in old(w.objs) && !f.Busy? && vid in w.objs)
    {
      vid, made := MemberVid(k, n), false;
      if nh in w.objs {
        w := Lose(w, lost);
        if !f.Busy? {
          w := Push(w, Create(vid, {g, nh}), f);
          if vid in w.objs {
            created, made := created + [vid], true;
          }
        }
      }
    }

    method Remove(v: Vid, f: Fate) returns (gone: bool)
      modifies this
      ensures Snapshot() == Step(old(Snapshot()), Call.Remove(v, f))
      ensures w == RemoveFrom(old(w), v, f)
      ensures gone <==> v in old(w.objs) && v !in w.objs
    {
      gone := false;
      if v in w.objs && !f.Busy? {
        w := Push(w, Destroy(v), f);
        gone := v !in w.objs;
        var kept: seq<Vid> := [];
        var i := 0;
        while i < |created|
          invariant 0 <= i <= |created|
          invariant kept == Dropping(created[..i], v)
          invariant created == old(created) && w == Push(old(w), Destroy(v), f)
        {
          assert created[..i + 1][..i] == created[..i];
          if created[i] != v {
            kept := kept + [created[i]];
          }
          i := i + 1;
        }
        assert created[..i] == created;
        created := kept;
      }
    }

    method Cleanup(fs: seq<Fate>)
      requires |fs| == |created|
      modifies this
      ensures Snapshot() == Step(old(Snapshot()), Call.Cleanup(fs))
    {
      var all, i := created, |created|;
      assert all[..i] == all && fs[|fs| - i..] == fs;
      while i > 0
        invariant 0 <= i <= |all| == |fs|
        invariant Sweep(w, all[..i], fs[|fs| - i..]) == Sweep(old(w), all, fs)
      {
        i := i - 1;
        assert all[..i + 1][..i] == all[..i];
        assert fs[|fs| - i - 1..][1..] == fs[|fs| - i..];
        var _ := Remove(all[i], fs[|fs| - i - 1]);
      }
      created := [];
    }
  }
}
