/** The loopback manager's tracking tables against the chip (framework/loopback.py). */
module Loopback {
  import opened Chip
  import opened Readback
  import opened Wrappers

  datatype Mode = Mac | Phy | Edb

  /** How a port is isolated: moved to an isolation VLAN, with the VLAN to return to, or told to
      drop what enters on it (switchport systems). */
  datatype Isolation = ByPvid(iso: Vid, orig: Vid) | ByDiscard

  datatype TestVlan = NoTest | Test(vid: Vid, ports: seq<Port>, restore: Vid)

  /** The manager's tables, its settings, and the chip.  `hw` is the loopback mode set in the
      chip for each looped port. */
  datatype Lb = Lb(on: map<Port, (Mode, bool)>, safe: map<Port, Isolation>, test: TestVlan,
                   held: map<Port, Mode>, touched: bool,
                   mode: Mode, dflt: Vid, hw: map<Port, Mode>, chip: Chip)

  function Loop(s: Lb, p: Port, m: Mode): Lb {
    s.(hw := s.hw[p := m], chip := s.chip.(looped := s.chip.looped + {p}))
  }

  function Unloop(s: Lb, ps: set<Port>): Lb {
    s.(hw := s.hw - ps, chip := s.chip.(looped := s.chip.looped - ps))
  }

  function SetPvid(s: Lb, p: Port, v: Vid): Lb {
    s.(chip := s.chip.(pvid := s.chip.pvid[p := v]))
  }

  /** Creating a VLAN that exists is refused. */
  function CreateVlan(s: Lb, v: Vid): Lb {
    if v in s.chip.members then s else s.(chip := s.chip.(members := s.chip.members[v := {}]))
  }

  function DestroyVlan(s: Lb, v: Vid): Lb {
    s.(chip := s.chip.(members := s.chip.members - {v}))
  }

  function SetDiscard(s: Lb, p: Port, on: bool): Lb {
    s.(chip := s.chip.(discard := if on then s.chip.discard + {p} else s.chip.discard - {p}))
  }

  /** The port VLAN as read back; when the read fails the profile's default is taken. */
  function ReadPvid(s: Lb, p: Port, shown: bool): Vid {
    if shown && p in s.chip.pvid then s.chip.pvid[p] else s.dflt
  }

  // ---- the operations ----

  function DoHold(s: Lb, p: Port, m: Mode): Lb { s.(held := s.held[p := m]) }
  function DoRelease(s: Lb, p: Port): Lb { s.(held := s.held - {p}) }

  function DoEnable(s: Lb, p: Port, m: Mode, discard: bool): Lb {
    var s1 := Loop(s, p, m);
    var s2 := if discard then SetDiscard(s1, p, true) else s1;
    s2.(on := s2.on[p := (m, discard)], touched := true)
  }

  function DoDisable(s: Lb, p: Port): Lb {
    var s1 := if p in s.on && s.on[p].1 then SetDiscard(s, p, false) else s;
    var s2 := Unloop(s1, {p});
    s2.(on := s2.on - {p})
  }

  /** The VLAN of each port written, except those the product leaves in another one. */
  function SetPvids(pv: map<Port, Vid>, ps: seq<Port>, v: Vid, left: map<Port, Vid>): map<Port, Vid> {
    pv + map p | p in ps :: if p in left then left[p] else v
  }

  const TRIES: nat := 10

  /** What the product writes back during the tries; after that it leaves the port alone. */
  function Tried(back: seq<Maybe<Vid>>): (t: seq<Maybe<Vid>>)
    ensures 0 < |t| <= TRIES && forall i :: 0 <= i < |t| ==> t[i] == if i < |back| then back[i] else Nothing
  {
    if |back| < TRIES then back + [Nothing] else back[..TRIES]
  }

  /** The ports that end in another VLAN than the wanted one. */
  function LeftBy(v: Vid, back: map<Port, seq<Maybe<Vid>>>): map<Port, Vid> {
    map p | p in back && Ends(v, Tried(back[p])) != v :: Ends(v, Tried(back[p]))
  }

  function DoUseTestVlan(s: Lb, v: Vid, ps: seq<Port>, restore: Vid, left: map<Port, Vid>): Lb {
    var s1 := CreateVlan(s, v);
    s1.(chip := s1.chip.(members := s1.chip.members[v := s1.chip.members[v] + set p | p in ps],
                         pvid := SetPvids(s1.chip.pvid, ps, v, left)),
        test := Test(v, ps, restore), touched := true)
  }

  function DoDropTestVlan(s: Lb): Lb {
    match s.test
    case NoTest => s
    case Test(v, ps, restore) =>
      DestroyVlan(s.(chip := s.chip.(pvid := SetPvids(s.chip.pvid, ps, restore, map[]))), v).(test := NoTest)
  }

  /** Records the loopback as the MAC style whatever the profile's mode is. */
  function DoEnableFloodSafe(s: Lb, p: Port, iso: Vid, shown: bool): Lb {
    var orig := ReadPvid(s, p, shown);
    var s1 := SetPvid(Loop(CreateVlan(s, iso), p, s.mode), p, iso);
    s1.(on := s1.on[p := (Mac, false)], safe := s1.safe[p := ByPvid(iso, orig)], touched := true)
  }

  function DoIsolatePvid(s: Lb, p: Port, iso: Vid, shown: bool, switchport: bool): Lb {
    if switchport then SetDiscard(s, p, true).(safe := s.safe[p := ByDiscard])
    else
      var orig := ReadPvid(s, p, shown);
      SetPvid(CreateVlan(s, iso), p, iso).(safe := s.safe[p := ByPvid(iso, orig)])
  }

  function DoRestorePvid(s: Lb, p: Port): Lb {
    if p !in s.safe then s
    else match s.safe[p]
      case ByDiscard => SetDiscard(s, p, false).(safe := s.safe - {p})
      case ByPvid(iso, orig) => DestroyVlan(SetPvid(s, p, orig), iso).(safe := s.safe - {p})
  }

  /** Takes every entry for a VLAN move; for one by discard the commands name no VLAN and the
      chip refuses them. */
  function Undo(s: Lb, p: Port): Lb
    requires p in s.safe
  {
    match s.safe[p]
    case ByDiscard => s
    case ByPvid(iso, orig) => DestroyVlan(SetPvid(s, p, orig), iso)
  }

  function DoDisableFloodSafe(s: Lb, p: Port): Lb {
    DoDisable(if p in s.safe then Undo(s, p).(safe := s.safe - {p}) else s, p)
  }

  /** The VLANs to return to, and the isolation VLANs. */
  function Origs(safe: map<Port, Isolation>): map<Port, Vid> {
    map p | p in safe && safe[p].ByPvid? :: safe[p].orig
  }

  function Isos(safe: map<Port, Isolation>): set<Vid> {
    set p | p in safe && safe[p].ByPvid? :: safe[p].iso
  }

  /** All isolations by VLAN taken back, in whatever order. */
  function UndoAll(s: Lb): Lb {
    s.(chip := s.chip.(pvid := s.chip.pvid + Origs(s.safe), members := s.chip.members - Isos(s.safe)),
       safe := map[])
  }

  function DoCleanup(s: Lb): Lb {
    var s1 := UndoAll(s);
    var s2 := Unloop(s1, s.safe.Keys + s.on.Keys);
    s2.(chip := s2.chip.(discard := s2.chip.discard - set p | p in s.on && s.on[p].1), on := map[])
  }

  /** `scope` are the ports a ranged clear reaches. */
  function DoForceClearAll(s: Lb, scope: set<Port>): Lb {
    var s1 := Unloop(UndoAll(s), scope);
    s1.(on := map p | p in s.held :: (s.held[p], false), hw := s1.hw + s.held,
        chip := s1.chip.(looped := s1.chip.looped + s.held.Keys))
  }

  function Cleared(s: Lb): set<Port> {
    s.on.Keys + s.safe.Keys - s.held.Keys
  }

  // ---- runs ----

  datatype Op =
    | Hold(p: Port, m: Mode) | Release(p: Port)
    | Enable(p: Port, m: Mode, discard: bool) | Disable(p: Port)
    | UseTestVlan(v: Vid, ps: seq<Port>, restore: Vid, left: map<Port, Vid>) | DropTestVlan
    | EnableFloodSafe(p: Port, iso: Vid, shown: bool)
    | IsolatePvid(p: Port, iso: Vid, shown: bool, switchport: bool)
    | RestorePvid(p: Port) | DisableFloodSafe(p: Port)
    | Cleanup | ForceClearAll(scope: set<Port>)

  function Step(s: Lb, op: Op): Lb {
    match op
    case Hold(p, m) => DoHold(s, p, m)
    case Release(p) => DoRelease(s, p)
    case Enable(p, m, d) => DoEnable(s, p, m, d)
    case Disable(p) => DoDisable(s, p)
    case UseTestVlan(v, ps, r, left) => DoUseTestVlan(s, v, ps, r, left)
    case DropTestVlan => DoDropTestVlan(s)
    case EnableFloodSafe(p, iso, shown) => DoEnableFloodSafe(s, p, iso, shown)
    case IsolatePvid(p, iso, shown, sw) => DoIsolatePvid(s, p, iso, shown, sw)
    case RestorePvid(p) => DoRestorePvid(s, p)
    case DisableFloodSafe(p) => DoDisableFloodSafe(s, p)
    case Cleanup => DoCleanup(s)
    case ForceClearAll(scope) => DoForceClearAll(s, scope)
  }

  function Run(s: Lb, ops: seq<Op>): Lb
    decreases |ops|
  {
    if ops == [] then s else Run(Step(s, ops[0]), ops[1..])
  }

  // ---- the table of loopbacks is the set of looped ports ----

  predicate Tracked(s: Lb) {
    s.on.Keys == s.chip.looped == s.hw.Keys
  }

  lemma ClearTracked(s: Lb, scope: set<Port>)
    requires Tracked(s)
    ensures Tracked(DoForceClearAll(s, scope)) <==> s.on.Keys <= scope + s.held.Keys
    ensures DoForceClearAll(s, scope).chip.looped == s.chip.looped - scope + s.held.Keys
  {
    var t := DoForceClearAll(s, scope);
    assert t.hw.Keys == s.hw.Keys - scope + s.held.Keys;
    assert t.on.Keys == s.held.Keys;
    if t.chip.looped == t.on.Keys {
      forall p | p in s.on.Keys ensures p in scope + s.held.Keys {
        if p !in scope { assert p in t.chip.looped; }
      }
    }
  }

  /** Whoever updates the table, the hardware and the chip at one port agrees again. */
  lemma AgreeAt(on: map<Port, (Mode, bool)>, hw: map<Port, Mode>, looped: set<Port>, p: Port, e: (Mode, bool), m: Mode)
    requires on.Keys == looped == hw.Keys
    ensures on[p := e].Keys == looped + {p} == hw[p := m].Keys
  {
  }

  lemma SwitchTracked(s: Lb, p: Port, m: Mode, d: bool)
    requires Tracked(s)
    ensures Tracked(DoEnable(s, p, m, d))
    ensures Tracked(DoDisable(s, p))
  {
    AgreeAt(s.on, s.hw, s.chip.looped, p, (m, d), m);
    AgreeWithout(s.on, s.hw, s.chip.looped, p);
  }

  lemma AgreeWithout(on: map<Port, (Mode, bool)>, hw: map<Port, Mode>, looped: set<Port>, p: Port)
    requires on.Keys == looped == hw.Keys
    ensures (on - {p}).Keys == looped - {p} == (hw - {p}).Keys
  {
  }

  lemma FloodSafeTracked(s: Lb, p: Port, iso: Vid, shown: bool)
    requires Tracked(s)
    ensures Tracked(DoEnableFloodSafe(s, p, iso, shown))
  {
    AgreeAt(s.on, s.hw, s.chip.looped, p, (Mac, false), s.mode);
  }

  lemma DisableFloodSafeTracked(s: Lb, p: Port)
    requires Tracked(s)
    ensures Tracked(DoDisableFloodSafe(s, p))
  {
    var u := if p in s.safe then Undo(s, p).(safe := s.safe - {p}) else s;
    assert Tracked(u);
    SwitchTracked(u, p, Mac, false);
  }

  /** The operations that touch no loopback. */
  predicate LeavesLoops(op: Op) {
    op.Hold? || op.Release? || op.UseTestVlan? || op.DropTestVlan? || op.IsolatePvid? || op.RestorePvid?
  }

  lemma IsolateLeaves(s: Lb, p: Port, iso: Vid, shown: bool, sw: bool)
    ensures var t := DoIsolatePvid(s, p, iso, shown, sw);
            t.on == s.on && t.hw == s.hw && t.chip.looped == s.chip.looped
  {
  }

  lemma RestoreLeaves(s: Lb, p: Port)
    ensures var t := DoRestorePvid(s, p);
            t.on == s.on && t.hw == s.hw && t.chip.looped == s.chip.looped
  {
    if p in s.safe {
      match s.safe[p]
      case ByDiscard =>
      case ByPvid(iso, orig) =>
    }
  }

  lemma UseTestLeaves(s: Lb, v: Vid, ps: seq<Port>, restore: Vid, left: map<Port, Vid>)
    ensures var t := DoUseTestVlan(s, v, ps, restore, left);
            t.on == s.on && t.hw == s.hw && t.chip.looped == s.chip.looped
  {
  }

  lemma DropTestLeaves(s: Lb)
    ensures var t := DoDropTestVlan(s); t.on == s.on && t.hw == s.hw && t.chip.looped == s.chip.looped
  {
  }

  lemma LeavesTracked(s: Lb, op: Op)
    requires LeavesLoops(op)
    ensures var t := Step(s, op); t.on == s.on && t.hw == s.hw && t.chip.looped == s.chip.looped
  {
    match op
    case Hold(p, m) =>
    case Release(p) =>
    case UseTestVlan(v, ps, r, left) => UseTestLeaves(s, v, ps, r, left);
    case DropTestVlan => DropTestLeaves(s);
    case IsolatePvid(p, iso, shown, sw) => IsolateLeaves(s, p, iso, shown, sw);
    case RestorePvid(p) => RestoreLeaves(s, p);
  }

  lemma CleanupTracked(s: Lb)
    requires Tracked(s)
    ensures Tracked(DoCleanup(s))
  {
    assert s.chip.looped - (s.safe.Keys + s.on.Keys) == {};
    assert (s.hw - (s.safe.Keys + s.on.Keys)).Keys == {};
  }

  /** The one operation that can break the agreement is a clear that does not reach every
      tracked port. */
  lemma StepTracked(s: Lb, op: Op)
    requires Tracked(s)
    ensures Tracked(Step(s, op)) <==> (op.ForceClearAll? ==> s.on.Keys <= op.scope + s.held.Keys)
  {
    if LeavesLoops(op) {
      LeavesTracked(s, op);
    } else {
      match op
      case Enable(p, m, d) => SwitchTracked(s, p, m, d);
      case Disable(p) => SwitchTracked(s, p, Mac, false);
      case EnableFloodSafe(p, iso, shown) => FloodSafeTracked(s, p, iso, shown);
      case DisableFloodSafe(p) => DisableFloodSafeTracked(s, p);
      case ForceClearAll(scope) => ClearTracked(s, scope);
      case Cleanup => CleanupTracked(s);
    }
  }

  predicate ClearsReach(s: Lb, ops: seq<Op>)
    decreases |ops|
  {
    ops != [] ==>
      && (ops[0].ForceClearAll? ==> s.on.Keys <= ops[0].scope + s.held.Keys)
      && ClearsReach(Step(s, ops[0]), ops[1..])
  }

  /** Over every sequence of operations whatsoever, with discards, repeated isolations and
      isolations by discard included, the table of loopbacks names exactly the ports looped in
      the chip, as long as each full clear reaches the ports that are not held. */
  lemma {:induction false} RunTracked(s: Lb, ops: seq<Op>)
    requires Tracked(s) && ClearsReach(s, ops)
    ensures Tracked(Run(s, ops))
    decreases |ops|
  {
    if ops != [] {
      StepTracked(s, ops[0]);
      RunTracked(Step(s, ops[0]), ops[1..]);
    }
  }

  // ---- the VLANs to return to ----

  /** The port VLANs as they would be had nothing been isolated. */
  function Home(s: Lb): map<Port, Vid> {
    s.chip.pvid + Origs(s.safe)
  }

  /** The same operation when isolation does not exist. */
  function HomeStep(h: map<Port, Vid>, s: Lb, op: Op): map<Port, Vid> {
    match op
    case UseTestVlan(v, ps, _, left) => SetPvids(h, ps, v, left)
    case DropTestVlan => if s.test.Test? then SetPvids(h, s.test.ports, s.test.restore, map[]) else h
    case _ => h
  }

  function HomeRun(h: map<Port, Vid>, s: Lb, ops: seq<Op>): map<Port, Vid>
    decreases |ops|
  {
    if ops == [] then h else HomeRun(HomeStep(h, s, ops[0]), Step(s, ops[0]), ops[1..])
  }

  predicate Isolates(op: Op) {
    op.EnableFloodSafe? || (op.IsolatePvid? && !op.switchport)
  }

  lemma OrigsPut(safe: map<Port, Isolation>, p: Port, i: Isolation)
    ensures i.ByPvid? ==> Origs(safe[p := i]) == Origs(safe)[p := i.orig]
    ensures i.ByDiscard? ==> Origs(safe[p := i]) == Origs(safe) - {p}
    ensures Origs(safe - {p}) == Origs(safe) - {p}
  {
  }

  /** What the manager does not check: the VLAN recorded for an isolated port is the one to return
      to if and only if the port's VLAN could be read (or is the default anyway) and it is not
      sitting in an isolation VLAN already. */
  lemma IsolationRecordsHome(s: Lb, op: Op)
    requires Isolates(op) && op.p in s.chip.pvid
    ensures Home(Step(s, op)) == Home(s) <==> ReadPvid(s, op.p, op.shown) == Home(s)[op.p]
    ensures op.shown ==>
              (Home(Step(s, op)) == Home(s) <==>
               (op.p in s.safe && s.safe[op.p].ByPvid? ==> s.chip.pvid[op.p] == s.safe[op.p].orig))
  {
    var orig := ReadPvid(s, op.p, op.shown);
    IsolateShape(s, op);
    OrigsPut(s.safe, op.p, ByPvid(op.iso, orig));
    PutBoth(s.chip.pvid, Origs(s.safe), op.p, op.iso, orig);
    assert Home(Step(s, op)) == Home(s)[op.p := orig];
    PutSame(Home(s), op.p, orig);
  }

  /** What isolating does to the parts that matter. */
  predicate IsolatedAs(s: Lb, t: Lb, p: Port, iso: Vid, orig: Vid) {
    && t.safe == s.safe[p := ByPvid(iso, orig)]
    && t.chip.pvid == s.chip.pvid[p := iso]
    && t.chip.members == (if iso in s.chip.members then s.chip.members else s.chip.members[iso := {}])
    && t.test == s.test && t.chip.discard == s.chip.discard && t.chip.filter == s.chip.filter
    && t.chip.looped <= s.chip.looped + {p}
  }

  lemma FloodSafeShape(s: Lb, p: Port, iso: Vid, shown: bool)
    ensures IsolatedAs(s, DoEnableFloodSafe(s, p, iso, shown), p, iso, ReadPvid(s, p, shown))
  {
  }

  lemma IsolatePvidShape(s: Lb, p: Port, iso: Vid, shown: bool)
    ensures IsolatedAs(s, DoIsolatePvid(s, p, iso, shown, false), p, iso, ReadPvid(s, p, shown))
  {
  }

  lemma IsolateShape(s: Lb, op: Op)
    requires Isolates(op)
    ensures IsolatedAs(s, Step(s, op), op.p, op.iso, ReadPvid(s, op.p, op.shown))
  {
    if op.EnableFloodSafe? {
      FloodSafeShape(s, op.p, op.iso, op.shown);
    } else {
      IsolatePvidShape(s, op.p, op.iso, op.shown);
    }
  }

  lemma PutBoth(a: map<Port, Vid>, b: map<Port, Vid>, p: Port, v: Vid, w: Vid)
    ensures a[p := v] + b[p := w] == (a + b)[p := w]
  {
  }

  lemma PutSame(m: map<Port, Vid>, p: Port, v: Vid)
    requires p in m
    ensures m[p := v] == m <==> m[p] == v
  {
    if m[p := v] == m { assert m[p := v][p] == v; }
    if m[p] == v { assert m[p := v] == m; }
  }

  /** Isolations that are intact: every such port sits in its own isolation VLAN, which exists,
      is empty, and is not the test VLAN. */
  predicate Intact(s: Lb) {
    IntactParts(s.safe, s.chip.pvid, s.chip.members, s.test)
  }

  predicate IntactParts(safe: map<Port, Isolation>, pvid: map<Port, Vid>, members: map<Vid, set<Port>>,
                        test: TestVlan) {
    && (test.Test? ==> test.vid in members)
    && (forall p :: p in safe && safe[p].ByPvid? ==>
          && p in pvid && pvid[p] == safe[p].iso
          && safe[p].iso in members && members[safe[p].iso] == {}
          && (test.Test? ==> test.vid != safe[p].iso))
    && (forall p, q :: p in safe && q in safe && p != q && safe[p].ByPvid? && safe[q].ByPvid? ==>
          safe[p].iso != safe[q].iso)
  }

  /** Well-nested use: a port is isolated only when it is not, through a VLAN that does not exist,
      and after its own VLAN could be read; the test VLAN is set up once at a time, and neither
      set up nor dropped under a port that is isolated. */
  predicate Legal(s: Lb, op: Op) {
    match op
    case EnableFloodSafe(p, iso, shown) => p !in s.safe && iso !in s.chip.members && shown && p in s.chip.pvid
    case IsolatePvid(p, iso, shown, sw) =>
      p !in s.safe && (!sw ==> iso !in s.chip.members && shown && p in s.chip.pvid)
    case UseTestVlan(v, ps, _, _) =>
      s.test.NoTest? && v !in Isos(s.safe) && forall p :: p in ps ==> p !in s.safe
    case DropTestVlan => s.test.Test? ==> forall p :: p in s.test.ports ==> p !in s.safe
    case _ => true
  }

  predicate LegalRun(s: Lb, ops: seq<Op>)
    decreases |ops|
  {
    ops != [] ==> Legal(s, ops[0]) && LegalRun(Step(s, ops[0]), ops[1..])
  }

  /** The VLANs of the chip without the isolation VLANs, and how they move when isolation does
      not exist. */
  function HomeVlans(s: Lb): map<Vid, set<Port>> {
    s.chip.members - Isos(s.safe)
  }

  function HomeVlansStep(h: map<Vid, set<Port>>, s: Lb, op: Op): map<Vid, set<Port>> {
    match op
    case UseTestVlan(v, ps, _, _) => h[v := (if v in h then h[v] else {}) + set p | p in ps]
    case DropTestVlan => if s.test.Test? then h - {s.test.vid} else h
    case _ => h
  }

  function HomeVlansRun(h: map<Vid, set<Port>>, s: Lb, ops: seq<Op>): map<Vid, set<Port>>
    decreases |ops|
  {
    if ops == [] then h else HomeVlansRun(HomeVlansStep(h, s, ops[0]), Step(s, ops[0]), ops[1..])
  }

  lemma IsosPut(safe: map<Port, Isolation>, p: Port, i: Isolation)
    requires p !in safe
    ensures Isos(safe[p := i]) == Isos(safe) + if i.ByPvid? then {i.iso} else {}
  {
    var t := safe[p := i];
    forall v | v in Isos(safe) ensures v in Isos(t) {
      var q :| q in safe && safe[q].ByPvid? && safe[q].iso == v;
      assert t[q] == safe[q];
    }
    if i.ByPvid? { assert t[p].iso in Isos(t); }
  }

  lemma IsolateStep(s: Lb, op: Op)
    requires Intact(s) && Legal(s, op) && Isolates(op)
    ensures Intact(Step(s, op)) && Home(Step(s, op)) == Home(s) && HomeVlans(Step(s, op)) == HomeVlans(s)
  {
    IsolationRecordsHome(s, op);
    var i := ByPvid(op.iso, s.chip.pvid[op.p]);
    IsosPut(s.safe, op.p, i);
    IsolateShape(s, op);
    IsolateParts(s.safe, s.chip.pvid, s.chip.members, s.test, op.p, i);
  }

  lemma IsolateParts(safe: map<Port, Isolation>, pvid: map<Port, Vid>, members: map<Vid, set<Port>>, test: TestVlan,
                     p: Port, i: Isolation)
    requires IntactParts(safe, pvid, members, test) && p !in safe && i.ByPvid? && i.iso !in members
    ensures IntactParts(safe[p := i], pvid[p := i.iso], members[i.iso := {}], test)
    ensures members[i.iso := {}] - (Isos(safe) + {i.iso}) == members - Isos(safe)
  {
  }

  lemma DiscardStep(s: Lb, p: Port)
    requires Intact(s) && p !in s.safe
    ensures var t := DoIsolatePvid(s, p, 0, true, true);
            Intact(t) && Home(t) == Home(s) && HomeVlans(t) == HomeVlans(s)
  {
    OrigsPut(s.safe, p, ByDiscard);
    IsosPut(s.safe, p, ByDiscard);
    assert Origs(s.safe) - {p} == Origs(s.safe);
  }

  lemma UndoParts(safe: map<Port, Isolation>, pvid: map<Port, Vid>, members: map<Vid, set<Port>>,
                  test: TestVlan, p: Port)
    requires IntactParts(safe, pvid, members, test) && p in safe
    ensures safe[p].ByDiscard? ==> IntactParts(safe - {p}, pvid, members, test) && Isos(safe - {p}) == Isos(safe)
    ensures safe[p].ByPvid? ==>
              && IntactParts(safe - {p}, pvid[p := safe[p].orig], members - {safe[p].iso}, test)
              && members - {safe[p].iso} - Isos(safe - {p}) == members - Isos(safe)
  {
    var left := safe - {p};
    forall v | v in Isos(safe) && !(safe[p].ByPvid? && v == safe[p].iso) ensures v in Isos(left) {
      var q :| q in safe && safe[q].ByPvid? && safe[q].iso == v;
      assert q in left && left[q] == safe[q];
    }
    forall v | v in Isos(left) ensures v in Isos(safe) {
      var q :| q in left && left[q].ByPvid? && left[q].iso == v;
      assert safe[q] == left[q];
    }
    if safe[p].ByPvid? { assert safe[p].iso in Isos(safe); }
  }

  /** Taking one isolation back. */
  lemma UndoStep(s: Lb, p: Port)
    requires Intact(s) && p in s.safe
    ensures var t := Undo(s, p).(safe := s.safe - {p});
            Intact(t) && Home(t) == Home(s) && HomeVlans(t) == HomeVlans(s)
  {
    UndoParts(s.safe, s.chip.pvid, s.chip.members, s.test, p);
    OrigsPut(s.safe, p, ByDiscard);
    if s.safe[p].ByPvid? {
      assert s.chip.pvid[p := s.safe[p].orig] + (Origs(s.safe) - {p}) == s.chip.pvid + Origs(s.safe);
    } else {
      assert Origs(s.safe) - {p} == Origs(s.safe);
    }
  }

  lemma SetOutsideIsolation(safe: map<Port, Isolation>, pvid: map<Port, Vid>, ps: seq<Port>, v: Vid,
                            left: map<Port, Vid>)
    requires forall p :: p in ps ==> p !in safe
    ensures SetPvids(pvid, ps, v, left) + Origs(safe) == SetPvids(pvid + Origs(safe), ps, v, left)
    ensures forall p :: p in safe && p in pvid ==>
              p in SetPvids(pvid, ps, v, left) && SetPvids(pvid, ps, v, left)[p] == pvid[p]
  {
  }

  lemma UseTestParts(safe: map<Port, Isolation>, pvid: map<Port, Vid>, members: map<Vid, set<Port>>, test: TestVlan,
                     v: Vid, ps: seq<Port>, left: map<Port, Vid>, add: set<Port>, test': TestVlan)
    requires IntactParts(safe, pvid, members, test) && v !in Isos(safe) && test'.Test? && test'.vid == v
    requires forall p :: p in ps ==> p !in safe
    ensures IntactParts(safe, SetPvids(pvid, ps, v, left), members[v := add], test')
    ensures members[v := add] - Isos(safe) == (members - Isos(safe))[v := add]
    ensures SetPvids(pvid, ps, v, left) + Origs(safe) == SetPvids(pvid + Origs(safe), ps, v, left)
  {
    SetOutsideIsolation(safe, pvid, ps, v, left);
    forall p | p in safe && safe[p].ByPvid? ensures safe[p].iso != v {
      assert safe[p].iso in Isos(safe);
    }
  }

  lemma UseTestStep(s: Lb, v: Vid, ps: seq<Port>, restore: Vid, left: map<Port, Vid>)
    requires Intact(s) && Legal(s, UseTestVlan(v, ps, restore, left))
    ensures var t := DoUseTestVlan(s, v, ps, restore, left);
            && Intact(t) && Home(t) == SetPvids(Home(s), ps, v, left)
            && HomeVlans(t) == HomeVlansStep(HomeVlans(s), s, UseTestVlan(v, ps, restore, left))
  {
    var t := DoUseTestVlan(s, v, ps, restore, left);
    var add := (if v in s.chip.members then s.chip.members[v] else {}) + set p | p in ps;
    assert t.chip.members == s.chip.members[v := add];
    UseTestParts(s.safe, s.chip.pvid, s.chip.members, s.test, v, ps, left, add, t.test);
  }

  lemma DropTestParts(safe: map<Port, Isolation>, pvid: map<Port, Vid>, members: map<Vid, set<Port>>, test: TestVlan)
    requires IntactParts(safe, pvid, members, test) && test.Test? && forall p :: p in test.ports ==> p !in safe
    ensures IntactParts(safe, SetPvids(pvid, test.ports, test.restore, map[]), members - {test.vid}, NoTest)
    ensures members - {test.vid} - Isos(safe) == members - Isos(safe) - {test.vid}
    ensures SetPvids(pvid, test.ports, test.restore, map[]) + Origs(safe) ==
            SetPvids(pvid + Origs(safe), test.ports, test.restore, map[])
  {
    SetOutsideIsolation(safe, pvid, test.ports, test.restore, map[]);
  }

  lemma DropTestStep(s: Lb)
    requires Intact(s) && Legal(s, DropTestVlan)
    ensures var t := DoDropTestVlan(s);
            && Intact(t) && Home(t) == HomeStep(Home(s), s, DropTestVlan)
            && HomeVlans(t) == HomeVlansStep(HomeVlans(s), s, DropTestVlan)
  {
    if s.test.Test? {
      DropTestParts(s.safe, s.chip.pvid, s.chip.members, s.test);
    }
  }

  /** The operation kept the isolations intact, and moved the home VLANs as if isolation did not
      exist. */
  predicate Homely(s: Lb, op: Op, t: Lb) {
    && Intact(t)
    && Home(t) == HomeStep(Home(s), s, op)
    && HomeVlans(t) == HomeVlansStep(HomeVlans(s), s, op)
  }

  predicate SameParts(s: Lb, t: Lb) {
    t.safe == s.safe && t.chip.pvid == s.chip.pvid && t.chip.members == s.chip.members && t.test == s.test
  }

  lemma DisableFloodSafeHome(s: Lb, p: Port)
    requires Intact(s)
    ensures Homely(s, DisableFloodSafe(p), DoDisableFloodSafe(s, p))
  {
    var u := if p in s.safe then Undo(s, p).(safe := s.safe - {p}) else s;
    if p in s.safe { UndoStep(s, p); }
    DisableKeepsParts(u, p);
  }

  lemma DisableKeepsParts(u: Lb, p: Port)
    ensures SameParts(u, DoDisable(u, p))
  {
  }

  lemma RestorePvidHome(s: Lb, p: Port)
    requires Intact(s)
    ensures Homely(s, RestorePvid(p), DoRestorePvid(s, p))
  {
    if p in s.safe {
      UndoStep(s, p);
      assert SameParts(Undo(s, p).(safe := s.safe - {p}), DoRestorePvid(s, p));
    }
  }

  lemma ClearHome(s: Lb)
    requires Intact(s)
    ensures var u := UndoAll(s);
            && Intact(u) && Home(u) == Home(s) && HomeVlans(u) == HomeVlans(s)
            && u.chip.pvid == Home(s) && u.chip.members == HomeVlans(s)
  {
    assert Isos(map[]) == {} && Origs(map[]) == map[];
    assert HomeVlans(s) - {} == HomeVlans(s);
    assert Home(s) + map[] == Home(s);
  }

  lemma ClearsHome(s: Lb, scope: set<Port>)
    requires Intact(s)
    ensures Homely(s, Cleanup, DoCleanup(s))
    ensures Homely(s, ForceClearAll(scope), DoForceClearAll(s, scope))
  {
    ClearHome(s);
    assert SameParts(UndoAll(s), DoCleanup(s));
    assert SameParts(UndoAll(s), DoForceClearAll(s, scope));
  }

  lemma SamePartsHome(s: Lb, op: Op, t: Lb)
    requires Intact(s) && SameParts(s, t) && (op.Hold? || op.Release? || op.Enable? || op.Disable?)
    ensures Homely(s, op, t)
  {
  }

  lemma EnableKeepsParts(s: Lb, p: Port, m: Mode, d: bool)
    ensures SameParts(s, DoEnable(s, p, m, d))
  {
  }

  lemma StepHome(s: Lb, op: Op)
    requires Intact(s) && Legal(s, op)
    ensures Homely(s, op, Step(s, op))
  {
    match op
    case UseTestVlan(v, ps, r, left) => UseTestStep(s, v, ps, r, left);
    case DropTestVlan => DropTestStep(s);
    case EnableFloodSafe(p, iso, shown) => IsolateStep(s, op);
    case IsolatePvid(p, iso, shown, sw) => if sw { DiscardStep(s, p); } else { IsolateStep(s, op); }
    case RestorePvid(p) => RestorePvidHome(s, p);
    case DisableFloodSafe(p) => DisableFloodSafeHome(s, p);
    case Cleanup => ClearsHome(s, {});
    case ForceClearAll(scope) => ClearsHome(s, scope);
    case Hold(p, m) => SamePartsHome(s, op, DoHold(s, p, m));
    case Release(p) => SamePartsHome(s, op, DoRelease(s, p));
    case Enable(p, m, d) => EnableKeepsParts(s, p, m, d); SamePartsHome(s, op, DoEnable(s, p, m, d));
    case Disable(p) => DisableKeepsParts(s, p); SamePartsHome(s, op, DoDisable(s, p));
  }

  lemma {:induction false} RunHome(s: Lb, ops: seq<Op>)
    requires Intact(s) && LegalRun(s, ops)
    ensures Intact(Run(s, ops))
    ensures Home(Run(s, ops)) == HomeRun(Home(s), s, ops)
    ensures HomeVlans(Run(s, ops)) == HomeVlansRun(HomeVlans(s), s, ops)
    decreases |ops|
  {
    if ops != [] {
      StepHome(s, ops[0]);
      RunHome(Step(s, ops[0]), ops[1..]);
    }
  }

  /** A full clear after any well-nested run: every isolated port is back in the VLAN it would be
      in had nothing ever been isolated, no isolation VLAN is left, exactly the held ports are
      looped if the clear reaches the others, and the ports reported are the tracked ones that
      are not held. */
  lemma ForceClearRestores(s: Lb, ops: seq<Op>, scope: set<Port>)
    requires Tracked(s) && ClearsReach(s, ops) && Intact(s) && LegalRun(s, ops)
    ensures var r := Run(s, ops);
            var t := DoForceClearAll(r, scope);
            && t.chip.pvid == HomeRun(Home(s), s, ops)
            && t.chip.members == HomeVlansRun(HomeVlans(s), s, ops)
            && t.safe == map[]
            && (t.chip.looped == r.held.Keys <==> r.chip.looped <= scope + r.held.Keys)
            && Cleared(r) == r.chip.looped + r.safe.Keys - r.held.Keys
  {
    RunTracked(s, ops);
    RunHome(s, ops);
    var r := Run(s, ops);
    ClearHome(r);
    var t := DoForceClearAll(r, scope);
    assert t.chip.looped == r.chip.looped - scope + r.held.Keys;
  }

  // ---- the test VLAN ----

  predicate TestCall(op: Op) { op.UseTestVlan? || op.DropTestVlan? }

  predicate NoTestCalls(ops: seq<Op>) { forall i :: 0 <= i < |ops| ==> !TestCall(ops[i]) }

  /** What taking an isolation back leaves alone. */
  predicate SameRest(s: Lb, t: Lb) { t.test == s.test && t.held == s.held && t.touched == s.touched }

  lemma RestoreRest(s: Lb, p: Port)
    ensures SameRest(s, DoRestorePvid(s, p)) && DoRestorePvid(s, p).hw == s.hw
  {
    if p in s.safe {
      match s.safe[p]
      case ByDiscard =>
      case ByPvid(iso, orig) =>
    }
  }

  lemma UndoRest(s: Lb, p: Port)
    requires p in s.safe
    ensures SameRest(s, Undo(s, p)) && Undo(s, p).hw == s.hw
  {
    match s.safe[p]
    case ByDiscard =>
    case ByPvid(iso, orig) =>
  }

  lemma DisableRest(s: Lb, p: Port)
    ensures SameRest(s, DoDisable(s, p)) && DoDisable(s, p).hw == s.hw - {p}
  {
  }

  lemma DisableFloodSafeRest(s: Lb, p: Port)
    ensures SameRest(s, DoDisableFloodSafe(s, p)) && DoDisableFloodSafe(s, p).hw == s.hw - {p}
  {
    if p in s.safe { UndoRest(s, p); }
    DisableRest(if p in s.safe then Undo(s, p).(safe := s.safe - {p}) else s, p);
  }

  lemma StepTest(s: Lb, op: Op)
    requires !TestCall(op)
    ensures Step(s, op).test == s.test
  {
    match op
    case RestorePvid(p) => RestoreRest(s, p);
    case DisableFloodSafe(p) => DisableFloodSafeRest(s, p);
    case _ =>
  }

  lemma {:induction false} RunTest(s: Lb, ops: seq<Op>)
    requires NoTestCalls(ops)
    ensures Run(s, ops).test == s.test
    decreases |ops|
  {
    if ops != [] {
      assert !TestCall(ops[0]);
      StepTest(s, ops[0]);
      assert forall i :: 0 <= i < |ops| - 1 ==> ops[1..][i] == ops[i + 1];
      RunTest(Step(s, ops[0]), ops[1..]);
    }
  }

  /** Dropping the test VLAN returns every port it was set up for, whatever else was done in between: each
      is in the VLAN that was given to return to, the other ports stay where they are, and the test VLAN
      is gone. */
  lemma TestVlanReturnsPorts(s: Lb, v: Vid, ps: seq<Port>, restore: Vid, left: map<Port, Vid>, ops: seq<Op>)
    requires NoTestCalls(ops)
    ensures var before := Run(DoUseTestVlan(s, v, ps, restore, left), ops);
            var after := DoDropTestVlan(before);
            && (forall p :: p in ps ==> p in after.chip.pvid && after.chip.pvid[p] == restore)
            && (forall p :: p !in ps ==> (p in after.chip.pvid <==> p in before.chip.pvid))
            && (forall p :: p !in ps && p in before.chip.pvid ==> after.chip.pvid[p] == before.chip.pvid[p])
            && after.chip.members == before.chip.members - {v} && after.test == NoTest
  {
    RunTest(DoUseTestVlan(s, v, ps, restore, left), ops);
  }

  lemma {:induction false} HomeRunStays(h: map<Port, Vid>, s: Lb, ops: seq<Op>)
    requires NoTestCalls(ops)
    ensures HomeRun(h, s, ops) == h
    decreases |ops|
  {
    if ops != [] {
      assert !TestCall(ops[0]);
      assert forall i :: 0 <= i < |ops| - 1 ==> ops[1..][i] == ops[i + 1];
      HomeRunStays(h, Step(s, ops[0]), ops[1..]);
    }
  }

  lemma SetTwice(h: map<Port, Vid>, ps: seq<Port>, v: Vid, left: map<Port, Vid>, restore: Vid)
    ensures SetPvids(SetPvids(h, ps, v, left), ps, restore, map[]) == SetPvids(h, ps, restore, map[])
  {
  }

  /** And over every well-nested run in between, isolations included, a port outside the test VLAN is at
      home where it was before the set-up. */
  lemma TestVlanKeepsOthers(s: Lb, v: Vid, ps: seq<Port>, restore: Vid, left: map<Port, Vid>, ops: seq<Op>)
    requires Intact(s) && Legal(s, UseTestVlan(v, ps, restore, left)) && NoTestCalls(ops)
    requires LegalRun(DoUseTestVlan(s, v, ps, restore, left), ops)
    requires Legal(Run(DoUseTestVlan(s, v, ps, restore, left), ops), DropTestVlan)
    ensures var after := DoDropTestVlan(Run(DoUseTestVlan(s, v, ps, restore, left), ops));
            Intact(after) && Home(after) == SetPvids(Home(s), ps, restore, map[])
  {
    var up := DoUseTestVlan(s, v, ps, restore, left);
    var before := Run(up, ops);
    UseTestStep(s, v, ps, restore, left);
    RunHome(up, ops);
    HomeRunStays(Home(up), up, ops);
    RunTest(up, ops);
    DropTestStep(before);
    SetTwice(Home(s), ps, v, left, restore);
  }

  /** The tries of one port are given up if and only if ten writes in a row were overwritten by VLANs that
      do not read as the wanted one. */
  lemma GivesUpExactly(v: Vid, back: seq<Maybe<Vid>>)
    ensures Settles(v, Tried(back)).Nothing? <==>
            |back| >= 10 && forall i :: 0 <= i < 10 ==> back[i].Just? && !ReadsAs(back[i].value, v)
  {
    var t := Tried(back);
    SettlesExactly(v, t);
    if |back| < 10 {
      assert t[|back|] == Nothing;
    } else {
      assert |t| == 10;
    }
  }

  // ---- modes ----

  /** The ports whose loopback the operation switches off, and those it switches on, with their modes. */
  function SwitchedOff(s: Lb, op: Op): set<Port> {
    match op
    case Disable(p) => {p}
    case DisableFloodSafe(p) => {p}
    case Cleanup => s.on.Keys + s.safe.Keys
    case ForceClearAll(scope) => scope
    case _ => {}
  }

  function SwitchedOn(s: Lb, op: Op): map<Port, Mode> {
    match op
    case Enable(p, m, _) => map[p := m]
    case EnableFloodSafe(p, _, _) => map[p := s.mode]
    case ForceClearAll(_) => s.held
    case _ => map[]
  }

  lemma NoSwitch(hw: map<Port, Mode>)
    ensures hw - {} + map[] == hw
  {
  }

  lemma SwitchOne(hw: map<Port, Mode>, p: Port, m: Mode)
    ensures hw - {} + map[p := m] == hw[p := m] && hw - {p} + map[] == hw - {p}
  {
  }

  lemma EnableSwitches(s: Lb, p: Port, m: Mode, d: bool)
    ensures DoEnable(s, p, m, d).hw == s.hw[p := m] && DoEnable(s, p, m, d).held == s.held
  {
  }

  lemma FloodSafeSwitches(s: Lb, p: Port, iso: Vid, shown: bool)
    ensures DoEnableFloodSafe(s, p, iso, shown).hw == s.hw[p := s.mode]
  {
  }

  lemma CleanupSwitches(s: Lb)
    ensures DoCleanup(s).hw == s.hw - (s.on.Keys + s.safe.Keys) + map[]
  {
    assert s.safe.Keys + s.on.Keys == s.on.Keys + s.safe.Keys;
  }

  lemma ClearSwitches(s: Lb, scope: set<Port>)
    ensures DoForceClearAll(s, scope).hw == s.hw - scope + s.held
  {
  }

  /** The mode of every port in the chip, after every operation. */
  lemma StepModes(s: Lb, op: Op)
    ensures Step(s, op).hw == s.hw - SwitchedOff(s, op) + SwitchedOn(s, op)
  {
    NoSwitch(s.hw);
    match op
    case Enable(p, m, d) => SwitchOne(s.hw, p, m); EnableSwitches(s, p, m, d);
    case EnableFloodSafe(p, iso, shown) => SwitchOne(s.hw, p, s.mode); FloodSafeSwitches(s, p, iso, shown);
    case Disable(p) => SwitchOne(s.hw, p, s.mode);
    case RestorePvid(p) => RestoreRest(s, p);
    case DisableFloodSafe(p) => DisableFloodSafeRest(s, p); SwitchOne(s.hw, p, s.mode);
    case DropTestVlan => DropTestLeaves(s);
    case UseTestVlan(v, ps, r, left) => UseTestLeaves(s, v, ps, r, left);
    case IsolatePvid(p, iso, shown, sw) => IsolateLeaves(s, p, iso, shown, sw);
    case Cleanup => CleanupSwitches(s);
    case ForceClearAll(scope) => ClearSwitches(s, scope);
    case Hold(_, _) =>
    case Release(_) =>
  }

  /** The ports the operation takes off the record, and those it puts on it. */
  function Untracked(s: Lb, op: Op): set<Port> {
    match op
    case Disable(p) => {p}
    case DisableFloodSafe(p) => {p}
    case Cleanup => s.on.Keys
    case ForceClearAll(_) => s.on.Keys
    case _ => {}
  }

  function Noted(s: Lb, op: Op): map<Port, (Mode, bool)> {
    match op
    case Enable(p, m, d) => map[p := (m, d)]
    case EnableFloodSafe(p, _, _) => map[p := (Mac, false)]
    case ForceClearAll(_) => map p | p in s.held :: (s.held[p], false)
    case _ => map[]
  }

  lemma NotesOn(on: map<Port, (Mode, bool)>, ps: set<Port>, put: map<Port, (Mode, bool)>)
    ensures ps == {} && put == map[] ==> on - ps + put == on
    ensures put == map[] ==> on - ps + put == on - ps
    ensures ps == {} ==> on - ps + put == on + put
    ensures ps == on.Keys ==> on - ps + put == put
  {
  }

  lemma NoteOne(on: map<Port, (Mode, bool)>, p: Port, n: (Mode, bool))
    ensures on[p := n] == on + map[p := n]
  {
  }

  lemma EnableNotes(s: Lb, p: Port, m: Mode, d: bool)
    ensures DoEnable(s, p, m, d).on == s.on[p := (m, d)]
  {
  }

  lemma FloodSafeNotes(s: Lb, p: Port, iso: Vid, shown: bool)
    ensures DoEnableFloodSafe(s, p, iso, shown).on == s.on[p := (Mac, false)]
  {
  }

  lemma DisableNotes(s: Lb, p: Port)
    ensures DoDisable(s, p).on == s.on - {p} && DoDisableFloodSafe(s, p).on == s.on - {p}
  {
    if p in s.safe { UndoKeepsOn(s, p); }
  }

  lemma UndoKeepsOn(s: Lb, p: Port)
    requires p in s.safe
    ensures Undo(s, p).on == s.on
  {
    match s.safe[p]
    case ByDiscard =>
    case ByPvid(iso, orig) =>
  }

  lemma ClearsNote(s: Lb, scope: set<Port>)
    ensures DoCleanup(s).on == map[] && DoForceClearAll(s, scope).on == Noted(s, ForceClearAll(scope))
  {
  }

  /** What is on record for every port, after every operation. */
  lemma StepNotes(s: Lb, op: Op)
    ensures Step(s, op).on == s.on - Untracked(s, op) + Noted(s, op)
  {
    NotesOn(s.on, Untracked(s, op), Noted(s, op));
    match op
    case Enable(p, m, d) => EnableNotes(s, p, m, d); NoteOne(s.on, p, (m, d));
    case EnableFloodSafe(p, iso, shown) => FloodSafeNotes(s, p, iso, shown); NoteOne(s.on, p, (Mac, false));
    case Disable(p) => DisableNotes(s, p);
    case DisableFloodSafe(p) => DisableNotes(s, p);
    case Cleanup => ClearsNote(s, {});
    case ForceClearAll(scope) => ClearsNote(s, scope);
    case _ => LeavesTracked(s, op);
  }

  /** The last `hold` of a port that no `release` followed. */
  function HeldAs(held: map<Port, Mode>, ops: seq<Op>, p: Port): Maybe<Mode>
    decreases |ops|
  {
    if ops == [] then (if p in held then Just(held[p]) else Nothing)
    else
      var n := |ops| - 1;
      if ops[n].Hold? && ops[n].p == p then Just(ops[n].m)
      else if ops[n].Release? && ops[n].p == p then Nothing
      else HeldAs(held, ops[..n], p)
  }

  lemma ClearsHeld(s: Lb, scope: set<Port>)
    ensures DoCleanup(s).held == DoForceClearAll(s, scope).held == s.held
  {
  }

  lemma TestHeld(s: Lb, v: Vid, ps: seq<Port>, restore: Vid, left: map<Port, Vid>)
    ensures DoUseTestVlan(s, v, ps, restore, left).held == DoDropTestVlan(s).held == s.held
  {
  }

  lemma IsolatesHeld(s: Lb, p: Port, iso: Vid, shown: bool, sw: bool)
    ensures DoIsolatePvid(s, p, iso, shown, sw).held == DoEnableFloodSafe(s, p, iso, shown).held == s.held
  {
  }

  lemma StepHeld(s: Lb, op: Op)
    requires !op.Hold? && !op.Release?
    ensures Step(s, op).held == s.held
  {
    match op
    case RestorePvid(p) => RestoreRest(s, p);
    case DisableFloodSafe(p) => DisableFloodSafeRest(s, p);
    case Cleanup => ClearsHeld(s, {});
    case ForceClearAll(scope) => ClearsHeld(s, scope);
    case UseTestVlan(v, ps, r, left) => TestHeld(s, v, ps, r, left);
    case DropTestVlan => TestHeld(s, 0, [], 0, map[]);
    case IsolatePvid(p, iso, shown, sw) => IsolatesHeld(s, p, iso, shown, sw);
    case EnableFloodSafe(p, iso, shown) => IsolatesHeld(s, p, iso, shown, false);
    case Enable(p, m, d) => EnableSwitches(s, p, m, d);
    case Disable(p) => DisableRest(s, p);
  }

  lemma {:induction false} RunAppend(s: Lb, ops: seq<Op>)
    requires ops != []
    ensures Run(s, ops) == Step(Run(s, ops[..|ops| - 1]), ops[|ops| - 1])
    decreases |ops|
  {
    if |ops| > 1 {
      RunAppend(Step(s, ops[0]), ops[1..]);
      assert ops[1..][..|ops| - 2] == ops[..|ops| - 1][1..];
    } else {
      assert ops[1..] == [] && ops[..0] == [];
    }
  }

  lemma {:induction false} RunHeld(s: Lb, ops: seq<Op>, p: Port)
    ensures var h := Run(s, ops).held;
            HeldAs(s.held, ops, p) == if p in h then Just(h[p]) else Nothing
    decreases |ops|
  {
    if ops != [] {
      var n := |ops| - 1;
      RunAppend(s, ops);
      RunHeld(s, ops[..n], p);
      if !ops[n].Hold? && !ops[n].Release? { StepHeld(Run(s, ops[..n]), ops[n]); }
    }
  }

  /** What a full clear does to one port after any run: if it was held and not released it is looped
      again, in the mode it was held with, and tracked so; otherwise it is not tracked, and not looped if
      the clear reaches it. */
  lemma ForceClearReopensHeld(s: Lb, ops: seq<Op>, scope: set<Port>, p: Port)
    ensures var t := DoForceClearAll(Run(s, ops), scope);
            match HeldAs(s.held, ops, p)
            case Just(m) =>
              p in t.chip.looped && p in t.hw && t.hw[p] == m && p in t.on && t.on[p] == (m, false)
            case Nothing =>
              p !in t.on && (p in scope ==> p !in t.chip.looped && p !in t.hw)
  {
    RunHeld(s, ops, p);
  }

  /** The mark by which the caller decides to wait: some loopback or a test VLAN was set up. */
  lemma {:induction false} TouchedExactly(s: Lb, ops: seq<Op>)
    ensures Run(s, ops).touched <==>
            s.touched || exists i :: 0 <= i < |ops| &&
                           (ops[i].Enable? || ops[i].EnableFloodSafe? || ops[i].UseTestVlan?)
    decreases |ops|
  {
    if ops != [] {
      StepTouched(s, ops[0]);
      TouchedExactly(Step(s, ops[0]), ops[1..]);
      assert forall i :: 0 < i < |ops| ==> ops[i] == ops[1..][i - 1];
      assert forall i :: 0 <= i < |ops| - 1 ==> ops[1..][i] == ops[i + 1];
    }
  }

  lemma StepTouched(s: Lb, op: Op)
    ensures Step(s, op).touched <==> s.touched || op.Enable? || op.EnableFloodSafe? || op.UseTestVlan?
  {
    match op
    case RestorePvid(p) => RestoreRest(s, p);
    case DisableFloodSafe(p) => DisableFloodSafeRest(s, p);
    case _ =>
  }

  // ---- discards ----

  /** The ports whose loopback is on record as one with a discard. */
  function Flagged(on: map<Port, (Mode, bool)>, ps: set<Port>): set<Port> {
    set p | p in on && p in ps && on[p].1
  }

  /** The discards an operation lifts: by the flag on record for a loopback, or, for `restore_pvid`
      alone, by the entry of an isolation. */
  function Lifted(s: Lb, op: Op): set<Port> {
    match op
    case Disable(p) => Flagged(s.on, {p})
    case DisableFloodSafe(p) => Flagged(s.on, {p})
    case Cleanup => Flagged(s.on, s.on.Keys)
    case RestorePvid(p) => if p in s.safe && s.safe[p].ByDiscard? then {p} else {}
    case _ => {}
  }

  /** The discard an operation asks for. */
  function Asked(op: Op): set<Port> {
    match op
    case Enable(p, _, d) => if d then {p} else {}
    case IsolatePvid(p, _, _, sw) => if sw then {p} else {}
    case _ => {}
  }

  lemma DisableDiscards(s: Lb, p: Port)
    ensures DoDisable(s, p).chip.discard == s.chip.discard - Flagged(s.on, {p})
  {
    FlaggedOne(s.on, p);
  }

  lemma DisableFloodSafeDiscards(s: Lb, p: Port)
    ensures DoDisableFloodSafe(s, p).chip.discard == s.chip.discard - Flagged(s.on, {p})
  {
    DisableDiscards(if p in s.safe then Undo(s, p).(safe := s.safe - {p}) else s, p);
  }

  lemma CleanupDiscards(s: Lb)
    ensures DoCleanup(s).chip.discard == s.chip.discard - Flagged(s.on, s.on.Keys)
  {
    assert Flagged(s.on, s.on.Keys) == set p | p in s.on && s.on[p].1;
  }

  lemma EnableDiscards(s: Lb, p: Port, m: Mode, d: bool)
    ensures DoEnable(s, p, m, d).chip.discard == s.chip.discard + if d then {p} else {}
  {
  }

  lemma IsolateDiscards(s: Lb, p: Port, iso: Vid, shown: bool, sw: bool)
    ensures DoIsolatePvid(s, p, iso, shown, sw).chip.discard == s.chip.discard + if sw then {p} else {}
  {
  }

  lemma RestoreDiscards(s: Lb, p: Port)
    ensures p in s.safe && s.safe[p].ByDiscard? ==> DoRestorePvid(s, p).chip.discard == s.chip.discard - {p}
    ensures p !in s.safe || s.safe[p].ByPvid? ==> DoRestorePvid(s, p).chip.discard == s.chip.discard
  {
  }

  lemma ClearDiscards(s: Lb, scope: set<Port>)
    ensures DoForceClearAll(s, scope).chip.discard == s.chip.discard
  {
  }

  lemma StepDiscards(s: Lb, op: Op)
    ensures Step(s, op).chip.discard == s.chip.discard - Lifted(s, op) + Asked(op)
  {
    match op
    case Disable(p) => DisableDiscards(s, p);
    case DisableFloodSafe(p) => DisableFloodSafeDiscards(s, p);
    case Cleanup => CleanupDiscards(s);
    case Enable(p, m, d) => EnableDiscards(s, p, m, d);
    case IsolatePvid(p, iso, shown, sw) => IsolateDiscards(s, p, iso, shown, sw);
    case RestorePvid(p) => RestoreDiscards(s, p);
    case Hold(_, _) =>
    case Release(_) =>
    case UseTestVlan(_, _, _, _) =>
    case DropTestVlan =>
    case EnableFloodSafe(_, _, _) =>
    case ForceClearAll(_) =>
  }

  lemma FlaggedOne(on: map<Port, (Mode, bool)>, p: Port)
    ensures Flagged(on, {p}) == if p in on && on[p].1 then {p} else {}
  {
  }

  /** When an isolation by discard ends: `disable_flood_safe` and `cleanup` lift it if and only if
      the loopback of the port is on record with a discard of its own, `restore_pvid` always, and
      a full clear never. */
  lemma DiscardLiftedExactly(s: Lb, p: Port, scope: set<Port>)
    requires p in s.safe && s.safe[p].ByDiscard? && p in s.chip.discard
    ensures p !in DoDisableFloodSafe(s, p).chip.discard <==> p in s.on && s.on[p].1
    ensures p !in DoCleanup(s).chip.discard <==> p in s.on && s.on[p].1
    ensures p !in DoRestorePvid(s, p).chip.discard
    ensures p in DoForceClearAll(s, scope).chip.discard
  {
    DisableFloodSafeDiscards(s, p);
    CleanupDiscards(s);
    RestoreDiscards(s, p);
    ClearDiscards(s, scope);
    assert forall ps: set<Port> :: p in Flagged(s.on, ps) <==> p in ps && p in s.on && s.on[p].1;
  }

  /** Nothing on record would lift a discard. */
  predicate Forgotten(s: Lb) {
    && (forall p :: p in s.on ==> !s.on[p].1)
    && (forall p :: p in s.safe ==> !s.safe[p].ByDiscard?)
  }

  lemma AsksExactly(op: Op)
    ensures Asked(op) == {} <==> !(op.Enable? && op.discard) && !(op.IsolatePvid? && op.switchport)
  {
    if op.Enable? && op.discard { assert op.p in Asked(op); }
    if op.IsolatePvid? && op.switchport { assert op.p in Asked(op); }
  }

  lemma ForgottenLiftsNothing(s: Lb, op: Op)
    requires Forgotten(s)
    ensures Lifted(s, op) == {}
  {
  }

  lemma ForgottenOn(s: Lb, op: Op)
    requires Forgotten(s) && (op.Enable? ==> !op.discard)
    ensures forall p :: p in Step(s, op).on ==> !Step(s, op).on[p].1
  {
    match op
    case Enable(_, _, _) =>
    case IsolatePvid(_, _, _, _) =>
    case Disable(_) =>
    case DisableFloodSafe(_) =>
    case Cleanup =>
    case RestorePvid(_) =>
    case Hold(_, _) =>
    case Release(_) =>
    case UseTestVlan(_, _, _, _) =>
    case DropTestVlan =>
    case EnableFloodSafe(_, _, _) =>
    case ForceClearAll(_) =>
  }

  lemma IsolatedByPvid(s: Lb, p: Port, iso: Vid, shown: bool)
    ensures DoIsolatePvid(s, p, iso, shown, false).safe == s.safe[p := ByPvid(iso, ReadPvid(s, p, shown))]
    ensures DoEnableFloodSafe(s, p, iso, shown).safe == s.safe[p := ByPvid(iso, ReadPvid(s, p, shown))]
  {
  }

  lemma ForgottenSafe(s: Lb, op: Op)
    requires Forgotten(s) && (op.IsolatePvid? ==> !op.switchport)
    ensures forall p :: p in Step(s, op).safe ==> Step(s, op).safe[p].ByPvid?
  {
    match op
    case IsolatePvid(p, iso, shown, _) => IsolatedByPvid(s, p, iso, shown);
    case EnableFloodSafe(p, iso, shown) => IsolatedByPvid(s, p, iso, shown);
    case _ => SafeShrinks(s, op);
  }

  lemma SafeShrinks(s: Lb, op: Op)
    requires !op.IsolatePvid? && !op.EnableFloodSafe?
    ensures forall p :: p in Step(s, op).safe ==> p in s.safe && Step(s, op).safe[p] == s.safe[p]
  {
    match op
    case Enable(_, _, _) =>
    case Disable(_) =>
    case DisableFloodSafe(_) =>
    case Cleanup =>
    case RestorePvid(_) =>
    case Hold(_, _) =>
    case Release(_) =>
    case UseTestVlan(_, _, _, _) =>
    case DropTestVlan =>
    case ForceClearAll(_) =>
  }

  lemma ForgottenStays(s: Lb, op: Op)
    requires Forgotten(s) && Asked(op) == {}
    ensures Forgotten(Step(s, op)) && Step(s, op).chip.discard == s.chip.discard
  {
    AsksExactly(op);
    ForgottenOn(s, op);
    ForgottenSafe(s, op);
    ForgottenLiftsNothing(s, op);
    StepDiscards(s, op);
    assert s.chip.discard - {} + {} == s.chip.discard;
  }

  lemma {:induction false} ForgottenDiscardsStay(s: Lb, ops: seq<Op>)
    requires Forgotten(s) && forall i :: 0 <= i < |ops| ==> Asked(ops[i]) == {}
    ensures Run(s, ops).chip.discard == s.chip.discard
    decreases |ops|
  {
    if ops != [] {
      assert Asked(ops[0]) == {};
      ForgottenStays(s, ops[0]);
      ForgottenDiscardsStay(Step(s, ops[0]), ops[1..]);
    }
  }

  /** The full clear lifts no discard and forgets which ports discard: over every run afterwards of
      operations that ask for none, tear-downs of every kind included, the discards stay exactly
      what they were before the clear.  So a port drops traffic for good after a full clear if and
      only if it did before. */
  lemma ForceClearForgetsDiscards(s: Lb, scope: set<Port>, ops: seq<Op>)
    requires forall i :: 0 <= i < |ops| ==> Asked(ops[i]) == {}
    ensures Run(DoForceClearAll(s, scope), ops).chip.discard == s.chip.discard
  {
    ForgottenDiscardsStay(DoForceClearAll(s, scope), ops);
  }

  /** The recorded loopback mode is the one in the chip after a flood-safe enable only if the
      profile's mode is the MAC style. */
  lemma FloodSafeRecordsMode(s: Lb, p: Port, iso: Vid, shown: bool)
    ensures var t := DoEnableFloodSafe(s, p, iso, shown);
            p in t.on && p in t.hw && (t.on[p].0 == t.hw[p] <==> s.mode == Mac)
  {
  }

  // ---- the flood domain of a test ----

  /** The injection port is looped bare in VLAN `t`, and every other looped member is isolated. */
  predicate Scoped(s: Lb, t: Vid, inj: Port) {
    && t in s.chip.members && inj in s.chip.members[t] && Admitted(s.chip, inj) && s.chip.pvid[inj] == t
    && inj !in s.safe
    && forall p :: p in s.chip.members[t] * s.chip.looped && p != inj ==> p in s.safe && s.safe[p].ByPvid?
  }

  lemma ScopedIsFloodSafe(s: Lb, t: Vid, inj: Port)
    requires Intact(s) && Scoped(s, t, inj)
    ensures FloodSafe(s.chip, t, inj)
  {
  }

  function FloodSafeOps(ports: seq<(Port, Vid)>): seq<Op> {
    if ports == [] then [] else [EnableFloodSafe(ports[0].0, ports[0].1, true)] + FloodSafeOps(ports[1..])
  }

  /** Every isolated port classifies into a VLAN without members. */
  predicate Quarantined(s: Lb) {
    forall p :: p in s.safe && s.safe[p].ByPvid? ==>
      p in s.chip.pvid && s.chip.pvid[p] in s.chip.members && s.chip.members[s.chip.pvid[p]] == {}
  }

  lemma QuarantineIsFloodSafe(s: Lb, t: Vid, inj: Port)
    requires Quarantined(s) && Scoped(s, t, inj)
    ensures FloodSafe(s.chip, t, inj)
  {
  }

  /** A VLAN that does not exist, or has no members. */
  predicate Vacant(s: Lb, v: Vid) { v in s.chip.members ==> s.chip.members[v] == {} }

  lemma ScopeStep(s: Lb, t: Vid, inj: Port, op: Op)
    requires Scoped(s, t, inj) && Quarantined(s) && op.EnableFloodSafe? && op.p != inj && op.iso != t
    requires Vacant(s, op.iso)
    ensures Scoped(Step(s, op), t, inj) && Quarantined(Step(s, op))
    ensures Step(s, op).chip.members[t] == s.chip.members[t]
    ensures forall v :: Vacant(s, v) ==> Vacant(Step(s, op), v)
  {
    IsolateShape(s, op);
  }

  /** Ports to isolate, through any VLANs without members, the same one or not. */
  predicate Isolatable(s: Lb, t: Vid, inj: Port, ports: seq<(Port, Vid)>) {
    forall i :: 0 <= i < |ports| ==> ports[i].0 != inj && ports[i].1 != t && Vacant(s, ports[i].1)
  }

  lemma {:induction false} IsolatingKeepsScope(s: Lb, t: Vid, inj: Port, ports: seq<(Port, Vid)>)
    requires Quarantined(s) && Scoped(s, t, inj) && Isolatable(s, t, inj, ports)
    ensures Quarantined(Run(s, FloodSafeOps(ports))) && Scoped(Run(s, FloodSafeOps(ports)), t, inj)
    ensures Run(s, FloodSafeOps(ports)).chip.members[t] == s.chip.members[t]
    decreases |ports|
  {
    if ports != [] {
      var op := EnableFloodSafe(ports[0].0, ports[0].1, true);
      assert FloodSafeOps(ports)[1..] == FloodSafeOps(ports[1..]);
      ScopeStep(s, t, inj, op);
      assert Isolatable(Step(s, op), t, inj, ports[1..]);
      IsolatingKeepsScope(Step(s, op), t, inj, ports[1..]);
    }
  }

  lemma TestVlanScopes(s: Lb, t: Vid, ps: seq<Port>, restore: Vid, left: map<Port, Vid>, inj: Port, m: Mode)
    requires s.safe == map[] && s.test == NoTest && s.chip.looped == {} && s.chip.discard == {}
    requires t !in s.chip.members && inj in ps && inj !in left
    ensures var u := DoEnable(DoUseTestVlan(s, t, ps, restore, left), inj, m, false);
            && Quarantined(u) && Scoped(u, t, inj)
            && u.chip.members == s.chip.members[t := set p | p in ps]
            && u.safe == map[] && s.chip.pvid.Keys <= u.chip.pvid.Keys
  {
    var u := DoEnable(DoUseTestVlan(s, t, ps, restore, left), inj, m, false);
    assert u.chip.members[t] == set p | p in ps;
    assert u.chip.looped == {inj};
  }

  /** The whole set-up of a flood test, from a chip with nothing looped: a test VLAN, the injection
      port looped bare, any number of other ports looped and isolated, each in a VLAN of its own or
      several in one.  One broadcast from the injection port then leaves by every other port of the
      test VLAN exactly once, by no other port, and nothing is in flight two rounds later.  Only the
      VLAN of the injection port has to hold against the product. */
  lemma FloodTestTerminates(s: Lb, t: Vid, ps: seq<Port>, restore: Vid, left: map<Port, Vid>, inj: Port, m: Mode,
                            ports: seq<(Port, Vid)>, o: Port, r: nat)
    requires s.safe == map[] && s.test == NoTest && s.chip.looped == {} && s.chip.discard == {}
    requires t !in s.chip.members && inj in ps && inj !in left && r >= 2
    requires Isolatable(s, t, inj, ports)
    ensures var c := Run(DoEnable(DoUseTestVlan(s, t, ps, restore, left), inj, m, false), FloodSafeOps(ports)).chip;
            && InFlight(c, inj, Broadcast, r) == 0
            && Delivered(c, inj, Broadcast, o, r) == if o in ps && o != inj then 1 else 0
  {
    var u := DoEnable(DoUseTestVlan(s, t, ps, restore, left), inj, m, false);
    TestVlanScopes(s, t, ps, restore, left, inj, m);
    assert Isolatable(u, t, inj, ports);
    IsolatingKeepsScope(u, t, inj, ports);
    var w := Run(u, FloodSafeOps(ports));
    QuarantineIsFloodSafe(w, t, inj);
    FloodReachesEachOnce(w.chip, t, inj, Broadcast, o, r);
  }

  // ---- the manager ----

  /** The chip with one port in this VLAN. */
  function AtPvid(c: Chip, p: Port, v: Vid): Chip { c.(pvid := c.pvid[p := v]) }

  function Restrict(safe: map<Port, Isolation>, ps: set<Port>): map<Port, Isolation> {
    map p | p in safe && p in ps :: safe[p]
  }

  /** The chip after the isolations of `ps` were taken back. */
  function UndoneParts(c: Chip, safe: map<Port, Isolation>, ps: set<Port>): (map<Port, Vid>, map<Vid, set<Port>>) {
    (c.pvid + Origs(Restrict(safe, ps)), c.members - Isos(Restrict(safe, ps)))
  }

  lemma UndoneNone(c: Chip, safe: map<Port, Isolation>)
    ensures UndoneParts(c, safe, {}) == (c.pvid, c.members)
    ensures UndoneParts(c, safe, safe.Keys) == (c.pvid + Origs(safe), c.members - Isos(safe))
  {
    assert Restrict(safe, {}) == map[];
    assert Isos(map[]) == {} && c.members - {} == c.members;
    assert Origs(map[]) == map[] && c.pvid + map[] == c.pvid;
    assert Restrict(safe, safe.Keys) == safe;
  }

  lemma UndoneOne(c: Chip, safe: map<Port, Isolation>, ps: set<Port>, p: Port)
    requires p in safe && p !in ps
    ensures var (pv, m) := UndoneParts(c, safe, ps);
            UndoneParts(c, safe, ps + {p}) ==
            if safe[p].ByPvid? then (pv[p := safe[p].orig], m - {safe[p].iso}) else (pv, m)
  {
    var r := Restrict(safe, ps);
    assert Restrict(safe, ps + {p}) == r[p := safe[p]];
    IsosPut(r, p, safe[p]);
    OrigsPut(r, p, safe[p]);
    if safe[p].ByDiscard? {
      assert Origs(r) - {p} == Origs(r);
      assert Isos(r) + {} == Isos(r);
    } else {
      PutBothRight(c.pvid, Origs(r), p, safe[p].orig);
      assert c.members - (Isos(r) + {safe[p].iso}) == c.members - Isos(r) - {safe[p].iso};
    }
  }

  lemma PutBothRight(a: map<Port, Vid>, b: map<Port, Vid>, p: Port, v: Vid)
    ensures a + b[p := v] == (a + b)[p := v]
  {
  }

  lemma SetPvidsNext(pv: map<Port, Vid>, ps: seq<Port>, k: nat, v: Vid, left: map<Port, Vid>)
    requires k < |ps|
    ensures SetPvids(pv, ps[..k + 1], v, left) ==
            SetPvids(pv, ps[..k], v, left)[ps[k] := if ps[k] in left then left[ps[k]] else v]
  {
    assert ps[..k + 1] == ps[..k] + [ps[k]];
  }

  function Reopened(held: map<Port, Mode>, ps: set<Port>): map<Port, Mode> {
    map p | p in held && p in ps :: held[p]
  }

  function ReopenedOn(held: map<Port, Mode>, ps: set<Port>): map<Port, (Mode, bool)> {
    map p | p in held && p in ps :: (held[p], false)
  }

  lemma ReopenedNext(held: map<Port, Mode>, ps: set<Port>, p: Port, hw: map<Port, Mode>)
    requires p in held
    ensures hw + Reopened(held, ps + {p}) == (hw + Reopened(held, ps))[p := held[p]]
    ensures ReopenedOn(held, ps + {p}) == ReopenedOn(held, ps)[p := (held[p], false)]
  {
  }

  /** Part of a clean-up: isolations of `done` taken back, loopbacks of `off` off. */
  function Cleaned(s: Lb, done: set<Port>, off: set<Port>): Lb {
    var (pv, m) := UndoneParts(s.chip, s.safe, done);
    s.(on := s.on - off, safe := s.safe - done, hw := s.hw - off,
       chip := s.chip.(pvid := pv, members := m, looped := s.chip.looped - off,
                       discard := s.chip.discard - Flagged(s.on, off)))
  }

  lemma CleanedNone(s: Lb)
    ensures Cleaned(s, {}, {}) == s
  {
    UndoneNone(s.chip, s.safe);
    assert s.on - {} == s.on && s.safe - {} == s.safe && s.hw - {} == s.hw;
    assert s.chip.looped - {} == s.chip.looped && s.chip.discard - Flagged(s.on, {}) == s.chip.discard;
  }

  lemma CleanedOn(s: Lb, done: set<Port>, off: set<Port>, p: Port)
    requires p !in off
    ensures DoDisable(Cleaned(s, done, off), p) == Cleaned(s, done, off + {p})
  {
    var c := Cleaned(s, done, off);
    assert c.on - {p} == s.on - (off + {p});
    assert c.hw - {p} == s.hw - (off + {p});
    assert c.chip.looped - {p} == s.chip.looped - (off + {p});
    if p in s.on && s.on[p].1 {
      assert c.on[p] == s.on[p];
      assert Flagged(s.on, off + {p}) == Flagged(s.on, off) + {p};
      assert c.chip.discard - {p} == s.chip.discard - Flagged(s.on, off + {p});
    } else {
      assert Flagged(s.on, off + {p}) == Flagged(s.on, off);
    }
  }

  lemma CleanedSafe(s: Lb, done: set<Port>, p: Port)
    requires p in s.safe && p !in done
    ensures DoDisableFloodSafe(Cleaned(s, done, done), p) == Cleaned(s, done + {p}, done + {p})
  {
    UndoneOne(s.chip, s.safe, done, p);
    var c := Cleaned(s, done, done);
    assert c.safe[p] == s.safe[p];
    assert c.safe - {p} == s.safe - (done + {p});
    assert Undo(c, p).(safe := c.safe - {p}) == Cleaned(s, done + {p}, done);
    CleanedOn(s, done + {p}, done, p);
  }

  lemma CleanedAll(s: Lb)
    ensures Cleaned(s, s.safe.Keys, s.on.Keys + s.safe.Keys) == DoCleanup(s)
  {
    UndoneNone(s.chip, s.safe);
    var off := s.on.Keys + s.safe.Keys;
    assert s.on - off == map[] && s.safe - s.safe.Keys == map[];
    assert off == s.safe.Keys + s.on.Keys;
    assert Flagged(s.on, off) == set p | p in s.on && s.on[p].1;
  }

  class LoopbackManager {
    const mode: Mode
    const dflt: Vid
    var on: map<Port, (Mode, bool)>
    var safe: map<Port, Isolation>
    var test: TestVlan
    var held: map<Port, Mode>
    var touched: bool
    /** The device. */
    var hw: map<Port, Mode>
    var chip: Chip

    function State(): Lb
      reads this
    {
      Lb(on, safe, test, held, touched, mode, dflt, hw, chip)
    }

    constructor (mode: Mode, dflt: Vid, hw: map<Port, Mode>, chip: Chip)
      ensures State() == Lb(map[], map[], NoTest, map[], false, mode, dflt, hw, chip)
    {
      this.mode, this.dflt, this.hw, this.chip := mode, dflt, hw, chip;
      on, safe, test, held, touched := map[], map[], NoTest, map[], false;
    }

    method HoldPort(p: Port, m: Mode)
      modifies this`held
      ensures State() == DoHold(old(State()), p, m)
    {
      held := held[p := m];
    }

    method ReleasePort(p: Port)
      modifies this`held
      ensures State() == DoRelease(old(State()), p)
    {
      held := held - {p};
    }

    /** The loopback setting of one port in the chip. */
    method SetLoop(p: Port, m: Mode)
      modifies this`hw, this`chip
      ensures hw == old(hw)[p := m] && chip == old(chip).(looped := old(chip).looped + {p})
    {
      hw, chip := hw[p := m], chip.(looped := chip.looped + {p});
    }

    method EnablePort(p: Port, m: Mode, discard: bool)
      modifies this`on, this`touched, this`hw, this`chip
      ensures State() == DoEnable(old(State()), p, m, discard)
    {
      SetLoop(p, m);
      if discard {
        chip := chip.(discard := chip.discard + {p});
      }
      on := on[p := (m, discard)];
      touched := true;
    }

    method DisablePort(p: Port)
      modifies this`on, this`hw, this`chip
      ensures State() == DoDisable(old(State()), p)
    {
      if p in on && on[p].1 {
        chip := chip.(discard := chip.discard - {p});
      }
      hw, chip := hw - {p}, chip.(looped := chip.looped - {p});
      on := on - {p};
    }

    method CreateVlan(v: Vid)
      modifies this`chip
      ensures chip.members == (if v in old(chip).members then old(chip).members else old(chip).members[v := {}])
      ensures chip == old(chip).(members := chip.members)
    {
      if v !in chip.members {
        chip := chip.(members := chip.members[v := {}]);
      }
    }

    /** Writes the VLAN of a port and reads its text back, up to ten times; `back` is what the product
        writes in between. */
    method HoldPvid(p: Port, v: Vid, back: seq<Maybe<Vid>>) returns (held: bool)
      modifies this`chip
      ensures held <==> Settles(v, Tried(back)).Just?
      ensures chip == AtPvid(old(chip), p, Ends(v, Tried(back)))
    {
      ghost var tries := Tried(back);
      var i := 0;
      while i < TRIES
        invariant 0 <= i <= TRIES && i <= |tries| && i <= |back|
        invariant Settles(v, tries[..i]) == Nothing
        invariant i == 0 ==> chip == old(chip)
        invariant i > 0 ==> chip == AtPvid(old(chip), p, Ends(v, tries[..i]))
      {
        EndsNext(v, tries, i);
        held := TryPvid(p, v, if i < |back| then back[i] else Nothing);
        if held {
          return;
        }
        i := i + 1;
      }
      assert tries[..i] == tries;
      held := false;
    }

    /** One try: writes, lets the product write `b`, and reads the text. */
    method TryPvid(p: Port, v: Vid, b: Maybe<Vid>) returns (held: bool)
      modifies this`chip
      ensures held <==> Settles(v, [b]).Just?
      ensures chip == AtPvid(old(chip), p, Ends(v, [b]))
      ensures forall c, x :: old(chip) == AtPvid(c, p, x) ==> chip == AtPvid(c, p, Ends(v, [b]))
    {
      chip := AtPvid(chip, p, v);
      if b.Just? {
        assert AtPvid(AtPvid(old(chip), p, v), p, b.value) == AtPvid(old(chip), p, b.value);
        chip := AtPvid(chip, p, b.value);
      }
      ReadsAsStep(v, v);
      held := ReadsAs(chip.pvid[p], v);
    }

    /** The VLAN of every port of the list, as far as the product lets it hold. */
    method ScopePvids(ps: seq<Port>, v: Vid, back: map<Port, seq<Maybe<Vid>>>)
      modifies this`chip
      ensures chip == old(chip).(pvid := SetPvids(old(chip).pvid, ps, v, LeftBy(v, back)))
    {
      var k := 0;
      ghost var left := LeftBy(v, back);
      assert SetPvids(chip.pvid, [], v, left) == chip.pvid;
      while k < |ps|
        invariant 0 <= k <= |ps|
        invariant chip == old(chip).(pvid := SetPvids(old(chip).pvid, ps[..k], v, left))
      {
        SetPvidsNext(old(chip).pvid, ps, k, v, left);
        var none: seq<Maybe<Vid>> := [];
        assert Tried(none) == [Nothing];
        var _ := HoldPvid(ps[k], v, if ps[k] in back then back[ps[k]] else none);
        k := k + 1;
      }
      assert ps[..k] == ps;
    }

    /** Writes the VLAN of several ports, one after the other. */
    method WritePvids(ps: seq<Port>, v: Vid)
      modifies this`chip
      ensures chip == old(chip).(pvid := SetPvids(old(chip).pvid, ps, v, map[]))
    {
      var k := 0;
      assert SetPvids(chip.pvid, [], v, map[]) == chip.pvid;
      while k < |ps|
        invariant 0 <= k <= |ps|
        invariant chip == old(chip).(pvid := SetPvids(old(chip).pvid, ps[..k], v, map[]))
      {
        SetPvidsNext(old(chip).pvid, ps, k, v, map[]);
        chip := chip.(pvid := chip.pvid[ps[k] := v]);
        k := k + 1;
      }
      assert ps[..k] == ps;
    }

    method UseTestVlan(v: Vid, ps: seq<Port>, restore: Vid, back: map<Port, seq<Maybe<Vid>>>)
      modifies this`chip, this`test, this`touched
      ensures State() == DoUseTestVlan(old(State()), v, ps, restore, LeftBy(v, back))
    {
      CreateVlan(v);
      chip := chip.(members := chip.members[v := chip.members[v] + set p | p in ps]);
      ScopePvids(ps, v, back);
      test, touched := Test(v, ps, restore), true;
    }

    method DropTestVlan()
      modifies this`chip, this`test
      ensures State() == DoDropTestVlan(old(State()))
    {
      var info := test;
      test := NoTest;
      if info.Test? {
        WritePvids(info.ports, info.restore);
        chip := chip.(members := chip.members - {info.vid});
      }
    }

    method EnableFloodSafe(p: Port, iso: Vid, shown: bool)
      modifies this`on, this`safe, this`touched, this`hw, this`chip
      ensures State() == DoEnableFloodSafe(old(State()), p, iso, shown)
    {
      var orig := if shown && p in chip.pvid then chip.pvid[p] else dflt;
      CreateVlan(iso);
      SetLoop(p, mode);
      chip := chip.(pvid := chip.pvid[p := iso]);
      on := on[p := (Mac, false)];
      touched := true;
      safe := safe[p := ByPvid(iso, orig)];
    }

    method IsolatePvid(p: Port, iso: Vid, shown: bool, switchport: bool)
      modifies this`safe, this`chip
      ensures State() == DoIsolatePvid(old(State()), p, iso, shown, switchport)
    {
      if switchport {
        chip := chip.(discard := chip.discard + {p});
        safe := safe[p := ByDiscard];
        return;
      }
      var orig := if shown && p in chip.pvid then chip.pvid[p] else dflt;
      CreateVlan(iso);
      chip := chip.(pvid := chip.pvid[p := iso]);
      safe := safe[p := ByPvid(iso, orig)];
    }

    method RestorePvid(p: Port)
      modifies this`safe, this`chip
      ensures State() == DoRestorePvid(old(State()), p)
    {
      if p in safe {
        var info := safe[p];
        safe := safe - {p};
        match info
        case ByDiscard => chip := chip.(discard := chip.discard - {p});
        case ByPvid(iso, orig) => chip := chip.(pvid := chip.pvid[p := orig], members := chip.members - {iso});
      }
    }

    /** The two commands that take an isolation back; with nothing to name they are refused. */
    method TakeBack(p: Port, info: Isolation)
      modifies this`chip
      ensures chip == old(chip).(pvid := chip.pvid, members := chip.members)
      ensures (chip.pvid, chip.members) ==
              if info.ByPvid? then (old(chip).pvid[p := info.orig], old(chip).members - {info.iso})
              else (old(chip).pvid, old(chip).members)
    {
      if info.ByPvid? {
        chip := chip.(pvid := chip.pvid[p := info.orig], members := chip.members - {info.iso});
      }
    }

    method DisableFloodSafe(p: Port)
      modifies this`on, this`safe, this`hw, this`chip
      ensures State() == DoDisableFloodSafe(old(State()), p)
    {
      if p in safe {
        var info := safe[p];
        safe := safe - {p};
        TakeBack(p, info);
      }
      DisablePort(p);
    }

    /** Every isolation taken back, then every tracked loopback off. */
    method Cleanup()
      modifies this`on, this`safe, this`hw, this`chip
      ensures State() == DoCleanup(old(State()))
    {
      ghost var start := State();
      CleanupSafe();
      CleanupOn(start, start.safe.Keys);
      CleanedAll(start);
    }

    method CleanupOn(ghost start: Lb, ghost done: set<Port>)
      requires State() == Cleaned(start, done, done)
      modifies this`on, this`hw, this`chip
      ensures State() == Cleaned(start, done, start.on.Keys + done)
    {
      ghost var off := done;
      var todo := on.Keys;
      while todo != {}
        invariant todo == start.on.Keys - off && done <= off <= start.on.Keys + done
        invariant State() == Cleaned(start, done, off)
        decreases todo
      {
        var p :| p in todo;
        CleanedOn(start, done, off, p);
        DisablePort(p);
        todo, off := todo - {p}, off + {p};
      }
      assert forall p :: p in start.on.Keys && p !in off ==> p in todo;
      assert off == start.on.Keys + done;
    }

    method CleanupSafe()
      modifies this`on, this`safe, this`hw, this`chip
      ensures State() == Cleaned(old(State()), old(safe).Keys, old(safe).Keys)
    {
      ghost var start := State();
      var todo := safe.Keys;
      ghost var done: set<Port> := {};
      CleanedNone(start);
      while todo != {}
        invariant start.safe.Keys == todo + done && todo !! done
        invariant State() == Cleaned(start, done, done)
        decreases todo
      {
        var p :| p in todo;
        CleanedSafe(start, done, p);
        DisableFloodSafe(p);
        todo, done := todo - {p}, done + {p};
      }
      assert done == start.safe.Keys;
    }

    /** Every isolation taken back as one by VLAN, in any order of the ports. */
    method TakeAllBack()
      modifies this`safe, this`chip
      ensures safe == map[] && chip == UndoAll(old(State())).chip
    {
      var todo := safe.Keys;
      ghost var done: set<Port> := {};
      ghost var before, was := chip, safe;
      UndoneNone(before, was);
      while todo != {}
        invariant safe == was && safe.Keys == todo + done && todo !! done
        invariant chip == before.(pvid := chip.pvid, members := chip.members)
        invariant (chip.pvid, chip.members) == UndoneParts(before, was, done)
        decreases todo
      {
        var p :| p in todo;
        UndoneOne(before, safe, done, p);
        TakeBack(p, safe[p]);
        todo, done := todo - {p}, done + {p};
      }
      assert done == safe.Keys;
      safe := map[];
    }

    method ForceClearAll(scope: set<Port>) returns (cleared: set<Port>)
      modifies this`on, this`safe, this`hw, this`chip
      ensures State() == DoForceClearAll(old(State()), scope)
      ensures cleared == Cleared(old(State()))
    {
      cleared := on.Keys + safe.Keys - held.Keys;
      TakeAllBack();
      hw, chip := hw - scope, chip.(looped := chip.looped - scope);
      Reopen();
    }

    /** The held loopbacks are the only ones tracked from here on. */
    method Reopen()
      modifies this`on, this`hw, this`chip
      ensures on == map p | p in held :: (held[p], false)
      ensures hw == old(hw) + held
      ensures chip == old(chip).(looped := old(chip).looped + held.Keys)
    {
      on := map[];
      var todo := held.Keys;
      ghost var done: set<Port> := {};
      assert chip.looped + done == chip.looped && hw + Reopened(held, {}) == hw;
      while todo != {}
        invariant held.Keys == todo + done && todo !! done
        invariant on == ReopenedOn(held, done)
        invariant hw == old(hw) + Reopened(held, done)
        invariant chip == old(chip).(looped := old(chip).looped + done)
        decreases todo
      {
        var p :| p in todo;
        ReopenedNext(held, done, p, old(hw));
        assert chip.looped + {p} == old(chip).looped + (done + {p});
        SetLoop(p, held[p]);
        on := on[p := (held[p], false)];
        todo, done := todo - {p}, done + {p};
      }
      assert done == held.Keys;
      assert Reopened(held, done) == held;
    }
  }
}
