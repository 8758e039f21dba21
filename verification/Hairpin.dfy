/** The asymmetric VLAN hairpin (topo/hairpin.py): set-up, arming, capture aids and tear-down. */
module Hairpin {
  import opened Chip
  import opened Readback
  import opened Wrappers

  /** The switch: configured VLAN membership, addresses on VLAN interfaces, and the chip.
      `deleted` remembers what the chip still had in each VLAN when it was deleted. */
  datatype Switch = Switch(cfg: map<Vid, set<Port>>, svi: map<Vid, set<nat>>, chip: Chip,
                           deleted: seq<set<Port>>)

  /** The configuration commands the hairpin issues and undoes. */
  datatype Cmd =
    | VlanAdd(v: Vid) | VlanDel(v: Vid)
    | MemberAdd(v: Vid, p: Port) | MemberDel(v: Vid, p: Port)
    | IpAdd(v: Vid, ip: nat) | IpDel(v: Vid, ip: nat)

  function SetMembers(c: Chip, v: Vid, ps: set<Port>): Chip {
    c.(members := c.members[v := ps])
  }

  /** A static entry of the VLAN points at the port. */
  predicate Pinned(c: Chip, v: Vid, p: Port) {
    exists k :: k in c.fdb && k.0 == v && c.fdb[k] == p
  }

  /** The product's rules.  A command whose condition does not hold is refused and changes
      nothing: a VLAN must exist, an added VLAN or member must be new, a member that a static
      entry points at cannot leave, and a VLAN with members or addresses cannot be deleted. */
  function Exec(s: Switch, c: Cmd): Switch {
    match c
    case VlanAdd(v) =>
      if v in s.cfg then s
      else s.(cfg := s.cfg[v := {}], svi := s.svi[v := {}], chip := SetMembers(s.chip, v, {}))
    case VlanDel(v) =>
      if v in s.cfg && s.cfg[v] == {} && (v in s.svi ==> s.svi[v] == {}) then
        s.(cfg := s.cfg - {v}, svi := s.svi - {v},
           chip := s.chip.(members := s.chip.members - {v}),
           deleted := s.deleted + [if v in s.chip.members then s.chip.members[v] else {}])
      else s
    case MemberAdd(v, p) =>
      if v in s.cfg && v in s.chip.members && p !in s.cfg[v] then
        s.(cfg := s.cfg[v := s.cfg[v] + {p}], chip := SetMembers(s.chip, v, s.chip.members[v] + {p}))
      else s
    case MemberDel(v, p) =>
      if v in s.cfg && v in s.chip.members && p in s.cfg[v] && !Pinned(s.chip, v, p) then
        s.(cfg := s.cfg[v := s.cfg[v] - {p}], chip := SetMembers(s.chip, v, s.chip.members[v] - {p}))
      else s
    case IpAdd(v, ip) =>
      if v in s.svi then s.(svi := s.svi[v := s.svi[v] + {ip}]) else s
    case IpDel(v, ip) =>
      if v in s.svi then s.(svi := s.svi[v := s.svi[v] - {ip}]) else s
  }

  function ExecAll(s: Switch, cmds: seq<Cmd>): Switch
    decreases |cmds|
  {
    if cmds == [] then s else ExecAll(Exec(s, cmds[0]), cmds[1..])
  }

  function SetPvid(s: Switch, p: Port, v: Vid): Switch {
    s.(chip := s.chip.(pvid := s.chip.pvid[p := v]))
  }

  function SetLoop(s: Switch, p: Port, on: bool): Switch {
    s.(chip := s.chip.(looped := if on then s.chip.looped + {p} else s.chip.looped - {p}))
  }

  /** The two ports, the two VLANs, the default VLAN, and the optional address on VLAN B. */
  datatype Plan = Plan(pIn: Port, pOut: Port, a: Vid, b: Vid, dflt: Vid, svi: seq<nat>)

  predicate Valid(pl: Plan) {
    && pl.pIn.Front? && pl.pOut.Front? && pl.pIn != pl.pOut
    && pl.a != pl.b && pl.a != pl.dflt && pl.b != pl.dflt
    && |pl.svi| <= 1
  }

  /** The stack of undos the set-up registers, in the order of registration. */
  function SetupUndo(pl: Plan): seq<Cmd> {
    [VlanDel(pl.a),
     MemberAdd(pl.dflt, pl.pIn), MemberDel(pl.a, pl.pIn),
     MemberAdd(pl.dflt, pl.pOut), MemberDel(pl.a, pl.pOut),
     VlanDel(pl.b)] + (if pl.svi == [] then [] else [IpDel(pl.b, pl.svi[0])])
  }

  function Move(s: Switch, x: Vid, y: Vid, p: Port): Switch {
    Exec(Exec(s, MemberDel(x, p)), MemberAdd(y, p))
  }

  function Backwards(cmds: seq<Cmd>): seq<Cmd> {
    if cmds == [] then [] else Backwards(cmds[1..]) + [cmds[0]]
  }

  function AfterMoves(s: Switch, pl: Plan): Switch {
    Move(Move(Exec(s, VlanAdd(pl.a)), pl.dflt, pl.a, pl.pIn), pl.dflt, pl.a, pl.pOut)
  }

  function AfterFinish(s: Switch, pl: Plan): Switch {
    var s1 := Exec(s, VlanAdd(pl.b));
    var s2 := if pl.svi == [] then s1 else Exec(s1, IpAdd(pl.b, pl.svi[0]));
    SetLoop(SetLoop(s2, pl.pIn, true), pl.pOut, true)
  }

  function AfterSetup(s: Switch, pl: Plan): Switch {
    AfterFinish(AfterMoves(SetPvid(SetPvid(s, pl.pIn, pl.dflt), pl.pOut, pl.dflt), pl), pl)
  }

  function AfterArm(s: Switch, pl: Plan): Switch {
    SetPvid(SetPvid(s, pl.pIn, pl.a), pl.pOut, pl.b)
  }

  /** A static entry in VLAN A that sends `mac` to the far port. */
  function AfterFdb(s: Switch, pl: Plan, mac: nat): Switch {
    s.(chip := s.chip.(fdb := s.chip.fdb[(pl.a, mac) := pl.pOut]))
  }

  /** Far port and CPU join VLAN B on the chip, and `mac` is sent to the CPU there. */
  function AfterPunt(s: Switch, pl: Plan, mac: nat): Switch {
    var c := if pl.b in s.chip.members
             then SetMembers(s.chip, pl.b, s.chip.members[pl.b] + {pl.pOut, Cpu}) else s.chip;
    s.(chip := c.(fdb := c.fdb[(pl.b, mac) := Cpu]))
  }

  function Unpunt(s: Switch, pl: Plan, mac: nat): Switch {
    var c := s.chip.(fdb := s.chip.fdb - {(pl.b, mac)});
    s.(chip := if pl.b in c.members
               then SetMembers(c, pl.b, c.members[pl.b] - {pl.pOut, Cpu}) else c)
  }

  function Unfdb(s: Switch, pl: Plan, mac: nat): Switch {
    s.(chip := s.chip.(fdb := s.chip.fdb - {(pl.a, mac)}))
  }

  /** What may happen between set-up and tear-down: either port's VLAN is written, by `arm` or
      by the product writing back on its own, and the capture aids are used. */
  datatype Use = PvidWrite(near: bool, v: Vid) | FdbToOut(mac: nat) | PuntBToCpu(mac: nat)

  function After(s: Switch, pl: Plan, u: Use): Switch {
    match u
    case PvidWrite(near, v) => SetPvid(s, if near then pl.pIn else pl.pOut, v)
    case FdbToOut(mac) => AfterFdb(s, pl, mac)
    case PuntBToCpu(mac) => AfterPunt(s, pl, mac)
  }

  function AfterAll(s: Switch, pl: Plan, us: seq<Use>): Switch
    decreases |us|
  {
    if us == [] then s else AfterAll(After(s, pl, us[0]), pl, us[1..])
  }

  /** Each aid remembers only the last address it was used for. */
  function LastFdb(us: seq<Use>): Maybe<nat>
    decreases |us|
  {
    if us == [] then Nothing
    else if us[|us| - 1].FdbToOut? then Just(us[|us| - 1].mac) else LastFdb(us[..|us| - 1])
  }

  function LastPunt(us: seq<Use>): Maybe<nat>
    decreases |us|
  {
    if us == [] then Nothing
    else if us[|us| - 1].PuntBToCpu? then Just(us[|us| - 1].mac) else LastPunt(us[..|us| - 1])
  }

  /** The state in which the undo stack is replayed. */
  function BeforeUndo(s: Switch, pl: Plan, fdb: Maybe<nat>, punt: Maybe<nat>): Switch {
    var s1 := if punt.Just? then Unpunt(s, pl, punt.value) else s;
    var s2 := if fdb.Just? then Unfdb(s1, pl, fdb.value) else s1;
    var s3 := SetPvid(SetPvid(s2, pl.pIn, pl.dflt), pl.pOut, pl.dflt);
    SetLoop(SetLoop(s3, pl.pIn, false), pl.pOut, false)
  }

  function AfterTeardown(s: Switch, pl: Plan, undo: seq<Cmd>, fdb: Maybe<nat>, punt: Maybe<nat>): Switch {
    ExecAll(BeforeUndo(s, pl, fdb, punt), Backwards(undo))
  }

  /** From set-up to tear-down with `us` in between. */
  function Session(s: Switch, pl: Plan, us: seq<Use>): Switch {
    AfterTeardown(AfterAll(AfterSetup(s, pl), pl, us), pl, SetupUndo(pl), LastFdb(us), LastPunt(us))
  }

  /** The state the hairpin expects: the chip agrees with the configuration, both ports are in
      the default VLAN, neither is looped, and A and B do not exist.  What they classify into is left
      open: an earlier case may have failed. */
  predicate Ready(s: Switch, pl: Plan) {
    && Valid(pl)
    && s.chip.members == s.cfg && s.svi.Keys == s.cfg.Keys
    && pl.dflt in s.cfg && pl.pIn in s.cfg[pl.dflt] && pl.pOut in s.cfg[pl.dflt]
    && pl.pIn !in s.chip.looped && pl.pOut !in s.chip.looped
    && pl.a !in s.cfg && pl.b !in s.cfg
    && (forall k :: k in s.chip.fdb ==> k.0 != pl.a && k.0 != pl.b)
    && !Pinned(s.chip, pl.dflt, pl.pIn) && !Pinned(s.chip, pl.dflt, pl.pOut)
  }

  // ---- what is armed drains ----

  /** The hairpin is armed in this chip. */
  predicate Armed(c: Chip, pl: Plan) {
    && Valid(pl)
    && pl.pIn in c.pvid && c.pvid[pl.pIn] == pl.a && pl.pIn !in c.discard
    && pl.pOut in c.pvid && c.pvid[pl.pOut] == pl.b && pl.pOut !in c.discard
    && pl.a in c.members && c.members[pl.a] == {pl.pIn, pl.pOut}
    && pl.b in c.members && c.members[pl.b] <= {pl.pOut, Cpu}
    && pl.pIn in c.looped && pl.pOut in c.looped && Cpu !in c.looped
    // static entries of A and B name ports of the hairpin or ports that are not looped
    && (forall k :: k in c.fdb && k.0 in {pl.a, pl.b} && c.fdb[k] in c.looped ==>
          c.fdb[k] in {pl.pIn, pl.pOut})
  }

  /** VLAN A sends the frame to the far port, by its entry or by flooding. */
  predicate ForwardsOut(c: Chip, pl: Plan, d: Dst) {
    d.Unicast? && (pl.a, d.mac) in c.fdb ==> c.fdb[(pl.a, d.mac)] == pl.pOut
  }

  /** VLAN B sends the frame back to the near port. */
  predicate ReturnsIn(c: Chip, pl: Plan, d: Dst) {
    && Admitted(c, pl.pOut)
    && d.Unicast? && (pl.b, d.mac) in c.fdb && c.fdb[(pl.b, d.mac)] == pl.pIn
  }

  lemma ArmedPasses(c: Chip, pl: Plan, d: Dst)
    requires Armed(c, pl)
    ensures ForwardsOut(c, pl, d) ==>
              Egress(c, pl.pIn, d) == {pl.pOut} && Reentry(c, pl.pIn, d) == {pl.pOut}
    ensures !ForwardsOut(c, pl, d) ==> Reentry(c, pl.pIn, d) == {} && pl.pOut !in Egress(c, pl.pIn, d)
    ensures ReturnsIn(c, pl, d) ==> Reentry(c, pl.pOut, d) == {pl.pIn}
    ensures !ReturnsIn(c, pl, d) ==> Reentry(c, pl.pOut, d) == {}
    ensures pl.pOut !in Egress(c, pl.pOut, d)
  {
    if Admitted(c, pl.pOut) && d.Unicast? && (pl.b, d.mac) in c.fdb {
      var q := c.fdb[(pl.b, d.mac)];
      assert q in c.looped ==> q in {pl.pIn, pl.pOut};
    }
    if d.Unicast? && (pl.a, d.mac) in c.fdb {
      var q := c.fdb[(pl.a, d.mac)];
      assert q in c.looped ==> q in {pl.pIn, pl.pOut};
    }
  }

  lemma InFlightOne(c: Chip, q: Port, d: Dst, r: nat)
    ensures InFlightFrom(c, {q}, d, r) == InFlight(c, q, d, r)
  {
    var x :| x in {q} && InFlightFrom(c, {q}, d, r) == InFlight(c, x, d, r) + InFlightFrom(c, {q} - {x}, d, r);
    assert {q} - {x} == {};
  }

  lemma DeliveredOne(c: Chip, q: Port, d: Dst, o: Port, r: nat)
    ensures DeliveredFrom(c, {q}, d, o, r) == Delivered(c, q, d, o, r)
  {
    var x :| x in {q} &&
      DeliveredFrom(c, {q}, d, o, r) == Delivered(c, x, d, o, r) + DeliveredFrom(c, {q} - {x}, d, o, r);
    assert {q} - {x} == {};
  }

  /** The frame goes round for ever exactly when A sends it out and B sends it back in. */
  predicate Storms(c: Chip, pl: Plan, d: Dst) {
    ForwardsOut(c, pl, d) && ReturnsIn(c, pl, d)
  }

  lemma {:induction false} StormKeepsGoing(c: Chip, pl: Plan, d: Dst, r: nat)
    requires Armed(c, pl) && Storms(c, pl, d)
    ensures InFlight(c, pl.pIn, d, r) == 1 && InFlight(c, pl.pOut, d, r) == 1
  {
    if r > 0 {
      ArmedPasses(c, pl, d);
      StormKeepsGoing(c, pl, d, r - 1);
      InFlightOne(c, pl.pOut, d, r - 1);
      InFlightOne(c, pl.pIn, d, r - 1);
    }
  }

  /** The armed hairpin drains: a frame entering on either port is gone after two passes if and
      only if the forwarding entries do not close the circle, and otherwise never. */
  lemma HairpinDrainsExactly(c: Chip, pl: Plan, d: Dst, p: Port, r: nat)
    requires Armed(c, pl) && p in {pl.pIn, pl.pOut} && r >= 2
    ensures InFlight(c, p, d, r) == 0 <==> !Storms(c, pl, d)
  {
    if Storms(c, pl, d) {
      StormKeepsGoing(c, pl, d, r);
    } else {
      ArmedPasses(c, pl, d);
      forall q | q in {pl.pIn, pl.pOut} && Reentry(c, q, d) == {} ensures InFlight(c, q, d, r - 1) == 0 {
        DeadEnd(c, q, d, Cpu, r - 1);
      }
      if Reentry(c, p, d) != {} {
        var q := if p == pl.pIn then pl.pOut else pl.pIn;
        assert Reentry(c, p, d) == {q};
        InFlightOne(c, q, d, r - 1);
      }
    }
  }

  /** Said without counting rounds: the frame is ever gone if and only if the circle is open. */
  lemma HairpinEverDrainsExactly(c: Chip, pl: Plan, d: Dst, p: Port)
    requires Armed(c, pl) && p in {pl.pIn, pl.pOut}
    ensures Drains(c, p, d) <==> !Storms(c, pl, d)
  {
    HairpinDrainsExactly(c, pl, d, p, 2);
    if Drains(c, p, d) && Storms(c, pl, d) {
      var r: nat :| InFlight(c, p, d, r) == 0;
      StormKeepsGoing(c, pl, d, r);
    }
  }

  /** What the hairpin is for: a frame from the near port that VLAN A does not bind elsewhere
      leaves the far port exactly once, whatever happens to it afterwards. */
  lemma HairpinDeliversOnce(c: Chip, pl: Plan, d: Dst, r: nat)
    requires Armed(c, pl) && !Storms(c, pl, d) && r >= 2
    ensures Delivered(c, pl.pIn, d, pl.pOut, r) == if ForwardsOut(c, pl, d) then 1 else 0
  {
    ArmedPasses(c, pl, d);
    if ForwardsOut(c, pl, d) {
      DeadEnd(c, pl.pOut, d, pl.pOut, r - 1);
      DeliveredOne(c, pl.pOut, d, pl.pOut, r - 1);
    } else {
      DeadEnd(c, pl.pIn, d, pl.pOut, r);
    }
  }

  /** Any number of frames, entering on either port with any destinations that do not close the
      circle, are all gone after two passes. */
  lemma AllFramesDrain(c: Chip, pl: Plan, frames: multiset<Frame>, r: nat)
    requires Armed(c, pl) && r >= 2
    requires forall f :: f in frames ==> f.port in {pl.pIn, pl.pOut} && !Storms(c, pl, f.dst)
    ensures TotalInFlight(c, frames, r) == 0
  {
    forall f | f in frames ensures InFlight(c, f.port, f.dst, r) == 0 {
      HairpinDrainsExactly(c, pl, f.dst, f.port, r);
    }
    TotalDrained(c, frames, r);
  }

  /** A frame that the capture entry names ends at the CPU, once, after leaving the far port. */
  lemma PuntedFrameReachesCpu(c: Chip, pl: Plan, d: Dst, r: nat)
    requires Armed(c, pl) && c.members[pl.b] == {pl.pOut, Cpu} && ForwardsOut(c, pl, d) && r >= 2
    requires d.Unicast? && (pl.b, d.mac) in c.fdb && c.fdb[(pl.b, d.mac)] == Cpu
    ensures Delivered(c, pl.pIn, d, Cpu, r) == 1
  {
    ArmedPasses(c, pl, d);
    assert Egress(c, pl.pOut, d) == {Cpu};
    DeadEnd(c, pl.pOut, d, Cpu, r - 1);
    DeliveredOne(c, pl.pOut, d, Cpu, r - 1);
  }

  /** Learning a source address on the port a frame entered by. */
  function Learn(c: Chip, p: Port, mac: nat): Chip {
    if Admitted(c, p) && (c.pvid[p], mac) !in c.fdb then c.(fdb := c.fdb[(c.pvid[p], mac) := p]) else c
  }

  /** Traffic cannot teach the hairpin a storm: an entry learned from a frame on either of its
      ports leaves it armed and closes no circle that was not closed before. */
  lemma LearningIsSafe(c: Chip, pl: Plan, p: Port, mac: nat, d: Dst)
    requires Armed(c, pl) && p in {pl.pIn, pl.pOut}
    ensures Armed(Learn(c, p, mac), pl)
    ensures Storms(Learn(c, p, mac), pl, d) ==> Storms(c, pl, d)
  {
  }

  function LearnAll(c: Chip, ls: seq<(Port, nat)>): Chip
    decreases |ls|
  {
    if ls == [] then c else LearnAll(Learn(c, ls[0].0, ls[0].1), ls[1..])
  }

  lemma {:induction false} LearnedStaysSafe(c: Chip, pl: Plan, ls: seq<(Port, nat)>, d: Dst)
    requires Armed(c, pl) && forall i :: 0 <= i < |ls| ==> ls[i].0 in {pl.pIn, pl.pOut}
    ensures Armed(LearnAll(c, ls), pl) && (Storms(LearnAll(c, ls), pl, d) ==> Storms(c, pl, d))
    decreases |ls|
  {
    if ls != [] {
      var c1 := Learn(c, ls[0].0, ls[0].1);
      LearningIsSafe(c, pl, ls[0].0, ls[0].1, d);
      LearnedStaysSafe(c1, pl, ls[1..], d);
    }
  }

  // ---- set-up arms, tear-down restores ----

  /** The switch after the set-up, with these VLANs on the two ports and these static entries and
      members of B on the chip. */
  function Up(s: Switch, pl: Plan, pv: map<Port, Vid>, fdb: map<(Vid, nat), Port>, b: set<Port>): Switch
    requires Ready(s, pl)
  {
    Switch(UpCfg(s, pl), UpSvi(s, pl),
           s.chip.(pvid := pv, fdb := fdb, looped := s.chip.looped + {pl.pIn} + {pl.pOut},
                   members := UpCfg(s, pl)[pl.b := b]),
           s.deleted)
  }

  function UpCfg(s: Switch, pl: Plan): map<Vid, set<Port>>
    requires Ready(s, pl)
  {
    s.cfg[pl.dflt := s.cfg[pl.dflt] - {pl.pIn, pl.pOut}][pl.a := {pl.pIn, pl.pOut}][pl.b := {}]
  }

  function UpSvi(s: Switch, pl: Plan): map<Vid, set<nat>> {
    s.svi[pl.a := {}][pl.b := if pl.svi == [] then {} else {pl.svi[0]}]
  }

  lemma {:induction false} ExecAppend(s: Switch, xs: seq<Cmd>, ys: seq<Cmd>)
    ensures ExecAll(s, xs + ys) == ExecAll(ExecAll(s, xs), ys)
    decreases |xs|
  {
    if xs == [] {
      assert xs + ys == ys;
    } else {
      assert (xs + ys)[1..] == xs[1..] + ys;
      ExecAppend(Exec(s, xs[0]), xs[1..], ys);
    }
  }

  lemma ExecOne(s: Switch, c: Cmd)
    ensures ExecAll(s, [c]) == Exec(s, c)
  {
    assert [c][1..] == [];
  }

  lemma ExecSix(s: Switch, c0: Cmd, c1: Cmd, c2: Cmd, c3: Cmd, c4: Cmd, c5: Cmd)
    ensures ExecAll(s, [c0, c1, c2, c3, c4, c5]) ==
            Exec(Exec(Exec(Exec(Exec(Exec(s, c0), c1), c2), c3), c4), c5)
  {
    assert [c0, c1, c2, c3, c4, c5] == [c0] + [c1] + [c2] + [c3] + [c4] + [c5];
    ExecAppend(s, [c0] + [c1] + [c2] + [c3] + [c4], [c5]);
    ExecAppend(s, [c0] + [c1] + [c2] + [c3], [c4]);
    ExecAppend(s, [c0] + [c1] + [c2], [c3]);
    ExecAppend(s, [c0] + [c1], [c2]);
    ExecAppend(s, [c0], [c1]);
    ExecOne(s, c0);
    var s1 := Exec(s, c0);
    ExecOne(s1, c1);
    var s2 := Exec(s1, c1);
    ExecOne(s2, c2);
    var s3 := Exec(s2, c2);
    ExecOne(s3, c3);
    var s4 := Exec(s3, c3);
    ExecOne(s4, c4);
    ExecOne(Exec(s4, c4), c5);
  }

  /** The switch with this VLAN table, the chip agreeing with it, and these addresses. */
  function With(s: Switch, cfg: map<Vid, set<Port>>, svi: map<Vid, set<nat>>): Switch {
    s.(cfg := cfg, svi := svi, chip := s.chip.(members := cfg))
  }

  lemma ExecMoves(s: Switch, cfg: map<Vid, set<Port>>, svi: map<Vid, set<nat>>, v: Vid, p: Port)
    requires v in cfg
    ensures p !in cfg[v] ==>
              Exec(With(s, cfg, svi), MemberAdd(v, p)) == With(s, cfg[v := cfg[v] + {p}], svi)
    ensures p in cfg[v] && !Pinned(s.chip, v, p) ==>
              Exec(With(s, cfg, svi), MemberDel(v, p)) == With(s, cfg[v := cfg[v] - {p}], svi)
  {
    assert With(s, cfg, svi).chip.fdb == s.chip.fdb;
    assert Pinned(With(s, cfg, svi).chip, v, p) == Pinned(s.chip, v, p);
  }

  /** Moving the two ports from one VLAN to another, one after the other. */
  lemma MoveBoth(s: Switch, cfg: map<Vid, set<Port>>, svi: map<Vid, set<nat>>,
                 x: Vid, y: Vid, p: Port, q: Port)
    requires x in cfg && y in cfg && x != y && p != q && {p, q} <= cfg[x] && {p, q} !! cfg[y]
    requires !Pinned(s.chip, x, p) && !Pinned(s.chip, x, q)
    ensures Move(Move(With(s, cfg, svi), x, y, p), x, y, q) ==
            With(s, cfg[x := cfg[x] - {p, q}][y := cfg[y] + {p, q}], svi)
  {
    ExecMoves(s, cfg, svi, x, p);
    var c1 := cfg[x := cfg[x] - {p}];
    ExecMoves(s, c1, svi, y, p);
    var c2 := c1[y := cfg[y] + {p}];
    ExecMoves(s, c2, svi, x, q);
    var c3 := c2[x := c2[x] - {q}];
    ExecMoves(s, c3, svi, y, q);
    var c4 := c3[y := c3[y] + {q}];
    assert c4[x] == cfg[x] - {p, q} && c4[y] == cfg[y] + {p, q};
    assert c4 == cfg[x := cfg[x] - {p, q}][y := cfg[y] + {p, q}];
  }

  lemma ExecVlans(s: Switch, cfg: map<Vid, set<Port>>, svi: map<Vid, set<nat>>, v: Vid)
    ensures v !in cfg ==> Exec(With(s, cfg, svi), VlanAdd(v)) == With(s, cfg[v := {}], svi[v := {}])
    ensures v in cfg && cfg[v] == {} && v in svi && svi[v] == {} ==>
              Exec(With(s, cfg, svi), VlanDel(v)) ==
              With(s, cfg - {v}, svi - {v}).(deleted := s.deleted + [{}])
  {
  }

  lemma ExecIps(s: Switch, cfg: map<Vid, set<Port>>, svi: map<Vid, set<nat>>, v: Vid, ip: nat)
    requires v in svi
    ensures Exec(With(s, cfg, svi), IpAdd(v, ip)) == With(s, cfg, svi[v := svi[v] + {ip}])
    ensures Exec(With(s, cfg, svi), IpDel(v, ip)) == With(s, cfg, svi[v := svi[v] - {ip}])
  {
  }

  /** The two ports back in the default VLAN, and nothing else changed. */
  function AtDefault(s: Switch, pl: Plan): Switch { s.(chip := s.chip.(pvid := Reset(s, pl))) }

  function Reset(s: Switch, pl: Plan): map<Port, Vid> { s.chip.pvid[pl.pIn := pl.dflt][pl.pOut := pl.dflt] }

  lemma ExecKeepsPvid(s: Switch, c: Cmd)
    ensures Exec(s, c).chip.pvid == s.chip.pvid
  {
  }

  lemma MoveKeepsPvid(s: Switch, x: Vid, y: Vid, p: Port)
    ensures Move(s, x, y, p).chip.pvid == s.chip.pvid
  {
    ExecKeepsPvid(s, MemberDel(x, p));
    ExecKeepsPvid(Exec(s, MemberDel(x, p)), MemberAdd(y, p));
  }

  /** Whatever a failed case left behind, the set-up ends with both ports in the default VLAN, and touches
      the VLAN of no other port. */
  lemma SetupResetsPvids(s: Switch, pl: Plan)
    ensures AfterSetup(s, pl).chip.pvid == s.chip.pvid[pl.pIn := pl.dflt][pl.pOut := pl.dflt]
  {
    var s0 := SetPvid(SetPvid(s, pl.pIn, pl.dflt), pl.pOut, pl.dflt);
    var s1 := Exec(s0, VlanAdd(pl.a));
    ExecKeepsPvid(s0, VlanAdd(pl.a));
    MoveKeepsPvid(s1, pl.dflt, pl.a, pl.pIn);
    MoveKeepsPvid(Move(s1, pl.dflt, pl.a, pl.pIn), pl.dflt, pl.a, pl.pOut);
    var s2 := AfterMoves(s0, pl);
    ExecKeepsPvid(s2, VlanAdd(pl.b));
    if pl.svi != [] { ExecKeepsPvid(Exec(s2, VlanAdd(pl.b)), IpAdd(pl.b, pl.svi[0])); }
  }

  lemma SetupVlans(s: Switch, pl: Plan, c1: map<Vid, set<Port>>, c2: map<Vid, set<Port>>)
    requires Ready(s, pl)
    requires c1 == s.cfg[pl.a := {}]
    requires c2 == c1[pl.dflt := c1[pl.dflt] - {pl.pIn, pl.pOut}][pl.a := {} + {pl.pIn, pl.pOut}]
    ensures c2[pl.b := {}] == UpCfg(s, pl) && pl.b !in c2
    ensures UpCfg(s, pl)[pl.b := {}] == UpCfg(s, pl)
  {
    assert {} + {pl.pIn, pl.pOut} == {pl.pIn, pl.pOut};
  }

  /** The set-up up to VLAN B: both ports moved to VLAN A. */
  lemma MovesAreIn(s: Switch, pl: Plan)
    requires Ready(s, pl)
    ensures var c1: map<Vid, set<Port>> := s.cfg[pl.a := {}];
            var c2: map<Vid, set<Port>> :=
              c1[pl.dflt := c1[pl.dflt] - {pl.pIn, pl.pOut}][pl.a := {} + {pl.pIn, pl.pOut}];
            AfterMoves(SetPvid(SetPvid(s, pl.pIn, pl.dflt), pl.pOut, pl.dflt), pl) ==
            With(AtDefault(s, pl), c2, s.svi[pl.a := {}])
  {
    var s1 := SetPvid(SetPvid(s, pl.pIn, pl.dflt), pl.pOut, pl.dflt);
    assert s1 == With(s1, s.cfg, s.svi);
    ExecVlans(s1, s.cfg, s.svi, pl.a);
    MoveBoth(s1, s.cfg[pl.a := {}], s.svi[pl.a := {}], pl.dflt, pl.a, pl.pIn, pl.pOut);
  }

  /** And from there: VLAN B, its address, and the loops. */
  lemma FinishIsUp(s: Switch, pl: Plan, c2: map<Vid, set<Port>>)
    requires Ready(s, pl) && pl.b !in c2 && c2[pl.b := {}] == UpCfg(s, pl)
    ensures AfterFinish(With(s, c2, s.svi[pl.a := {}]), pl) ==
            SetLoop(SetLoop(With(s, UpCfg(s, pl), UpSvi(s, pl)), pl.pIn, true), pl.pOut, true)
  {
    var v1: map<Vid, set<nat>> := s.svi[pl.a := {}];
    ExecVlans(s, c2, v1, pl.b);
    var v2: map<Vid, set<nat>> := v1[pl.b := {}];
    if pl.svi != [] {
      ExecIps(s, UpCfg(s, pl), v2, pl.b, pl.svi[0]);
      assert v2[pl.b := {} + {pl.svi[0]}] == UpSvi(s, pl) by { assert {} + {pl.svi[0]} == {pl.svi[0]}; }
    }
  }

  lemma SetupIsUp(s: Switch, pl: Plan)
    requires Ready(s, pl)
    ensures AfterSetup(s, pl) == Up(s, pl, Reset(s, pl), s.chip.fdb, {})
  {
    var c1: map<Vid, set<Port>> := s.cfg[pl.a := {}];
    var c2: map<Vid, set<Port>> := c1[pl.dflt := c1[pl.dflt] - {pl.pIn, pl.pOut}][pl.a := {} + {pl.pIn, pl.pOut}];
    MovesAreIn(s, pl);
    SetupVlans(s, pl, c1, c2);
    FinishIsUp(AtDefault(s, pl), pl, c2);
  }

  /** The members VLAN B has on the chip after one use. */
  function MembersAfter(b: set<Port>, pl: Plan, u: Use): set<Port> {
    if u.PuntBToCpu? then b + {pl.pOut, Cpu} else b
  }

  function FdbAfter(fdb: map<(Vid, nat), Port>, pl: Plan, u: Use): map<(Vid, nat), Port> {
    match u
    case FdbToOut(mac) => fdb[(pl.a, mac) := pl.pOut]
    case PuntBToCpu(mac) => fdb[(pl.b, mac) := Cpu]
    case PvidWrite(_, _) => fdb
  }

  function PvidAfter(pv: map<Port, Vid>, pl: Plan, u: Use): map<Port, Vid> {
    if u.PvidWrite? then pv[(if u.near then pl.pIn else pl.pOut) := u.v] else pv
  }

  /** Whatever is done between set-up and tear-down stays within the set-up state. */
  lemma UseStaysUp(s: Switch, pl: Plan, pv: map<Port, Vid>, fdb: map<(Vid, nat), Port>, b: set<Port>, u: Use)
    requires Ready(s, pl)
    ensures After(Up(s, pl, pv, fdb, b), pl, u) ==
            Up(s, pl, PvidAfter(pv, pl, u), FdbAfter(fdb, pl, u), MembersAfter(b, pl, u))
  {
    var up := Up(s, pl, pv, fdb, b);
    if u.PuntBToCpu? {
      assert up.chip.members[pl.b := b + {pl.pOut, Cpu}] == up.cfg[pl.b := b + {pl.pOut, Cpu}];
    }
  }

  lemma UpIsArmed(s: Switch, pl: Plan, pv: map<Port, Vid>, fdb: map<(Vid, nat), Port>, b: set<Port>)
    requires Ready(s, pl) && Cpu !in s.chip.looped
    requires pl.pIn !in s.chip.discard && pl.pOut !in s.chip.discard
    requires pl.pIn in pv && pv[pl.pIn] == pl.a && pl.pOut in pv && pv[pl.pOut] == pl.b
    requires b <= {pl.pOut, Cpu}
    requires forall k :: k in fdb && k.0 in {pl.a, pl.b} ==> fdb[k] in {pl.pOut, Cpu}
    ensures Armed(Up(s, pl, pv, fdb, b).chip, pl)
  {
  }

  /** What a sequence of uses amounts to. */
  function FdbAll(fdb: map<(Vid, nat), Port>, pl: Plan, us: seq<Use>): map<(Vid, nat), Port>
    decreases |us|
  {
    if us == [] then fdb else FdbAll(FdbAfter(fdb, pl, us[0]), pl, us[1..])
  }

  function PvidAll(pv: map<Port, Vid>, pl: Plan, us: seq<Use>): map<Port, Vid>
    decreases |us|
  {
    if us == [] then pv else PvidAll(PvidAfter(pv, pl, us[0]), pl, us[1..])
  }

  function MembersAll(b: set<Port>, pl: Plan, us: seq<Use>): set<Port>
    decreases |us|
  {
    if us == [] then b else MembersAll(MembersAfter(b, pl, us[0]), pl, us[1..])
  }

  lemma {:induction false} UsesStayUp(s: Switch, pl: Plan, pv: map<Port, Vid>, fdb: map<(Vid, nat), Port>,
                                      b: set<Port>, us: seq<Use>)
    requires Ready(s, pl)
    ensures AfterAll(Up(s, pl, pv, fdb, b), pl, us) ==
            Up(s, pl, PvidAll(pv, pl, us), FdbAll(fdb, pl, us), MembersAll(b, pl, us))
    decreases |us|
  {
    if us != [] {
      UseStaysUp(s, pl, pv, fdb, b, us[0]);
      UsesStayUp(s, pl, PvidAfter(pv, pl, us[0]), FdbAfter(fdb, pl, us[0]), MembersAfter(b, pl, us[0]), us[1..]);
    }
  }

  function UsedKeys(pl: Plan, us: seq<Use>): set<(Vid, nat)> {
    (set u | u in us && u.FdbToOut? :: (pl.a, u.mac)) + (set u | u in us && u.PuntBToCpu? :: (pl.b, u.mac))
  }

  lemma UsedKeysCons(pl: Plan, us: seq<Use>)
    requires us != []
    ensures UsedKeys(pl, us) ==
            UsedKeys(pl, us[1..]) +
            (match us[0]
             case FdbToOut(mac) => {(pl.a, mac)}
             case PuntBToCpu(mac) => {(pl.b, mac)}
             case PvidWrite(_, _) => {})
  {
    assert forall u :: u in us <==> u == us[0] || u in us[1..];
  }

  lemma {:induction false} FdbAllDomain(fdb: map<(Vid, nat), Port>, pl: Plan, us: seq<Use>)
    ensures FdbAll(fdb, pl, us).Keys == fdb.Keys + UsedKeys(pl, us)
    decreases |us|
  {
    if us != [] {
      FdbAllDomain(FdbAfter(fdb, pl, us[0]), pl, us[1..]);
      UsedKeysCons(pl, us);
    }
  }

  lemma {:induction false} FdbAllValues(fdb: map<(Vid, nat), Port>, pl: Plan, us: seq<Use>, k: (Vid, nat))
    requires Valid(pl) && k in FdbAll(fdb, pl, us)
    ensures || (k in fdb && FdbAll(fdb, pl, us)[k] == fdb[k])
            || (k.0 == pl.a && FdbAll(fdb, pl, us)[k] == pl.pOut)
            || (k.0 == pl.b && FdbAll(fdb, pl, us)[k] == Cpu)
    decreases |us|
  {
    if us != [] { FdbAllValues(FdbAfter(fdb, pl, us[0]), pl, us[1..], k); }
  }

  /** The static entries left by the uses: the ones of before, one for each address used. */
  lemma FdbAllKeys(fdb: map<(Vid, nat), Port>, pl: Plan, us: seq<Use>)
    requires Valid(pl)
    ensures FdbAll(fdb, pl, us).Keys == fdb.Keys
              + (set u | u in us && u.FdbToOut? :: (pl.a, u.mac))
              + (set u | u in us && u.PuntBToCpu? :: (pl.b, u.mac))
    ensures forall k :: k in FdbAll(fdb, pl, us) ==>
              || (k in fdb && FdbAll(fdb, pl, us)[k] == fdb[k])
              || (k.0 == pl.a && FdbAll(fdb, pl, us)[k] == pl.pOut)
              || (k.0 == pl.b && FdbAll(fdb, pl, us)[k] == Cpu)
  {
    FdbAllDomain(fdb, pl, us);
    forall k | k in FdbAll(fdb, pl, us)
      ensures || (k in fdb && FdbAll(fdb, pl, us)[k] == fdb[k])
              || (k.0 == pl.a && FdbAll(fdb, pl, us)[k] == pl.pOut)
              || (k.0 == pl.b && FdbAll(fdb, pl, us)[k] == Cpu)
    {
      FdbAllValues(fdb, pl, us, k);
    }
  }

  lemma {:induction false} PvidAllBack(pv: map<Port, Vid>, pl: Plan, us: seq<Use>, v: Vid)
    requires Valid(pl)
    ensures PvidAll(pv, pl, us)[pl.pIn := v][pl.pOut := v] == pv[pl.pIn := v][pl.pOut := v]
    decreases |us|
  {
    if us != [] {
      PvidAllBack(PvidAfter(pv, pl, us[0]), pl, us[1..], v);
    }
  }

  // ---- what was set up and armed drains ----

  lemma {:induction false} MembersAllFull(b: set<Port>, pl: Plan, us: seq<Use>, mac: nat)
    requires b <= {pl.pOut, Cpu} && PuntBToCpu(mac) in us
    ensures MembersAll(b, pl, us) == {pl.pOut, Cpu}
    decreases |us|
  {
    var b1 := MembersAfter(b, pl, us[0]);
    if PuntBToCpu(mac) in us[1..] {
      MembersAllFull(b1, pl, us[1..], mac);
    } else {
      assert us[0] == PuntBToCpu(mac);
      MembersAllKeeps(pl, us[1..]);
      assert b1 == {pl.pOut, Cpu};
    }
  }

  lemma {:induction false} MembersAllKeeps(pl: Plan, us: seq<Use>)
    ensures MembersAll({pl.pOut, Cpu}, pl, us) == {pl.pOut, Cpu}
    decreases |us|
  {
    if us != [] {
      assert MembersAfter({pl.pOut, Cpu}, pl, us[0]) == {pl.pOut, Cpu};
      MembersAllKeeps(pl, us[1..]);
    }
  }

  /** Both ports classify as the asymmetry needs it. */
  predicate Aimed(c: Chip, pl: Plan) {
    pl.pIn in c.pvid && c.pvid[pl.pIn] == pl.a && pl.pOut in c.pvid && c.pvid[pl.pOut] == pl.b
  }

  /** The chip lets the ports in and does not loop the CPU. */
  predicate Sound(c: Chip, pl: Plan) {
    Cpu !in c.looped && pl.pIn !in c.discard && pl.pOut !in c.discard
  }

  /** After set-up and any uses that leave the PVIDs aimed, the hairpin is armed, VLAN A sends every
      destination out, and VLAN B none back in. */
  lemma UsesAreSafe(s: Switch, pl: Plan, us: seq<Use>, d: Dst)
    requires Ready(s, pl) && Sound(s.chip, pl) && Aimed(AfterAll(AfterSetup(s, pl), pl, us).chip, pl)
    ensures var c := AfterAll(AfterSetup(s, pl), pl, us).chip;
            && Armed(c, pl) && ForwardsOut(c, pl, d) && !Storms(c, pl, d)
            && c.fdb == FdbAll(s.chip.fdb, pl, us) && c.members[pl.b] == MembersAll({}, pl, us)
  {
    var fdb := FdbAll(s.chip.fdb, pl, us);
    SetupIsUp(s, pl);
    UsesStayUp(s, pl, Reset(s, pl), s.chip.fdb, {}, us);
    FdbAllKeys(s.chip.fdb, pl, us);
    MembersAllBack({}, pl, us);
    UpIsArmed(s, pl, PvidAll(Reset(s, pl), pl, us), fdb, MembersAll({}, pl, us));
  }

  /** From set-up to the last frame: after any uses that leave the PVIDs aimed, capture aids for any
      number of addresses included, and after learning from any frames on the two ports, every
      multiset of frames on them is gone after two passes, whatever the destinations. */
  lemma SessionDrains(s: Switch, pl: Plan, us: seq<Use>, ls: seq<(Port, nat)>, frames: multiset<Frame>, r: nat)
    requires Ready(s, pl) && Sound(s.chip, pl) && Aimed(AfterAll(AfterSetup(s, pl), pl, us).chip, pl)
    requires forall i :: 0 <= i < |ls| ==> ls[i].0 in {pl.pIn, pl.pOut}
    requires r >= 2 && forall f :: f in frames ==> f.port in {pl.pIn, pl.pOut}
    ensures TotalInFlight(LearnAll(AfterAll(AfterSetup(s, pl), pl, us).chip, ls), frames, r) == 0
  {
    var c := AfterAll(AfterSetup(s, pl), pl, us).chip;
    UsesAreSafe(s, pl, us, Broadcast);
    forall f | f in frames ensures !Storms(LearnAll(c, ls), pl, f.dst) {
      UsesAreSafe(s, pl, us, f.dst);
      LearnedStaysSafe(c, pl, ls, f.dst);
    }
    LearnedStaysSafe(c, pl, ls, Broadcast);
    AllFramesDrain(LearnAll(c, ls), pl, frames, r);
  }

  /** And every frame from the near port leaves the far port exactly once, and reaches the CPU exactly
      once if its address is captured. */
  lemma SessionDelivers(s: Switch, pl: Plan, us: seq<Use>, d: Dst, r: nat)
    requires Ready(s, pl) && Sound(s.chip, pl) && Aimed(AfterAll(AfterSetup(s, pl), pl, us).chip, pl) && r >= 2
    ensures var c := AfterAll(AfterSetup(s, pl), pl, us).chip;
            && Delivered(c, pl.pIn, d, pl.pOut, r) == 1
            && (d.Unicast? && PuntBToCpu(d.mac) in us ==> Delivered(c, pl.pIn, d, Cpu, r) == 1)
  {
    var c := AfterAll(AfterSetup(s, pl), pl, us).chip;
    UsesAreSafe(s, pl, us, d);
    HairpinDeliversOnce(c, pl, d, r);
    if d.Unicast? && PuntBToCpu(d.mac) in us {
      FdbAllKeys(s.chip.fdb, pl, us);
      MembersAllFull({}, pl, us, d.mac);
      PuntedFrameReachesCpu(c, pl, d, r);
    }
  }

  lemma {:induction false} NoWritesNoPvids(pv: map<Port, Vid>, pl: Plan, us: seq<Use>)
    requires forall i :: 0 <= i < |us| ==> !us[i].PvidWrite?
    ensures PvidAll(pv, pl, us) == pv
    decreases |us|
  {
    if us != [] { NoWritesNoPvids(pv, pl, us[1..]); }
  }

  /** Arming is two uses, and aims; capture aids alone leave it so. */
  lemma ArmedIsAimed(s: Switch, pl: Plan, us: seq<Use>)
    requires Ready(s, pl) && forall i :: 0 <= i < |us| ==> !us[i].PvidWrite?
    ensures var all := [PvidWrite(true, pl.a), PvidWrite(false, pl.b)] + us;
            && AfterAll(AfterArm(AfterSetup(s, pl), pl), pl, us) == AfterAll(AfterSetup(s, pl), pl, all)
            && Aimed(AfterAll(AfterSetup(s, pl), pl, all).chip, pl)
  {
    var w1, w2 := PvidWrite(true, pl.a), PvidWrite(false, pl.b);
    var all := [w1, w2] + us;
    assert all[1..] == [w2] + us && all[1..][1..] == us;
    SetupIsUp(s, pl);
    UsesStayUp(s, pl, Reset(s, pl), s.chip.fdb, {}, all);
    var pv := Reset(s, pl)[pl.pIn := pl.a][pl.pOut := pl.b];
    NoWritesNoPvids(pv, pl, us);
    assert PvidAll(Reset(s, pl), pl, all) == pv;
  }

  /** Arming a fresh hairpin arms it, and so it stays over any sequence of capture aids. */
  lemma SetupAndArm(s: Switch, pl: Plan, us: seq<Use>)
    requires Ready(s, pl) && Sound(s.chip, pl)
    requires forall i :: 0 <= i < |us| ==> !us[i].PvidWrite?
    ensures Armed(AfterAll(AfterArm(AfterSetup(s, pl), pl), pl, us).chip, pl)
  {
    ArmedIsAimed(s, pl, us);
    UsesAreSafe(s, pl, [PvidWrite(true, pl.a), PvidWrite(false, pl.b)] + us, Broadcast);
  }

  /** Set up, armed, and any sequence of capture aids: every frame on either port is gone after two
      passes, and each one from the near port has left the far port exactly once. */
  lemma ArmedSessionDrains(s: Switch, pl: Plan, us: seq<Use>, frames: multiset<Frame>, d: Dst, r: nat)
    requires Ready(s, pl) && Sound(s.chip, pl) && r >= 2
    requires forall i :: 0 <= i < |us| ==> !us[i].PvidWrite?
    requires forall f :: f in frames ==> f.port in {pl.pIn, pl.pOut}
    ensures var c := AfterAll(AfterArm(AfterSetup(s, pl), pl), pl, us).chip;
            && TotalInFlight(c, frames, r) == 0
            && Delivered(c, pl.pIn, d, pl.pOut, r) == 1
  {
    var all := [PvidWrite(true, pl.a), PvidWrite(false, pl.b)] + us;
    ArmedIsAimed(s, pl, us);
    SessionDrains(s, pl, all, [], frames, r);
    SessionDelivers(s, pl, all, d, r);
  }

  // ---- tear-down ----

  /** Each aid was used for at most one address. */
  predicate SingleTargets(us: seq<Use>) {
    forall i, j :: 0 <= i < |us| && 0 <= j < |us| ==>
      && (us[i].FdbToOut? && us[j].FdbToOut? ==> us[i].mac == us[j].mac)
      && (us[i].PuntBToCpu? && us[j].PuntBToCpu? ==> us[i].mac == us[j].mac)
  }

  /** The remembered addresses are the last ones used. */
  lemma {:induction false} LastUses(us: seq<Use>)
    ensures LastFdb(us).Just? <==> exists u :: u in us && u.FdbToOut?
    ensures LastFdb(us).Just? ==> FdbToOut(LastFdb(us).value) in us
    ensures LastPunt(us).Just? <==> exists u :: u in us && u.PuntBToCpu?
    ensures LastPunt(us).Just? ==> PuntBToCpu(LastPunt(us).value) in us
    decreases |us|
  {
    if us != [] {
      var n := |us| - 1;
      LastUses(us[..n]);
      assert us == us[..n] + [us[n]];
    }
  }

  lemma {:induction false} MembersAllBack(b: set<Port>, pl: Plan, us: seq<Use>)
    requires b <= {pl.pOut, Cpu}
    ensures MembersAll(b, pl, us) <= {pl.pOut, Cpu}
    ensures (forall u :: u in us ==> !u.PuntBToCpu?) ==> MembersAll(b, pl, us) == b
    decreases |us|
  {
    if us != [] {
      assert us[0] in us;
      MembersAllBack(MembersAfter(b, pl, us[0]), pl, us[1..]);
    }
  }

  /** The static entries that the tear-down leaves. */
  function FdbLeft(fdb: map<(Vid, nat), Port>, pl: Plan, us: seq<Use>): map<(Vid, nat), Port> {
    FdbAll(fdb, pl, us)
      - (if LastPunt(us).Just? then {(pl.b, LastPunt(us).value)} else {})
      - (if LastFdb(us).Just? then {(pl.a, LastFdb(us).value)} else {})
  }

  lemma SingleTargetsAreLast(us: seq<Use>, u: Use)
    requires SingleTargets(us) && u in us
    ensures u.FdbToOut? ==> LastFdb(us) == Just(u.mac)
    ensures u.PuntBToCpu? ==> LastPunt(us) == Just(u.mac)
  {
    LastUses(us);
  }

  /** Two addresses for one aid: one of them is not the last. */
  lemma ForgottenTarget(us: seq<Use>) returns (u: Use)
    requires !SingleTargets(us)
    ensures u in us && (u.FdbToOut? || u.PuntBToCpu?)
    ensures u.FdbToOut? ==> LastFdb(us) != Just(u.mac)
    ensures u.PuntBToCpu? ==> LastPunt(us) != Just(u.mac)
  {
    LastUses(us);
    var i, j :| 0 <= i < |us| && 0 <= j < |us| &&
      !(&& (us[i].FdbToOut? && us[j].FdbToOut? ==> us[i].mac == us[j].mac)
        && (us[i].PuntBToCpu? && us[j].PuntBToCpu? ==> us[i].mac == us[j].mac));
    u := if us[i].FdbToOut? then (if LastFdb(us) == Just(us[i].mac) then us[j] else us[i])
         else (if LastPunt(us) == Just(us[i].mac) then us[j] else us[i]);
  }

  lemma SingleLeavesNothing(fdb: map<(Vid, nat), Port>, pl: Plan, us: seq<Use>)
    requires Valid(pl) && (forall k :: k in fdb ==> k.0 != pl.a && k.0 != pl.b) && SingleTargets(us)
    ensures FdbLeft(fdb, pl, us) == fdb
  {
    FdbAllKeys(fdb, pl, us);
    LastUses(us);
    var left := FdbLeft(fdb, pl, us);
    forall u | u in us
      ensures u.FdbToOut? ==> LastFdb(us) == Just(u.mac)
      ensures u.PuntBToCpu? ==> LastPunt(us) == Just(u.mac)
    {
      SingleTargetsAreLast(us, u);
    }
    assert left.Keys == fdb.Keys;
  }

  lemma ForgottenIsLeft(fdb: map<(Vid, nat), Port>, pl: Plan, us: seq<Use>, u: Use)
    requires Valid(pl) && u in us
    requires (u.FdbToOut? && LastFdb(us) != Just(u.mac)) || (u.PuntBToCpu? && LastPunt(us) != Just(u.mac))
    ensures (if u.FdbToOut? then pl.a else pl.b, u.mac) in FdbLeft(fdb, pl, us)
  {
    FdbAllKeys(fdb, pl, us);
    var k := (if u.FdbToOut? then pl.a else pl.b, u.mac);
    assert k in FdbAll(fdb, pl, us).Keys;
  }

  lemma FdbLeftExactly(fdb: map<(Vid, nat), Port>, pl: Plan, us: seq<Use>)
    requires Valid(pl) && forall k :: k in fdb ==> k.0 != pl.a && k.0 != pl.b
    ensures FdbLeft(fdb, pl, us) == fdb <==> SingleTargets(us)
  {
    if SingleTargets(us) {
      SingleLeavesNothing(fdb, pl, us);
    } else {
      var u := ForgottenTarget(us);
      ForgottenIsLeft(fdb, pl, us, u);
      var k := (if u.FdbToOut? then pl.a else pl.b, u.mac);
      assert k !in fdb;
    }
  }

  lemma {:induction false} ExecKeepsChip(s: Switch, cmds: seq<Cmd>)
    ensures ExecAll(s, cmds).chip.fdb == s.chip.fdb
    ensures ExecAll(s, cmds).chip.pvid == s.chip.pvid
    ensures ExecAll(s, cmds).chip.looped == s.chip.looped
    decreases |cmds|
  {
    if cmds != [] { ExecKeepsChip(Exec(s, cmds[0]), cmds[1..]); }
  }

  lemma EmptyAgain(cfg: map<Vid, set<Port>>, v: Vid, b: set<Port>, outs: set<Port>)
    requires v in cfg && cfg[v] == {} && b <= outs
    ensures cfg[v := b][v := b - outs] == cfg && cfg[v := {}] == cfg
  {
    assert b - outs == {};
  }

  lemma UpUnwinds(s: Switch, pl: Plan, pv: map<Port, Vid>, fdb: map<(Vid, nat), Port>, b: set<Port>,
                  f: Maybe<nat>, p: Maybe<nat>)
    requires Ready(s, pl) && b <= {pl.pOut, Cpu} && (p.Nothing? ==> b == {})
    requires pv[pl.pIn := pl.dflt][pl.pOut := pl.dflt] == s.chip.pvid
    ensures BeforeUndo(Up(s, pl, pv, fdb, b), pl, f, p) ==
            With(s.(chip := s.chip.(fdb := fdb - (if p.Just? then {(pl.b, p.value)} else {})
                                               - (if f.Just? then {(pl.a, f.value)} else {}))),
                 UpCfg(s, pl), UpSvi(s, pl))
  {
    var up := Up(s, pl, pv, fdb, b);
    var cfg := UpCfg(s, pl);
    var s1 := if p.Just? then Unpunt(up, pl, p.value) else up;
    assert s1.chip.members == cfg by {
      EmptyAgain(cfg, pl.b, b, {pl.pOut, Cpu});
      assert b - {pl.pOut, Cpu} == {};
    }
    assert fdb - {} == fdb;
    assert s.chip.looped + {pl.pIn} + {pl.pOut} - {pl.pIn} - {pl.pOut} == s.chip.looped;
  }

  /** The switch with both ports in the default VLAN and the static entries a session leaves. */
  function Leftover(s: Switch, pl: Plan, us: seq<Use>): Switch {
    AtDefault(s, pl).(chip := AtDefault(s, pl).chip.(fdb := FdbLeft(s.chip.fdb, pl, us)))
  }

  lemma UpFromDefault(s: Switch, pl: Plan, pv: map<Port, Vid>, fdb: map<(Vid, nat), Port>, b: set<Port>)
    requires Ready(s, pl)
    ensures Ready(AtDefault(s, pl), pl)
    ensures Up(AtDefault(s, pl), pl, pv, fdb, b) == Up(s, pl, pv, fdb, b)
  {
  }

  lemma UsesAreUp(s: Switch, pl: Plan, us: seq<Use>)
    requires Ready(s, pl)
    ensures AfterAll(AfterSetup(s, pl), pl, us) ==
            Up(s, pl, PvidAll(Reset(s, pl), pl, us), FdbAll(s.chip.fdb, pl, us), MembersAll({}, pl, us))
  {
    SetupIsUp(s, pl);
    UsesStayUp(s, pl, Reset(s, pl), s.chip.fdb, {}, us);
  }

  lemma BeforeUndoIs(s: Switch, pl: Plan, us: seq<Use>)
    requires Ready(s, pl)
    ensures BeforeUndo(AfterAll(AfterSetup(s, pl), pl, us), pl, LastFdb(us), LastPunt(us)) ==
            With(Leftover(s, pl, us), UpCfg(s, pl), UpSvi(s, pl))
  {
    UsesAreUp(s, pl, us);
    MembersAllBack({}, pl, us);
    LastUses(us);
    PvidAllBack(Reset(s, pl), pl, us, pl.dflt);
    UpUnwindsToDefault(s, pl, PvidAll(Reset(s, pl), pl, us), FdbAll(s.chip.fdb, pl, us), MembersAll({}, pl, us),
                       LastFdb(us), LastPunt(us));
  }

  lemma UpUnwindsToDefault(s: Switch, pl: Plan, pv: map<Port, Vid>, fdb: map<(Vid, nat), Port>, b: set<Port>,
                           f: Maybe<nat>, p: Maybe<nat>)
    requires Ready(s, pl) && b <= {pl.pOut, Cpu} && (p.Nothing? ==> b == {})
    requires pv[pl.pIn := pl.dflt][pl.pOut := pl.dflt] == Reset(s, pl)[pl.pIn := pl.dflt][pl.pOut := pl.dflt]
    ensures var d := AtDefault(s, pl);
            BeforeUndo(Up(s, pl, pv, fdb, b), pl, f, p) ==
            With(d.(chip := d.chip.(fdb := fdb - (if p.Just? then {(pl.b, p.value)} else {})
                                               - (if f.Just? then {(pl.a, f.value)} else {}))),
                 UpCfg(s, pl), UpSvi(s, pl))
  {
    UpFromDefault(s, pl, pv, fdb, b);
    assert Reset(s, pl)[pl.pIn := pl.dflt][pl.pOut := pl.dflt] == Reset(s, pl);
    UpUnwinds(AtDefault(s, pl), pl, pv, fdb, b, f, p);
  }

  lemma UndoOrder(pl: Plan)
    ensures Backwards(SetupUndo(pl)) ==
            (if pl.svi == [] then [] else [IpDel(pl.b, pl.svi[0])]) +
            [VlanDel(pl.b), MemberDel(pl.a, pl.pOut), MemberAdd(pl.dflt, pl.pOut),
             MemberDel(pl.a, pl.pIn), MemberAdd(pl.dflt, pl.pIn), VlanDel(pl.a)]
  {
    var six := [VlanDel(pl.a), MemberAdd(pl.dflt, pl.pIn), MemberDel(pl.a, pl.pIn),
                MemberAdd(pl.dflt, pl.pOut), MemberDel(pl.a, pl.pOut), VlanDel(pl.b)];
    var last := if pl.svi == [] then [] else [IpDel(pl.b, pl.svi[0])];
    BackwardsAppend(six, last);
    BackwardsSix(VlanDel(pl.a), MemberAdd(pl.dflt, pl.pIn), MemberDel(pl.a, pl.pIn),
                 MemberAdd(pl.dflt, pl.pOut), MemberDel(pl.a, pl.pOut), VlanDel(pl.b));
    if pl.svi != [] { assert last[1..] == []; }
    assert Backwards(last) == last;
  }

  lemma {:induction false} BackwardsAppend(xs: seq<Cmd>, ys: seq<Cmd>)
    ensures Backwards(xs + ys) == Backwards(ys) + Backwards(xs)
  {
    if xs == [] {
      assert xs + ys == ys;
    } else {
      assert (xs + ys)[1..] == xs[1..] + ys;
      BackwardsAppend(xs[1..], ys);
    }
  }

  lemma BackwardsSix(c0: Cmd, c1: Cmd, c2: Cmd, c3: Cmd, c4: Cmd, c5: Cmd)
    ensures Backwards([c0, c1, c2, c3, c4, c5]) == [c5, c4, c3, c2, c1, c0]
  {
    BackwardsAppend([c0, c1, c2], [c3, c4, c5]);
    assert [c0, c1, c2] + [c3, c4, c5] == [c0, c1, c2, c3, c4, c5];
    assert [c0, c1, c2][1..] == [c1, c2] && [c1, c2][1..] == [c2] && [c2][1..] == [];
    assert [c3, c4, c5][1..] == [c4, c5] && [c4, c5][1..] == [c5] && [c5][1..] == [];
    assert Backwards([c2]) == [c2] && Backwards([c5]) == [c5];
    assert Backwards([c1, c2]) == [c2, c1] && Backwards([c4, c5]) == [c5, c4];
  }

  /** The same switch but for static entries of the chip. */
  predicate ButFdb(s: Switch, base: Switch) {
    base == s.(chip := s.chip.(fdb := base.chip.fdb))
  }

  /** The six commands that follow the address, from the set-up state. */
  function SixUndone(at: Switch, pl: Plan): Switch {
    Exec(Move(Move(Exec(at, VlanDel(pl.b)), pl.a, pl.dflt, pl.pOut), pl.a, pl.dflt, pl.pIn), VlanDel(pl.a))
  }

  /** The undo stack takes the address off first, and then runs the six. */
  lemma UndoIsSix(s: Switch, pl: Plan, base: Switch)
    requires Ready(s, pl) && ButFdb(s, base)
    ensures ExecAll(With(base, UpCfg(s, pl), UpSvi(s, pl)), Backwards(SetupUndo(pl))) ==
            SixUndone(With(base, UpCfg(s, pl), s.svi[pl.a := {}][pl.b := {}]), pl)
  {
    UndoOrder(pl);
    var cfg, svi := UpCfg(s, pl), UpSvi(s, pl);
    var up := With(base, cfg, svi);
    var six := [VlanDel(pl.b), MemberDel(pl.a, pl.pOut), MemberAdd(pl.dflt, pl.pOut),
                MemberDel(pl.a, pl.pIn), MemberAdd(pl.dflt, pl.pIn), VlanDel(pl.a)];
    var svi1: map<Vid, set<nat>> := s.svi[pl.a := {}][pl.b := {}];
    var e0 := With(base, cfg, svi1);
    if pl.svi == [] {
      assert [] + six == six;
      assert svi == svi1;
    } else {
      var del := IpDel(pl.b, pl.svi[0]);
      ExecAppend(up, [del], six);
      ExecOne(up, del);
      ExecIps(base, cfg, svi, pl.b, pl.svi[0]);
      assert svi[pl.b := svi[pl.b] - {pl.svi[0]}] == svi1 by {
        assert {pl.svi[0]} - {pl.svi[0]} == {};
      }
    }
    ExecSix(e0, VlanDel(pl.b), MemberDel(pl.a, pl.pOut), MemberAdd(pl.dflt, pl.pOut),
            MemberDel(pl.a, pl.pIn), MemberAdd(pl.dflt, pl.pIn), VlanDel(pl.a));
  }

  /** VLAN B goes first, empty. */
  lemma UndoB(s: Switch, pl: Plan, base: Switch)
    requires Ready(s, pl) && ButFdb(s, base)
    ensures Exec(With(base, UpCfg(s, pl), s.svi[pl.a := {}][pl.b := {}]), VlanDel(pl.b)) ==
            With(base.(deleted := s.deleted + [{}]), UpCfg(s, pl) - {pl.b}, s.svi[pl.a := {}])
  {
    var svi: map<Vid, set<nat>> := s.svi[pl.a := {}][pl.b := {}];
    ExecVlans(base, UpCfg(s, pl), svi, pl.b);
    assert svi - {pl.b} == s.svi[pl.a := {}];
  }

  /** Both ports go back, and VLAN A is empty. */
  lemma BothGoHome(s: Switch, pl: Plan, s1: Switch)
    requires Ready(s, pl)
    requires !Pinned(s1.chip, pl.a, pl.pOut) && !Pinned(s1.chip, pl.a, pl.pIn)
    ensures var c1: map<Vid, set<Port>> := UpCfg(s, pl) - {pl.b};
            var v1: map<Vid, set<nat>> := s.svi[pl.a := {}];
            Move(Move(With(s1, c1, v1), pl.a, pl.dflt, pl.pOut), pl.a, pl.dflt, pl.pIn) ==
            With(s1, s.cfg[pl.a := {}], v1)
  {
    var c1: map<Vid, set<Port>> := UpCfg(s, pl) - {pl.b};
    MoveBoth(s1, c1, s.svi[pl.a := {}], pl.a, pl.dflt, pl.pOut, pl.pIn);
    HomeAgain(s, pl, c1[pl.a := c1[pl.a] - {pl.pOut, pl.pIn}][pl.dflt := c1[pl.dflt] + {pl.pOut, pl.pIn}]);
  }

  /** When no static entry holds the far port in VLAN A, both ports go home and A is deleted, empty. */
  lemma UndoA(s: Switch, pl: Plan, base: Switch)
    requires Ready(s, pl) && ButFdb(s, base)
    requires !Pinned(base.chip, pl.a, pl.pOut) && !Pinned(base.chip, pl.a, pl.pIn)
    ensures SixUndone(With(base, UpCfg(s, pl), s.svi[pl.a := {}][pl.b := {}]), pl) ==
            base.(deleted := s.deleted + [{}] + [{}])
  {
    UndoB(s, pl, base);
    var s1 := base.(deleted := s.deleted + [{}]);
    BothGoHome(s, pl, s1);
    var c2: map<Vid, set<Port>> := s.cfg[pl.a := {}];
    var v1: map<Vid, set<nat>> := s.svi[pl.a := {}];
    ExecVlans(s1, c2, v1, pl.a);
    assert c2 - {pl.a} == s.cfg && v1 - {pl.a} == s.svi;
  }

  lemma HomeAgain(s: Switch, pl: Plan, c2: map<Vid, set<Port>>)
    requires Ready(s, pl)
    requires c2.Keys == s.cfg.Keys + {pl.a} && pl.dflt in c2 && pl.a in c2
    requires c2[pl.dflt] == s.cfg[pl.dflt] - {pl.pIn, pl.pOut} + {pl.pOut, pl.pIn}
    requires c2[pl.a] == {pl.pIn, pl.pOut} - {pl.pOut, pl.pIn}
    requires forall v :: v in s.cfg && v != pl.dflt ==> c2[v] == s.cfg[v]
    ensures c2 == s.cfg[pl.a := {}]
  {
    assert c2[pl.dflt] == s.cfg[pl.dflt];
    assert c2[pl.a] == {};
  }

  /** When one does, the far port stays in VLAN A as well, and A is not deleted. */
  lemma UndoPinned(s: Switch, pl: Plan, base: Switch)
    requires Ready(s, pl) && ButFdb(s, base)
    requires Pinned(base.chip, pl.a, pl.pOut) && !Pinned(base.chip, pl.a, pl.pIn)
    ensures SixUndone(With(base, UpCfg(s, pl), s.svi[pl.a := {}][pl.b := {}]), pl) ==
            With(base.(deleted := s.deleted + [{}]), s.cfg[pl.a := {pl.pOut}], s.svi[pl.a := {}])
  {
    UndoB(s, pl, base);
    var s1 := base.(deleted := s.deleted + [{}]);
    var c1: map<Vid, set<Port>> := UpCfg(s, pl) - {pl.b};
    var v1: map<Vid, set<nat>> := s.svi[pl.a := {}];
    PinnedStays(s1, c1, v1, pl.a, pl.pOut);
    ExecMoves(s1, c1, v1, pl.dflt, pl.pOut);
    var c2: map<Vid, set<Port>> := c1[pl.dflt := c1[pl.dflt] + {pl.pOut}];
    ExecMoves(s1, c2, v1, pl.a, pl.pIn);
    var c3: map<Vid, set<Port>> := c2[pl.a := c2[pl.a] - {pl.pIn}];
    ExecMoves(s1, c3, v1, pl.dflt, pl.pIn);
    var c4: map<Vid, set<Port>> := c3[pl.dflt := c3[pl.dflt] + {pl.pIn}];
    KeptInA(s, pl, c4);
    assert Exec(With(s1, c4, v1), VlanDel(pl.a)) == With(s1, c4, v1);
  }

  lemma PinnedStays(s: Switch, cfg: map<Vid, set<Port>>, svi: map<Vid, set<nat>>, v: Vid, p: Port)
    requires v in cfg && Pinned(s.chip, v, p)
    ensures Exec(With(s, cfg, svi), MemberDel(v, p)) == With(s, cfg, svi)
  {
    assert With(s, cfg, svi).chip.fdb == s.chip.fdb;
    assert Pinned(With(s, cfg, svi).chip, v, p);
  }

  lemma KeptInA(s: Switch, pl: Plan, c4: map<Vid, set<Port>>)
    requires Ready(s, pl)
    requires c4.Keys == s.cfg.Keys + {pl.a} && pl.dflt in c4 && pl.a in c4
    requires c4[pl.dflt] == s.cfg[pl.dflt] - {pl.pIn, pl.pOut} + {pl.pOut} + {pl.pIn}
    requires c4[pl.a] == {pl.pIn, pl.pOut} - {pl.pIn}
    requires forall v :: v in s.cfg && v != pl.dflt ==> c4[v] == s.cfg[v]
    ensures c4 == s.cfg[pl.a := {pl.pOut}]
  {
    assert c4[pl.dflt] == s.cfg[pl.dflt];
    assert c4[pl.a] == {pl.pOut};
  }

  /** Replaying the undo stack over an intact set-up brings the switch back. */
  lemma UndoRestores(s: Switch, pl: Plan)
    requires Ready(s, pl)
    ensures ExecAll(With(s, UpCfg(s, pl), UpSvi(s, pl)), Backwards(SetupUndo(pl))) ==
            s.(deleted := s.deleted + [{}] + [{}])
  {
    assert !Pinned(s.chip, pl.a, pl.pOut) && !Pinned(s.chip, pl.a, pl.pIn);
    UndoIsSix(s, pl, s);
    UndoA(s, pl, s);
  }

  /** Some address was sent to the far port and is not the one that is remembered. */
  predicate ForgottenFdb(us: seq<Use>) {
    exists i :: 0 <= i < |us| && us[i].FdbToOut? && LastFdb(us) != Just(us[i].mac)
  }

  /** Its entry is what holds the far port in VLAN A. */
  lemma PinnedExactly(s: Switch, pl: Plan, us: seq<Use>, base: Switch)
    requires Ready(s, pl) && base.chip.fdb == FdbLeft(s.chip.fdb, pl, us)
    ensures Pinned(base.chip, pl.a, pl.pOut) <==> ForgottenFdb(us)
    ensures !Pinned(base.chip, pl.a, pl.pIn)
  {
    FdbAllKeys(s.chip.fdb, pl, us);
    var left := FdbLeft(s.chip.fdb, pl, us);
    if ForgottenFdb(us) {
      var i :| 0 <= i < |us| && us[i].FdbToOut? && LastFdb(us) != Just(us[i].mac);
      assert us[i] in us && (pl.a, us[i].mac) in left;
    }
    if Pinned(base.chip, pl.a, pl.pOut) {
      var k :| k in left && k.0 == pl.a && left[k] == pl.pOut;
      var u :| u in us && u.FdbToOut? && k == (pl.a, u.mac);
      var i :| 0 <= i < |us| && us[i] == u;
    }
  }

  /** What a session leaves, in every case: both ports in the default VLAN, wherever they were; the static
      entries of forgotten addresses; and if one of them is in VLAN A, that VLAN with the far port in it.
      Whatever is deleted is empty on the chip. */
  lemma SessionLeaves(s: Switch, pl: Plan, us: seq<Use>)
    requires Ready(s, pl)
    ensures var base := Leftover(s, pl, us);
            Session(s, pl, us) ==
              if ForgottenFdb(us)
              then With(base.(deleted := s.deleted + [{}]), s.cfg[pl.a := {pl.pOut}], s.svi[pl.a := {}])
              else base.(deleted := s.deleted + [{}] + [{}])
  {
    var base, d := Leftover(s, pl, us), AtDefault(s, pl);
    BeforeUndoIs(s, pl, us);
    UndoIsSix(d, pl, base);
    PinnedExactly(d, pl, us, base);
    if ForgottenFdb(us) {
      UndoPinned(d, pl, base);
    } else {
      UndoA(d, pl, base);
    }
  }

  /** Set-up is undone: for whatever is done in between, including an `arm` that failed half way
      and VLANs written back by the product, tear-down returns the switch to its state of before, with
      both ports in the default VLAN, if and only if each capture aid was used for at most one address,
      and then has deleted both VLANs while the chip had no members in them.  Loopback and port VLANs
      come back in every case. */
  lemma SessionRestoresExactly(s: Switch, pl: Plan, us: seq<Use>)
    requires Ready(s, pl)
    ensures Session(s, pl, us).(deleted := s.deleted) == AtDefault(s, pl) <==> SingleTargets(us)
    ensures Session(s, pl, us).(deleted := s.deleted) == s <==>
            SingleTargets(us) && s.chip.pvid[pl.pIn := pl.dflt][pl.pOut := pl.dflt] == s.chip.pvid
    ensures SingleTargets(us) ==> Session(s, pl, us).deleted == s.deleted + [{}] + [{}]
    ensures Session(s, pl, us).chip.pvid == s.chip.pvid[pl.pIn := pl.dflt][pl.pOut := pl.dflt]
    ensures Session(s, pl, us).chip.looped == s.chip.looped
  {
    SessionLeaves(s, pl, us);
    FdbLeftExactly(s.chip.fdb, pl, us);
    if SingleTargets(us) { SingleForgetsNone(us); }
  }

  lemma SingleForgetsNone(us: seq<Use>)
    requires SingleTargets(us)
    ensures !ForgottenFdb(us)
  {
    forall i | 0 <= i < |us| && us[i].FdbToOut? ensures LastFdb(us) == Just(us[i].mac) {
      SingleTargetsAreLast(us, us[i]);
    }
  }

  lemma {:induction false} AfterAllAppend(s: Switch, pl: Plan, us: seq<Use>, u: Use)
    ensures AfterAll(s, pl, us + [u]) == After(AfterAll(s, pl, us), pl, u)
    ensures LastFdb(us + [u]) == if u.FdbToOut? then Just(u.mac) else LastFdb(us)
    ensures LastPunt(us + [u]) == if u.PuntBToCpu? then Just(u.mac) else LastPunt(us)
    decreases |us|
  {
    assert (us + [u])[..|us|] == us;
    if us != [] {
      assert (us + [u])[1..] == us[1..] + [u];
      AfterAllAppend(After(s, pl, us[0]), pl, us[1..], u);
    } else {
      assert [u][1..] == [];
    }
  }

  /** Nothing changed but the VLAN of this port. */
  predicate OnlyPvid(before: Switch, now: Switch, p: Port) {
    now == before || (p in now.chip.pvid && now == SetPvid(before, p, now.chip.pvid[p]))
  }

  lemma SetPvidTwice(s: Switch, now: Switch, p: Port, v: Vid)
    requires OnlyPvid(s, now, p)
    ensures SetPvid(now, p, v) == SetPvid(s, p, v)
    ensures OnlyPvid(s, SetPvid(now, p, v), p)
  {
    if now != s {
      assert s.chip.pvid[p := now.chip.pvid[p]][p := v] == s.chip.pvid[p := v];
    }
  }

  // ---- what arming without an exception means ----

  /** Both ports where their read-backs ended. */
  function AfterReadback(s: Switch, pl: Plan, backIn: seq<Maybe<nat>>, backOut: seq<Maybe<nat>>): Switch {
    SetPvid(SetPvid(s, pl.pIn, Ends(pl.a, backIn)), pl.pOut, Ends(pl.b, backOut))
  }

  /** It means that the hairpin is aimed exactly when both VLANs read are the wanted ones. */
  lemma ArmAimsExactly(s: Switch, pl: Plan, backIn: seq<Maybe<nat>>, backOut: seq<Maybe<nat>>)
    requires Valid(pl) && Settles(pl.a, backIn).Just? && Settles(pl.b, backOut).Just?
    ensures Aimed(AfterReadback(s, pl, backIn, backOut).chip, pl) <==>
            Settles(pl.a, backIn) == Just(pl.a) && Settles(pl.b, backOut) == Just(pl.b)
    ensures Aimed(AfterReadback(s, pl, backIn, backOut).chip, pl) ==>
              AfterReadback(s, pl, backIn, backOut) == AfterArm(s, pl)
  {
  }

  /** And it can be relied on, for whatever the product writes back from `others`, if and only if none
      of those VLANs is mistaken for A and none for B. */
  lemma ArmBelievableExactly(s: Switch, pl: Plan, others: set<Vid>)
    requires Valid(pl)
    ensures (forall backIn, backOut :: ArmedFrom(pl, backIn, backOut, others) ==>
               Aimed(AfterReadback(s, pl, backIn, backOut).chip, pl)) <==>
            Unmistaken(pl.a, others) && Unmistaken(pl.b, others)
  {
    var fine: seq<Maybe<nat>> := [Nothing];
    if Unmistaken(pl.a, others) && Unmistaken(pl.b, others) {
      forall backIn, backOut | ArmedFrom(pl, backIn, backOut, others)
        ensures Aimed(AfterReadback(s, pl, backIn, backOut).chip, pl)
      {
        SettlesWithin(pl.a, backIn, others);
        SettlesWithin(pl.b, backOut, others);
      }
    } else if !Unmistaken(pl.a, others) {
      var w :| w in others && ReadsAs(w, pl.a) && w != pl.a;
      var bad: seq<Maybe<nat>> := [Just(w)];
      assert ArmedFrom(pl, bad, fine, others) && !Aimed(AfterReadback(s, pl, bad, fine).chip, pl);
    } else {
      var w :| w in others && ReadsAs(w, pl.b) && w != pl.b;
      var bad: seq<Maybe<nat>> := [Just(w)];
      assert ArmedFrom(pl, fine, bad, others) && !Aimed(AfterReadback(s, pl, fine, bad).chip, pl);
    }
  }

  /** Arming raises nothing, and the product writes back only these VLANs. */
  predicate ArmedFrom(pl: Plan, backIn: seq<Maybe<nat>>, backOut: seq<Maybe<nat>>, others: set<Vid>) {
    From(backIn, others) && From(backOut, others) && Settles(pl.a, backIn).Just? && Settles(pl.b, backOut).Just?
  }

  /** The input on which it goes wrong: VLAN A is 100, the default VLAN is 1000, and the product
      writes the default back once.  Arming raises nothing, the near port is in the default VLAN, and
      what enters on it floods there, if it is let in at all, and never leaves the far port. */
  lemma HundredReadsThousand(s: Switch, pl: Plan)
    requires Ready(s, pl) && Sound(s.chip, pl) && pl.a == 100 && pl.dflt == 1000
    ensures Settles(pl.a, [Just(1000)]) == Just(1000) && Settles(pl.b, [Nothing]) == Just(pl.b)
    ensures var c := AfterReadback(AfterSetup(s, pl), pl, [Just(1000)], [Nothing]).chip;
            && c.pvid[pl.pIn] == pl.dflt && !Aimed(c, pl)
            && Egress(c, pl.pIn, Broadcast) == (if c.filter then {} else s.cfg[pl.dflt] - {pl.pIn, pl.pOut})
  {
    TenfoldReadsAs(100);
    SetupIsUp(s, pl);
  }

  // ---- the topology object ----

  class Hairpin {
    const plan: Plan
    var sw: Switch
    var undo: seq<Cmd>
    var undoFdb: Maybe<nat>
    var undoPunt: Maybe<nat>
    /** The switch right before and right after the set-up, and what was done since. */
    ghost var start: Switch
    ghost var base: Switch
    ghost var uses: seq<Use>

    ghost predicate Begun()
      reads this
    {
      base == AfterSetup(start, plan)
    }

    /** The hairpin is up, and its records say what it takes to bring it down. */
    ghost predicate Live()
      reads this
    {
      && sw == AfterAll(base, plan, uses)
      && undo == SetupUndo(plan)
      && undoFdb == LastFdb(uses) && undoPunt == LastPunt(uses)
    }

    constructor (plan: Plan, sw: Switch)
      ensures this.plan == plan && this.sw == sw && undo == [] && undoFdb == undoPunt == Nothing
    {
      this.plan, this.sw, undo, undoFdb, undoPunt := plan, sw, [], Nothing, Nothing;
      start, base, uses := sw, sw, [];
    }

    method Config(c: Cmd)
      modifies this`sw
      ensures sw == Exec(old(sw), c)
    {
      sw := Exec(sw, c);
    }

    /** Issues a command and registers what undoes it. */
    method Do(c: Cmd, inverse: Cmd)
      modifies this`sw, this`undo
      ensures sw == Exec(old(sw), c) && undo == old(undo) + [inverse]
    {
      Config(c);
      undo := undo + [inverse];
    }

    /** Moves one port from the default VLAN to VLAN A. */
    method MoveIn(p: Port)
      modifies this`sw, this`undo
      ensures sw == Move(old(sw), plan.dflt, plan.a, p)
      ensures undo == old(undo) + [MemberAdd(plan.dflt, p), MemberDel(plan.a, p)]
    {
      Do(MemberDel(plan.dflt, p), MemberAdd(plan.dflt, p));
      Do(MemberAdd(plan.a, p), MemberDel(plan.a, p));
    }

    method AddressB()
      modifies this`sw, this`undo
      ensures sw == if plan.svi == [] then old(sw) else Exec(old(sw), IpAdd(plan.b, plan.svi[0]))
      ensures undo == old(undo) + if plan.svi == [] then [] else [IpDel(plan.b, plan.svi[0])]
    {
      if plan.svi != [] {
        Do(IpAdd(plan.b, plan.svi[0]), IpDel(plan.b, plan.svi[0]));
      }
    }

    /** The VLANs and the members, from the pre-cleaned switch. */
    method MoveAll()
      modifies this`sw, this`undo
      ensures sw == AfterMoves(old(sw), plan)
      ensures undo == old(undo) + SetupUndo(plan)[..5]
    {
      Do(VlanAdd(plan.a), VlanDel(plan.a));
      MoveIn(plan.pIn);
      MoveIn(plan.pOut);
    }

    /** VLAN B with its address, and loopback on both ports. */
    method FinishSetup()
      modifies this`sw, this`undo
      ensures sw == AfterFinish(old(sw), plan)
      ensures undo == old(undo) + SetupUndo(plan)[5..]
    {
      Do(VlanAdd(plan.b), VlanDel(plan.b));
      AddressB();
      sw := SetLoop(SetLoop(sw, plan.pIn, true), plan.pOut, true);
    }

    /** Both ports classify into the default VLAN, whatever an earlier use left. */
    method Preclean()
      modifies this`sw
      ensures sw == SetPvid(SetPvid(old(sw), plan.pIn, plan.dflt), plan.pOut, plan.dflt)
    {
      sw := SetPvid(SetPvid(sw, plan.pIn, plan.dflt), plan.pOut, plan.dflt);
    }

    /** The commands of the set-up. */
    method Raise()
      modifies this`sw, this`undo
      ensures sw == AfterSetup(old(sw), plan) && undo == old(undo) + SetupUndo(plan)
    {
      Preclean();
      MoveAll();
      FinishSetup();
      UndoInTwo(old(undo), plan);
    }

    method Setup()
      modifies this
      ensures sw == AfterSetup(old(sw), plan)
      ensures undo == old(undo) + SetupUndo(plan)
      ensures undoFdb == old(undoFdb) && undoPunt == old(undoPunt)
      ensures start == old(sw) && Begun()
      ensures old(undo) == [] && old(undoFdb) == old(undoPunt) == Nothing ==> Live()
    {
      start, uses := sw, [];
      Raise();
      base := sw;
    }

    ghost method Note(u: Use)
      modifies this`uses
      ensures uses == old(uses) + [u]
      ensures AfterAll(base, plan, uses) == After(AfterAll(base, plan, old(uses)), plan, u)
      ensures LastFdb(uses) == if u.FdbToOut? then Just(u.mac) else LastFdb(old(uses))
      ensures LastPunt(uses) == if u.PuntBToCpu? then Just(u.mac) else LastPunt(old(uses))
    {
      AfterAllAppend(base, plan, uses, u);
      uses := uses + [u];
    }

    /** One write of the VLAN of one port. */
    method PutPvid(near: bool, v: Vid)
      requires Live()
      modifies this`sw, this`uses
      ensures Live()
      ensures sw == SetPvid(old(sw), if near then plan.pIn else plan.pOut, v)
    {
      sw := SetPvid(sw, if near then plan.pIn else plan.pOut, v);
      Note(PvidWrite(near, v));
    }

    /** One attempt: writes, lets the product write `back`, and reads the text. */
    method TryPvid(near: bool, v: Vid, back: Maybe<nat>) returns (held: bool)
      requires Live()
      modifies this`sw, this`uses
      ensures Live()
      ensures held <==> Settles(v, [back]).Just?
      ensures sw == SetPvid(old(sw), if near then plan.pIn else plan.pOut, Ends(v, [back]))
    {
      var port := if near then plan.pIn else plan.pOut;
      ghost var before := sw;
      PutPvid(near, v);
      if back.Just? {
        SetPvidTwice(before, sw, port, back.value);
        PutPvid(near, back.value);
      }
      ReadsAsStep(v, v);
      held := ReadsAs(sw.chip.pvid[port], v);
    }

    /** Writes the VLAN of one port and reads it back, up to `|back|` times; `back[i]` is what
        the product writes between the two.  Succeeds exactly when some attempt was left alone or
        written back to a VLAN whose text starts with that of the wanted one, and then leaves the
        port there; otherwise where the last attempt left it. */
    method WritePvid(near: bool, v: Vid, back: seq<Maybe<nat>>) returns (held: bool)
      requires Live()
      modifies this`sw, this`uses
      ensures Live()
      ensures held <==> Settles(v, back).Just?
      ensures held <==> exists i :: 0 <= i < |back| && (back[i] == Nothing || ReadsAs(back[i].value, v))
      ensures sw == if back == [] then old(sw)
                    else SetPvid(old(sw), if near then plan.pIn else plan.pOut, Ends(v, back))
    {
      SettlesExactly(v, back);
      ghost var port := if near then plan.pIn else plan.pOut;
      var i := 0;
      while i < |back|
        invariant 0 <= i <= |back| && Live()
        invariant Settles(v, back[..i]) == Nothing
        invariant sw == if i == 0 then old(sw) else SetPvid(old(sw), port, Ends(v, back[..i]))
      {
        ghost var before := sw;
        held := TryPvid(near, v, back[i]);
        SetPvidTwice(old(sw), before, port, Ends(v, [back[i]]));
        EndsNext(v, back, i);
        if held {
          return;
        }
        i := i + 1;
      }
      assert back[..i] == back;
      held := false;
    }

    /** Near port to VLAN A, far port to VLAN B; raises as soon as one is not read back. */
    method Arm(backIn: seq<Maybe<nat>>, backOut: seq<Maybe<nat>>) returns (raised: bool)
      requires Live() && Valid(plan)
      modifies this`sw, this`uses
      ensures Live()
      ensures raised <==> Settles(plan.a, backIn).Nothing? || Settles(plan.b, backOut).Nothing?
      ensures !raised ==> sw == AfterReadback(old(sw), plan, backIn, backOut)
      ensures Settles(plan.a, backIn).Nothing? ==>
                sw == if backIn == [] then old(sw) else SetPvid(old(sw), plan.pIn, Ends(plan.a, backIn))
      ensures Nothing in backIn && Nothing in backOut ==> !raised
    {
      SettlesExactly(plan.a, backIn);
      SettlesExactly(plan.b, backOut);
      var held := WritePvid(true, plan.a, backIn);
      if !held { return true; }
      held := WritePvid(false, plan.b, backOut);
      raised := !held;
    }

    method FdbToOut(mac: nat)
      requires Live()
      modifies this`sw, this`undoFdb, this`uses
      ensures Live() && sw == AfterFdb(old(sw), plan, mac) && uses == old(uses) + [Use.FdbToOut(mac)]
    {
      sw := AfterFdb(sw, plan, mac);
      undoFdb := Just(mac);
      Note(Use.FdbToOut(mac));
    }

    method PuntBToCpu(mac: nat)
      requires Live()
      modifies this`sw, this`undoPunt, this`uses
      ensures Live() && sw == AfterPunt(old(sw), plan, mac) && uses == old(uses) + [Use.PuntBToCpu(mac)]
    {
      sw := AfterPunt(sw, plan, mac);
      undoPunt := Just(mac);
      Note(Use.PuntBToCpu(mac));
    }

    /** Brings the hairpin down: capture aids, port VLANs, loopback, then the undo stack from its
        end.  The switch is what it was before the set-up exactly when each aid was used for at
        most one address. */
    method Teardown()
      requires Begun() && Live()
      modifies this`sw, this`undo
      ensures undo == []
      ensures sw == Session(start, plan, uses)
      ensures Ready(start, plan) ==> (sw.(deleted := start.deleted) == AtDefault(start, plan) <==> SingleTargets(uses))
    {
      if undoPunt.Just? { sw := Unpunt(sw, plan, undoPunt.value); }
      if undoFdb.Just? { sw := Unfdb(sw, plan, undoFdb.value); }
      sw := SetPvid(SetPvid(sw, plan.pIn, plan.dflt), plan.pOut, plan.dflt);
      sw := SetLoop(SetLoop(sw, plan.pIn, false), plan.pOut, false);
      Replay();
      if Ready(start, plan) {
        SessionRestoresExactly(start, plan, uses);
      }
    }

    /** The undo stack from its end, and empty afterwards. */
    method Replay()
      modifies this`sw, this`undo
      ensures undo == []
      ensures sw == ExecAll(old(sw), Backwards(old(undo)))
    {
      var k := |undo|;
      assert undo[..k] == undo;
      while k > 0
        invariant 0 <= k <= |undo| && undo == old(undo)
        invariant ExecAll(old(sw), Backwards(undo)) == ExecAll(sw, Backwards(undo[..k]))
      {
        BackwardsStep(sw, undo[..k]);
        assert undo[..k][..k - 1] == undo[..k - 1];
        k := k - 1;
        Config(undo[k]);
      }
      undo := [];
    }
  }

  lemma UndoInTwo(before: seq<Cmd>, pl: Plan)
    ensures before + SetupUndo(pl)[..5] + SetupUndo(pl)[5..] == before + SetupUndo(pl)
  {
  }

  lemma BackwardsStep(s: Switch, undo: seq<Cmd>)
    requires undo != []
    ensures ExecAll(s, Backwards(undo)) ==
            ExecAll(Exec(s, undo[|undo| - 1]), Backwards(undo[..|undo| - 1]))
  {
    var k := |undo| - 1;
    assert undo == undo[..k] + [undo[k]];
    BackwardsAppend(undo[..k], [undo[k]]);
    assert Backwards([undo[k]]) == [undo[k]] by { assert [undo[k]][1..] == []; }
    ExecAppend(s, [undo[k]], Backwards(undo[..k]));
    ExecOne(s, undo[k]);
  }
}
