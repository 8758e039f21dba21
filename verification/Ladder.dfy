/** The hybrid ladder (framework/cli.py): moving a port into a test VLAN and back on images that
    refuse to delete a port's last VLAN or the VLAN its pvid points to. */
module Ladder {
  type Vid = nat

  /** One port: the VLAN it returns to, its VLANs, its pvid and mode, whether it is cached as an
      access port, and the deletions issued for it that the image refused. */
  datatype Port = Port(home: Vid, members: set<Vid>, pvid: Vid, hybrid: bool, cached: bool, refused: seq<Vid>)

  function AtHome(home: Vid): Port { Port(home, {home}, home, false, false, []) }

  /** Whether a command takes effect: never, before the program looks, or after that. */
  datatype Landing = Never | InTime | Late

  // ---- the image ----

  function GoHybrid(s: Port, landed: bool): Port { if landed then s.(hybrid := true) else s }

  /** An access port takes no explicit untagged member. */
  function Join(s: Port, v: Vid, landed: bool): Port {
    if landed && s.hybrid then s.(members := s.members + {v}) else s
  }

  /** A pvid lands on a member VLAN only. */
  function Point(s: Port, v: Vid, landed: bool): Port {
    if landed && s.hybrid && v in s.members then s.(pvid := v) else s
  }

  function Leave(s: Port, v: Vid, landed: bool): Port {
    if v !in s.members then s
    else if s.pvid == v || s.members == {v} then s.(refused := s.refused + [v])
    else if landed then s.(members := s.members - {v})
    else s
  }

  /** Access mode returns a port to its home VLAN. */
  function GoAccess(s: Port, landed: bool): Port {
    if landed then s.(members := {s.home}, pvid := s.home, hybrid := false) else s
  }

  // ---- the ladder ----

  datatype AddLands = AddLands(mode: bool, member: Landing, pvid: Landing)
  datatype DelLands = DelLands(pvid: Landing, member: bool, mode: bool)

  datatype Call =
    | Add(vid: Vid, up: AddLands)
    | Del(vid: Vid, other: Vid, down: DelLands)  // `other` is the remaining VLAN listed first
    | EnsureL2(landed: bool)

  function Climbed(s: Port, v: Vid, l: AddLands): Port {
    Join(GoHybrid(s, l.mode).(cached := false), v, l.member.InTime?)
  }

  function Added(s: Port, v: Vid, l: AddLands): Port {
    var t := Climbed(s, v, l);
    if v !in t.members then Join(t, v, l.member.Late?) else Point(t, v, !l.pvid.Never?)
  }

  function Lowered(s: Port, v: Vid, other: Vid, l: DelLands): Port {
    if s.members - {v} == {} then s else Point(s, other, l.pvid.InTime?)
  }

  function Deleted(s: Port, v: Vid, other: Vid, l: DelLands): Port {
    var t := Leave(Lowered(s, v, other, l), v, l.member);
    var u := if s.members - {v} == {} then t else Point(t, other, l.pvid.Late?);
    GoAccess(u, l.mode).(cached := false)
  }

  predicate Callable(s: Port, c: Call) {
    c.Del? && s.members - {c.vid} != {} ==> c.other in s.members - {c.vid}
  }

  function Step(s: Port, c: Call): Port
    requires Callable(s, c)
  {
    match c
    case Add(v, up) => Added(s, v, up)
    case Del(v, other, down) => Deleted(s, v, other, down)
    case EnsureL2(landed) => if s.cached || !landed then s else GoAccess(s, true).(cached := true)
  }

  predicate RunCallable(s: Port, cs: seq<Call>)
    decreases |cs|
  {
    cs != [] ==> Callable(s, cs[0]) && RunCallable(Step(s, cs[0]), cs[1..])
  }

  function Run(s: Port, cs: seq<Call>): Port
    requires RunCallable(s, cs)
    decreases |cs|
  {
    if cs == [] then s else Run(Step(s, cs[0]), cs[1..])
  }

  /** The home VLAN is kept, the pvid points inside the membership, an access port is home, and a
      port cached as L2 is one. */
  predicate Berthed(s: Port) {
    && s.home in s.members && s.pvid in s.members
    && (!s.hybrid ==> s.members == {s.home})
    && (s.cached ==> !s.hybrid)
  }

  predicate NotHome(s: Port, c: Call) { c.Add? || c.Del? ==> c.vid != s.home }

  lemma StepBerthed(s: Port, c: Call)
    requires Berthed(s) && Callable(s, c) && NotHome(s, c)
    ensures Berthed(Step(s, c)) && Step(s, c).home == s.home
  {
  }

  /** A call has a deletion refused exactly when it deletes the VLAN the pvid still points to: when
      the pvid command issued just before has not landed yet. */
  lemma StepRefusedExactly(s: Port, c: Call)
    requires Berthed(s) && Callable(s, c) && NotHome(s, c)
    ensures Step(s, c).refused ==
            s.refused + if c.Del? && s.pvid == c.vid && !c.down.pvid.InTime? then [c.vid] else []
  {
    assert s.refused + [] == s.refused;
    if c.Del? {
      assert s.home in s.members - {c.vid};
    }
  }

  /** What the home VLAN itself would add: it can also be the port's last one. */
  lemma DeletionRefusedExactly(s: Port, v: Vid, other: Vid, l: DelLands)
    requires s.pvid in s.members && Callable(s, Del(v, other, l)) && (!s.hybrid ==> s.members == {s.pvid})
    ensures Deleted(s, v, other, l).refused ==
            s.refused + if s.pvid == v && (s.members == {v} || !l.pvid.InTime?) then [v] else []
  {
    assert s.refused + [] == s.refused;
    assert v in s.members ==> (s.members == {v} <==> s.members - {v} == {});
  }

  /** Over the run, every deletion finds the pvid moved away. */
  predicate PvidFirst(s: Port, cs: seq<Call>)
    requires RunCallable(s, cs)
    decreases |cs|
  {
    cs != [] ==>
      && !(cs[0].Del? && s.pvid == cs[0].vid && !cs[0].down.pvid.InTime?)
      && PvidFirst(Step(s, cs[0]), cs[1..])
  }

  predicate Away(home: Vid, cs: seq<Call>) {
    forall i :: 0 <= i < |cs| && (cs[i].Add? || cs[i].Del?) ==> cs[i].vid != home
  }

  /** Over every run about other VLANs: the pvid never leaves the membership, the home VLAN is never
      lost, and nothing is refused exactly when every deletion finds the pvid moved. */
  lemma {:induction false} RunRefusesNothingExactly(s: Port, cs: seq<Call>)
    requires Berthed(s) && RunCallable(s, cs) && Away(s.home, cs)
    ensures Berthed(Run(s, cs)) && Run(s, cs).home == s.home
    ensures s.refused <= Run(s, cs).refused
    ensures Run(s, cs).refused == s.refused <==> PvidFirst(s, cs)
    decreases |cs|
  {
    if cs != [] {
      var c, t := cs[0], Step(s, cs[0]);
      StepBerthed(s, c);
      StepRefusedExactly(s, c);
      assert Away(s.home, cs[1..]) by {
        assert forall i :: 0 <= i < |cs| - 1 ==> cs[1..][i] == cs[i + 1];
      }
      RunRefusesNothingExactly(t, cs[1..]);
    }
  }

  /** Up and down again from home is the identity exactly when the way down switches the mode back
      and, if the pvid went up, moves it before the deletion. */
  lemma AddThenDelRestoresExactly(home: Vid, v: Vid, up: AddLands, down: DelLands)
    requires v != home
    ensures var s := AtHome(home);
            var mid := Added(s, v, up);
            && Callable(mid, Del(v, home, down))
            && (Deleted(mid, v, home, down) == s <==>
                (down.mode || !up.mode) && (mid.pvid == v ==> down.pvid.InTime?))
  {
    var s := AtHome(home);
    var mid := Added(s, v, up);
    StepBerthed(s, Add(v, up));
    StepRefusedExactly(mid, Del(v, home, down));
    if !up.mode {
      assert mid == s;
    }
  }

  /** Exactly when the way up moves the pvid, and exactly when it joins the VLAN: it can join without
      moving the pvid, also when it gave up waiting. */
  lemma AddReachesExactly(s: Port, v: Vid, up: AddLands)
    requires Berthed(s) && v != s.home && s.pvid != v && v !in s.members
    ensures var t := Added(s, v, up);
            && (t.pvid == v <==> (up.mode || s.hybrid) && up.member.InTime? && !up.pvid.Never?)
            && (v in t.members <==> (up.mode || s.hybrid) && !up.member.Never?)
  {
  }

  /** The way down takes the port out of every other test VLAN as well. */
  lemma DelDropsOtherVlans(s: Port, v: Vid, other: Vid, down: DelLands)
    requires Berthed(s) && v != s.home && Callable(s, Del(v, other, down))
    ensures Deleted(s, v, other, down).members ==
            if down.mode then {s.home}
            else if (s.pvid == v && !down.pvid.InTime?) || !down.member then s.members
            else s.members - {v}
  {
    assert s.home in s.members - {v};
    if v !in s.members { assert s.members - {v} == s.members; }
  }

  /** Where the way down leaves the pvid: home when the mode switches back, and otherwise in the remaining
      VLAN as soon as its command lands, before the deletion or after it. */
  lemma DelReachesExactly(s: Port, v: Vid, other: Vid, down: DelLands)
    requires Berthed(s) && v != s.home && Callable(s, Del(v, other, down))
    ensures var t := Deleted(s, v, other, down);
            && t.pvid == (if down.mode then s.home else if down.pvid.Never? then s.pvid else other)
            && (t.hybrid <==> s.hybrid && !down.mode) && !t.cached && t.home == s.home
  {
    assert s.home in s.members - {v};
    var low := Lowered(s, v, other, down);
    var t := Leave(low, v, down.member);
    assert other in t.members && t.hybrid == s.hybrid;
  }

  // ---- making a port L2 ----

  lemma EnsureExactly(s: Port, landed: bool)
    ensures var t := Step(s, EnsureL2(landed));
            && (t.cached <==> s.cached || landed)
            && (s.cached || !landed ==> t == s)
            && (!s.cached && landed ==> t.members == {s.home} && t.pvid == s.home && !t.hybrid)
  {
  }

  lemma LadderDropsCache(s: Port, c: Call)
    requires Callable(s, c) && !c.EnsureL2?
    ensures !Step(s, c).cached
  {
  }

  /** The cache never lies: after any run about other VLANs, a conversion that lands, or is skipped because
      the port is cached, leaves the port in its home VLAN alone, classified into it, and not hybrid. */
  lemma EnsureReturnsHome(s: Port, cs: seq<Call>)
    requires Berthed(s) && RunCallable(s, cs) && Away(s.home, cs)
    ensures var t := Step(Run(s, cs), EnsureL2(true));
            t.members == {s.home} && t.pvid == s.home && !t.hybrid && t.cached
  {
    RunRefusesNothingExactly(s, cs);
    EnsureExactly(Run(s, cs), true);
  }

  // ---- the program ----

  class Cli {
    var port: Port

    constructor (home: Vid)
      ensures port == AtHome(home)
    {
      port := AtHome(home);
    }

    /** `true` when the VLAN was joined and the pvid was seen to point to it. */
    method HybridLadderAdd(v: Vid, l: AddLands) returns (landed: bool)
      modifies this
      ensures port == Added(old(port), v, l)
      ensures landed <==>
                var t := Climbed(old(port), v, l);
                v in t.members && Point(t, v, l.pvid.InTime?).pvid == v
    {
      port := GoHybrid(port, l.mode);
      port := port.(cached := false);
      port := Join(port, v, l.member.InTime?);
      if v !in port.members {
        port := Join(port, v, l.member.Late?);
        return false;
      }
      landed := Point(port, v, l.pvid.InTime?).pvid == v;
      port := Point(port, v, !l.pvid.Never?);
    }

    method HybridLadderDel(v: Vid, other: Vid, l: DelLands)
      requires Callable(port, Del(v, other, l))
      modifies this
      ensures port == Deleted(old(port), v, other, l)
    {
      var others := port.members - {v};
      if others != {} {
        port := Point(port, other, l.pvid.InTime?);
      }
      port := Leave(port, v, l.member);
      if others != {} {
        port := Point(port, other, l.pvid.Late?);
      }
      port := GoAccess(port, l.mode);
      port := port.(cached := false);
    }

    method EnsurePortL2(landed: bool)
      modifies this
      ensures port == Step(old(port), EnsureL2(landed))
    {
      if !port.cached && landed {
        port := GoAccess(port, true);
        port := port.(cached := true);
      }
    }
  }
}
