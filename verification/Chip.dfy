/** The switching chip as the loopback topologies use it (framework/loopback.py, topo/hairpin.py):
    ingress classification by port VLAN, static forwarding entries, flooding, and looped ports
    whose egress comes straight back as ingress. */
module Chip {

  datatype Port = Cpu | Front(n: nat)

  type Vid = nat

  datatype Dst = Broadcast | Unicast(mac: nat)

  /** `filter` says whether the chip drops frames entering on a port that is not a member of
      the VLAN they are classified into; nothing below depends on it.  `discard` are the ports
      that drop what enters on them. */
  datatype Chip = Chip(pvid: map<Port, Vid>, members: map<Vid, set<Port>>,
                       fdb: map<(Vid, nat), Port>, looped: set<Port>, discard: set<Port>,
                       filter: bool)

  /** Whether a frame entering on `p` is classified into a VLAN and let in. */
  predicate Admitted(c: Chip, p: Port) {
    && p !in c.discard && p in c.pvid && c.pvid[p] in c.members
    && (c.filter ==> p in c.members[c.pvid[p]])
  }

  /** The ports a frame entering on `p` leaves by: the one of its forwarding entry, or all other
      members of the VLAN when there is none; never the port it came in on. */
  function Egress(c: Chip, p: Port, d: Dst): set<Port> {
    if !Admitted(c, p) then {}
    else
      var v := c.pvid[p];
      (if d.Unicast? && (v, d.mac) in c.fdb then {c.fdb[(v, d.mac)]} else c.members[v]) - {p}
  }

  /** The ports on which copies of the frame come back in. */
  function Reentry(c: Chip, p: Port, d: Dst): set<Port> {
    Egress(c, p, d) * c.looped
  }

  /** The number of copies in flight `r` rounds after one frame entered on `p`. */
  ghost function InFlight(c: Chip, p: Port, d: Dst, r: nat): nat
    decreases r, 0
  {
    if r == 0 then 1 else InFlightFrom(c, Reentry(c, p, d), d, r - 1)
  }

  /** The same for one frame entering on each port of `s`. */
  ghost function InFlightFrom(c: Chip, s: set<Port>, d: Dst, r: nat): nat
    decreases r, |s| + 1
  {
    if s == {} then 0
    else var q :| q in s; InFlight(c, q, d, r) + InFlightFrom(c, s - {q}, d, r)
  }

  /** How many copies leave by port `o` within `r` rounds of one frame entering on `p`. */
  ghost function Delivered(c: Chip, p: Port, d: Dst, o: Port, r: nat): nat
    decreases r, 0
  {
    if r == 0 then 0
    else (if o in Egress(c, p, d) then 1 else 0) + DeliveredFrom(c, Reentry(c, p, d), d, o, r - 1)
  }

  ghost function DeliveredFrom(c: Chip, s: set<Port>, d: Dst, o: Port, r: nat): nat
    decreases r, |s| + 1
  {
    if s == {} then 0
    else var q :| q in s; Delivered(c, q, d, o, r) + DeliveredFrom(c, s - {q}, d, o, r)
  }

  /** Many frames at once: copies in flight add up over the frames. */
  datatype Frame = Frame(port: Port, dst: Dst)

  ghost function TotalInFlight(c: Chip, frames: multiset<Frame>, r: nat): nat
    decreases |frames|
  {
    if frames == multiset{} then 0
    else var f :| f in frames; InFlight(c, f.port, f.dst, r) + TotalInFlight(c, frames - multiset{f}, r)
  }

  lemma {:induction false} TotalDrained(c: Chip, frames: multiset<Frame>, r: nat)
    requires forall f :: f in frames ==> InFlight(c, f.port, f.dst, r) == 0
    ensures TotalInFlight(c, frames, r) == 0
    decreases |frames|
  {
    if frames != multiset{} {
      var f :| f in frames && TotalInFlight(c, frames, r) ==
                 InFlight(c, f.port, f.dst, r) + TotalInFlight(c, frames - multiset{f}, r);
      TotalDrained(c, frames - multiset{f}, r);
    }
  }

  /** When every port of `s` contributes the same, so does the set, in proportion. */
  lemma {:induction false} InFlightUniform(c: Chip, s: set<Port>, d: Dst, r: nat, n: nat)
    requires forall q :: q in s ==> InFlight(c, q, d, r) == n
    ensures InFlightFrom(c, s, d, r) == |s| * n
    decreases |s|
  {
    if s != {} {
      var q := TakenOut(c, s, d, r);
      InFlightUniform(c, s - {q}, d, r, n);
      OneMore(|s|, n);
    }
  }

  lemma TakenOut(c: Chip, s: set<Port>, d: Dst, r: nat) returns (q: Port)
    requires s != {}
    ensures q in s && |s - {q}| == |s| - 1
    ensures InFlightFrom(c, s, d, r) == InFlight(c, q, d, r) + InFlightFrom(c, s - {q}, d, r)
  {
    q :| q in s && InFlightFrom(c, s, d, r) == InFlight(c, q, d, r) + InFlightFrom(c, s - {q}, d, r);
  }

  lemma OneMore(k: int, n: nat)
    ensures n + (k - 1) * n == k * n
  {
  }

  lemma {:induction false} DeliveredNothing(c: Chip, s: set<Port>, d: Dst, o: Port, r: nat)
    requires forall q :: q in s ==> Delivered(c, q, d, o, r) == 0
    ensures DeliveredFrom(c, s, d, o, r) == 0
    decreases |s|
  {
    if s != {} {
      var q :| q in s && DeliveredFrom(c, s, d, o, r) == Delivered(c, q, d, o, r) + DeliveredFrom(c, s - {q}, d, o, r);
      DeliveredNothing(c, s - {q}, d, o, r);
    }
  }

  /** A frame that nothing re-enters from is gone after one round and delivers once. */
  lemma DeadEnd(c: Chip, p: Port, d: Dst, o: Port, r: nat)
    requires Reentry(c, p, d) == {} && r >= 1
    ensures InFlight(c, p, d, r) == 0
    ensures Delivered(c, p, d, o, r) == if o in Egress(c, p, d) then 1 else 0
  {
  }

  // ---- storms and how isolation stops them ----

  function Power(b: int, e: nat): (p: int)
    ensures b >= 0 ==> p >= 0
  {
    if e == 0 then 1 else b * Power(b, e - 1)
  }

  /** The ports `bare` are the looped members of VLAN `t` and classify into it themselves. */
  predicate BareLoops(c: Chip, t: Vid, bare: set<Port>) {
    && t in c.members && bare <= c.members[t] && c.members[t] * c.looped == bare
    && forall p :: p in bare ==> p in c.pvid && c.pvid[p] == t && p !in c.discard
  }

  /** `k` bare looped ports in one VLAN: one flooded frame is exactly `(k-1)^r` frames after
      `r` rounds, so two ports never drain and three or more are a storm. */
  lemma {:induction false} BareLoopsMultiply(c: Chip, t: Vid, bare: set<Port>, p: Port, d: Dst, r: nat)
    requires BareLoops(c, t, bare) && p in bare
    requires d.Unicast? ==> (t, d.mac) !in c.fdb
    ensures InFlight(c, p, d, r) == Power(|bare| - 1, r)
    decreases r
  {
    if r > 0 {
      var again := bare - {p};
      assert Reentry(c, p, d) == again;
      assert |again| == |bare| - 1;
      forall q | q in again ensures InFlight(c, q, d, r - 1) == Power(|bare| - 1, r - 1) {
        BareLoopsMultiply(c, t, bare, q, d, r - 1);
      }
      InFlightUniform(c, again, d, r - 1, Power(|bare| - 1, r - 1));
    }
  }

  /** So a frame on one of them is ever gone exactly when it is the only one. */
  lemma BareLoopsDrainExactly(c: Chip, t: Vid, bare: set<Port>, p: Port, d: Dst)
    requires BareLoops(c, t, bare) && p in bare && NoEntry(c, t, d)
    ensures Drains(c, p, d) <==> |bare| == 1
  {
    assert |bare| >= 1 by { assert |bare - {p}| == |bare| - 1; }
    BareLoopsMultiply(c, t, bare, p, d, |c.looped| + 1);
    PowerZeroExactly(|bare| - 1, |c.looped| + 1);
    DrainsExactly(c, p, d, 0);
  }

  /** The looped members of VLAN `t` other than the injection port classify into isolation
      VLANs that at most they themselves are members of. */
  predicate FloodSafe(c: Chip, t: Vid, inj: Port) {
    && t in c.members && inj in c.members[t] && Admitted(c, inj) && c.pvid[inj] == t
    && forall p :: p in c.members[t] * c.looped && p != inj ==>
         p in c.pvid && (c.pvid[p] in c.members ==> c.members[c.pvid[p]] <= {p})
  }

  /** With every looped port isolated, one flooded frame from the injection port leaves by every
      other member exactly once, by nothing else, and is gone after two rounds. */
  lemma FloodReachesEachOnce(c: Chip, t: Vid, inj: Port, d: Dst, o: Port, r: nat)
    requires FloodSafe(c, t, inj) && r >= 2
    requires d.Unicast? ==> (t, d.mac) !in c.fdb
    requires forall q: Port, m: nat :: q in c.members[t] * c.looped && q != inj && q in c.pvid && d == Unicast(m) ==>
               (c.pvid[q], m) !in c.fdb
    ensures InFlight(c, inj, d, r) == 0
    ensures Delivered(c, inj, d, o, r) == if o in c.members[t] && o != inj then 1 else 0
    ensures InFlight(c, inj, d, 1) == |c.members[t] * c.looped - {inj}|
  {
    var again := Reentry(c, inj, d);
    assert again == c.members[t] * c.looped - {inj};
    forall q | q in again
      ensures InFlight(c, q, d, r - 1) == 0 && Delivered(c, q, d, o, r - 1) == 0
    {
      assert Egress(c, q, d) == {};
      DeadEnd(c, q, d, o, r - 1);
    }
    InFlightNone(c, again, d, r - 1);
    DeliveredNothing(c, again, d, o, r - 1);
    InFlightOnce(c, inj, d);
  }

  /** A set of entries drains exactly when each of them does. */
  lemma {:induction false} InFlightNone(c: Chip, s: set<Port>, d: Dst, r: nat)
    ensures InFlightFrom(c, s, d, r) == 0 <==> forall q :: q in s ==> InFlight(c, q, d, r) == 0
    decreases |s|
  {
    if s != {} {
      var x :| x in s && InFlightFrom(c, s, d, r) == InFlight(c, x, d, r) + InFlightFrom(c, s - {x}, d, r);
      InFlightNone(c, s - {x}, d, r);
      assert forall q :: q in s <==> q == x || q in s - {x};
    }
  }

  lemma InFlightOnce(c: Chip, p: Port, d: Dst)
    ensures InFlight(c, p, d, 1) == |Reentry(c, p, d)|
  {
    InFlightUniform(c, Reentry(c, p, d), d, 0, 1);
  }

  /** Nothing in flight stays nothing. */
  lemma {:induction false} DrainedStays(c: Chip, p: Port, d: Dst, r: nat, r': nat)
    requires InFlight(c, p, d, r) == 0 && r <= r'
    ensures InFlight(c, p, d, r') == 0
    decreases r
  {
    if r > 0 {
      var again := Reentry(c, p, d);
      InFlightNone(c, again, d, r - 1);
      forall q | q in again ensures InFlight(c, q, d, r' - 1) == 0 {
        DrainedStays(c, q, d, r - 1, r' - 1);
      }
      InFlightNone(c, again, d, r' - 1);
    }
  }

  // ---- whether a frame is ever gone ----

  ghost predicate Drains(c: Chip, p: Port, d: Dst) { exists r: nat :: InFlight(c, p, d, r) == 0 }

  /** The looped ports from which a frame is still in flight after `r` rounds. */
  ghost function Alive(c: Chip, d: Dst, r: nat): set<Port> {
    set q | q in c.looped && InFlight(c, q, d, r) != 0
  }

  lemma AliveStep(c: Chip, p: Port, d: Dst, r: nat)
    ensures InFlight(c, p, d, r + 1) != 0 <==> Reentry(c, p, d) * Alive(c, d, r) != {}
  {
    InFlightNone(c, Reentry(c, p, d), d, r);
  }

  lemma AliveShrinks(c: Chip, d: Dst, r: nat)
    ensures Alive(c, d, r + 1) <= Alive(c, d, r)
  {
    forall q | q in Alive(c, d, r + 1) ensures q in Alive(c, d, r) {
      if InFlight(c, q, d, r) == 0 { DrainedStays(c, q, d, r, r + 1); }
    }
  }

  /** Once it has not shrunk it never does again. */
  lemma AliveRests(c: Chip, d: Dst, r: nat)
    requires Alive(c, d, r + 1) == Alive(c, d, r)
    ensures Alive(c, d, r + 2) == Alive(c, d, r + 1)
  {
    forall q | q in c.looped ensures InFlight(c, q, d, r + 2) != 0 <==> InFlight(c, q, d, r + 1) != 0 {
      AliveStep(c, q, d, r);
      AliveStep(c, q, d, r + 1);
    }
  }

  /** Every round loses a port or is the last to do so, and there are only so many. */
  lemma {:induction false} AliveCounts(c: Chip, d: Dst, r: nat)
    ensures |Alive(c, d, r)| + r <= |c.looped| || Alive(c, d, r + 1) == Alive(c, d, r)
  {
    if r == 0 {
      assert Alive(c, d, 0) == c.looped;
    } else {
      AliveCounts(c, d, r - 1);
      AliveShrinks(c, d, r - 1);
      if Alive(c, d, r) == Alive(c, d, r - 1) {
        AliveRests(c, d, r - 1);
      } else {
        SmallerSet(Alive(c, d, r), Alive(c, d, r - 1));
      }
    }
  }

  lemma SmallerSet(a: set<Port>, b: set<Port>)
    requires a <= b && a != b
    ensures |a| < |b|
  {
    assert b == a + (b - a);
    assert |b| == |a| + |b - a|;
    assert b - a != {};
  }

  lemma {:induction false} AliveForGood(c: Chip, d: Dst, r: nat)
    requires r >= |c.looped|
    ensures Alive(c, d, r) == Alive(c, d, |c.looped|)
  {
    var n := |c.looped|;
    AliveCounts(c, d, n);
    AliveShrinks(c, d, n);
    if r > n {
      AliveForGood(c, d, r - 1);
      AliveCounts(c, d, r - 1);
      AliveShrinks(c, d, r - 1);
    }
  }

  /** Whether a frame is ever gone is settled after one round more than there are looped ports: if it is
      still there then it stays for ever, and otherwise it is gone from then on. */
  lemma DrainsExactly(c: Chip, p: Port, d: Dst, r: nat)
    ensures Drains(c, p, d) <==> InFlight(c, p, d, |c.looped| + 1) == 0
    ensures InFlight(c, p, d, |c.looped| + 1) != 0 ==> InFlight(c, p, d, r) != 0
    ensures InFlight(c, p, d, |c.looped| + 1) == 0 && r > |c.looped| ==> InFlight(c, p, d, r) == 0
  {
    var n := |c.looped|;
    if InFlight(c, p, d, n + 1) == 0 {
      if r > n { DrainedStays(c, p, d, n + 1, r); }
    } else {
      StaysForEver(c, p, d, r);
      if Drains(c, p, d) {
        var k: nat :| InFlight(c, p, d, k) == 0;
        StaysForEver(c, p, d, k);
      }
    }
  }

  lemma StaysForEver(c: Chip, p: Port, d: Dst, r: nat)
    requires InFlight(c, p, d, |c.looped| + 1) != 0
    ensures InFlight(c, p, d, r) != 0
  {
    var n := |c.looped|;
    if r > n {
      AliveStep(c, p, d, n);
      AliveForGood(c, d, r - 1);
      AliveStep(c, p, d, r - 1);
    } else if InFlight(c, p, d, r) == 0 {
      DrainedStays(c, p, d, r, n + 1);
    }
  }

  /** The looped members of a VLAN a flooded frame reaches from the injection port. */
  function Reached(c: Chip, t: Vid, inj: Port): set<Port> {
    if t in c.members then c.members[t] * c.looped - {inj} else {}
  }

  predicate NoEntry(c: Chip, v: Vid, d: Dst) { d.Unicast? ==> (v, d.mac) !in c.fdb }

  /** What isolation has to achieve: a frame flooded from the injection port is gone after two
      rounds, and stays gone, if and only if no looped member it reaches sends it back in again. */
  lemma IsolationDrainsExactly(c: Chip, t: Vid, inj: Port, d: Dst, r: nat)
    requires Admitted(c, inj) && c.pvid[inj] == t && NoEntry(c, t, d) && r >= 2
    ensures InFlight(c, inj, d, 2) == 0 <==> forall q :: q in Reached(c, t, inj) ==> Reentry(c, q, d) == {}
    ensures InFlight(c, inj, d, 2) == 0 ==> InFlight(c, inj, d, r) == 0
  {
    var again := Reached(c, t, inj);
    assert Reentry(c, inj, d) == again;
    InFlightNone(c, again, d, 1);
    forall q | q in again ensures InFlight(c, q, d, 1) == 0 <==> Reentry(c, q, d) == {} {
      InFlightOnce(c, q, d);
    }
    if InFlight(c, inj, d, 2) == 0 { DrainedStays(c, inj, d, 2, r); }
  }

  /** All the looped members but the injection port are isolated in one and the same VLAN. */
  predicate SharedIsolation(c: Chip, t: Vid, inj: Port, iso: Vid) {
    && Admitted(c, inj) && c.pvid[inj] == t
    && forall q :: q in Reached(c, t, inj) ==> q in c.pvid && c.pvid[q] == iso && q !in c.discard
  }

  /** A shared isolation VLAN has drained after two rounds if and only if none of the isolated ports
      is let in and finds another looped member there. */
  lemma SharedIsolationTwoRoundsExactly(c: Chip, t: Vid, inj: Port, iso: Vid, d: Dst)
    requires SharedIsolation(c, t, inj, iso) && NoEntry(c, t, d) && NoEntry(c, iso, d)
    ensures InFlight(c, inj, d, 2) == 0 <==>
            forall q :: q in Reached(c, t, inj) && Admitted(c, q) ==> c.members[iso] * c.looped <= {q}
  {
    IsolationDrainsExactly(c, t, inj, d, 2);
    forall q | q in Reached(c, t, inj)
      ensures Reentry(c, q, d) == {} <==> (Admitted(c, q) ==> c.members[iso] * c.looped <= {q})
    {
      if Admitted(c, q) {
        assert Reentry(c, q, d) == c.members[iso] * c.looped - {q};
      }
    }
  }

  /** Whether isolation VLANs have to differ: when the looped members of a shared one classify into it
      themselves, it ever drains if and only if it has at most one of them or lets no isolated port
      in; and then it has drained after three rounds. */
  lemma SharedIsolationDrainsExactly(c: Chip, t: Vid, inj: Port, iso: Vid, d: Dst, r: nat)
    requires SharedIsolation(c, t, inj, iso) && NoEntry(c, t, d) && NoEntry(c, iso, d)
    requires iso in c.members && BareLoops(c, iso, c.members[iso] * c.looped) && r >= 3
    ensures InFlight(c, inj, d, r) == 0 <==>
            |c.members[iso] * c.looped| <= 1 || forall q :: q in Reached(c, t, inj) ==> !Admitted(c, q)
    ensures Drains(c, inj, d) <==> InFlight(c, inj, d, r) == 0
  {
    var m, again := c.members[iso] * c.looped, Reached(c, t, inj);
    assert Reentry(c, inj, d) == again;
    InFlightNone(c, again, d, r - 1);
    forall q | q in again ensures InFlight(c, q, d, r - 1) == 0 <==> |m| <= 1 || !Admitted(c, q) {
      SharedPortDrainsExactly(c, iso, q, d, r - 1);
    }
    if Drains(c, inj, d) {
      var n: nat :| InFlight(c, inj, d, n) == 0;
      DrainedStays(c, inj, d, n, n + 3);
      InFlightNone(c, again, d, n + 2);
      forall q | q in again ensures InFlight(c, q, d, r - 1) == 0 {
        SharedPortDrainsExactly(c, iso, q, d, n + 2);
      }
    }
  }

  /** One isolated port on its own. */
  lemma SharedPortDrainsExactly(c: Chip, iso: Vid, q: Port, d: Dst, r: nat)
    requires iso in c.members && BareLoops(c, iso, c.members[iso] * c.looped) && NoEntry(c, iso, d) && r >= 2
    requires q in c.pvid && c.pvid[q] == iso
    ensures InFlight(c, q, d, r) == 0 <==> |c.members[iso] * c.looped| <= 1 || !Admitted(c, q)
  {
    var m := c.members[iso] * c.looped;
    if Admitted(c, q) {
      var again := m - {q};
      assert Reentry(c, q, d) == again;
      InFlightNone(c, again, d, r - 1);
      forall x | x in again ensures InFlight(c, x, d, r - 1) == Power(|m| - 1, r - 1) {
        BareLoopsMultiply(c, iso, m, x, d, r - 1);
      }
      MoreThanOne(m, q);
      if |m| >= 1 { PowerZeroExactly(|m| - 1, r - 1); }
    } else {
      assert Reentry(c, q, d) == {};
    }
  }

  lemma MoreThanOne(m: set<Port>, q: Port)
    ensures |m| >= 2 ==> m - {q} != {}
  {
    assert m <= (m - {q}) + {q};
    assert |m - {q}| >= |m| - 1;
  }

  lemma {:induction false} PowerZeroExactly(b: int, e: nat)
    requires b >= 0 && e > 0
    ensures Power(b, e) == 0 <==> b == 0
  {
    if e > 1 { PowerZeroExactly(b, e - 1); }
    assert Power(b, e) == b * Power(b, e - 1);
  }

  /** Without members a shared isolation VLAN is as good as separate ones. */
  lemma MemberlessSharedDrains(c: Chip, t: Vid, inj: Port, iso: Vid, d: Dst)
    requires SharedIsolation(c, t, inj, iso) && NoEntry(c, t, d) && NoEntry(c, iso, d)
    requires iso in c.members ==> c.members[iso] == {}
    ensures InFlight(c, inj, d, 2) == 0
  {
    SharedIsolationTwoRoundsExactly(c, t, inj, iso, d);
  }

  /** Where classification brings membership with it, two isolated ports are already too many. */
  lemma MemberedSharedDrainsExactly(c: Chip, t: Vid, inj: Port, iso: Vid, d: Dst)
    requires SharedIsolation(c, t, inj, iso) && NoEntry(c, t, d) && NoEntry(c, iso, d)
    requires iso in c.members && c.members[iso] == Reached(c, t, inj)
    ensures InFlight(c, inj, d, 2) == 0 <==> |Reached(c, t, inj)| <= 1
  {
    SharedIsolationTwoRoundsExactly(c, t, inj, iso, d);
    var again := Reached(c, t, inj);
    assert c.members[iso] * c.looped == again;
    if |again| <= 1 {
      forall q | q in again ensures again <= {q} {
        assert |again - {q}| == 0;
      }
    } else {
      var q :| q in again;
      assert |again - {q}| > 0;
      assert Admitted(c, q) && !(again <= {q});
    }
  }

  /** How many frames it holds then: `k` ports that share an isolation VLAN they are members of hold
      exactly `k * (k-1)^r` copies of one flooded frame after `r + 1` rounds. */
  lemma SharedIsolationMultiplies(c: Chip, t: Vid, inj: Port, iso: Vid, d: Dst, r: nat)
    requires SharedIsolation(c, t, inj, iso) && NoEntry(c, t, d) && NoEntry(c, iso, d)
    requires iso in c.members && c.members[iso] == Reached(c, t, inj)
    ensures var k := |Reached(c, t, inj)|; InFlight(c, inj, d, r + 1) == k * Power(k - 1, r)
  {
    var bare := Reached(c, t, inj);
    assert c.members[iso] * c.looped == bare;
    assert Reentry(c, inj, d) == bare;
    forall q | q in bare ensures InFlight(c, q, d, r) == Power(|bare| - 1, r) {
      BareLoopsMultiply(c, iso, bare, q, d, r);
    }
    if bare != {} {
      InFlightUniform(c, bare, d, r, Power(|bare| - 1, r));
    }
  }
}
