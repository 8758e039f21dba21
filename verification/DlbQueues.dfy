/** Injection into the queues that orchagent and syncd share (framework/dlb.py).

    Orchagent pushes operations on the inbound queue; syncd takes them in order and answers each
    with one record of three elements on the response queue; orchagent, when it waits for a
    response, takes three elements from the old end of that queue in one script.  The framework
    pushes an operation of its own and then takes three elements with three separate commands.
    Every step of the other processes may fall between any two of its commands. */
module DlbQueues {
  import opened Text

  /** Who asked for an operation. */
  datatype Asker = Orch(id: nat) | Mine(id: nat)

  /** One of the three elements of a response record. */
  datatype Elem = Elem(asker: Asker, part: nat)

  /** Both queues, oldest entry first, and what each read of orchagent obtained. */
  datatype Queues = Queues(ops: seq<Asker>, resp: seq<Elem>, taken: seq<seq<Elem>>)

  /** A step of the other processes. */
  datatype Step = OrchPush(id: nat) | Syncd | OrchRead

  function Record(a: Asker): seq<Elem> {
    [Elem(a, 0), Elem(a, 1), Elem(a, 2)]
  }

  function Records(ops: seq<Asker>): seq<Elem> {
    if ops == [] then [] else Record(ops[0]) + Records(ops[1..])
  }

  function Min(a: nat, b: nat): nat { if a < b then a else b }

  /** Orchagent's wait does nothing while the response queue is empty; otherwise its script
      takes three elements, or fewer when the queue is short. */
  function Next(q: Queues, s: Step): Queues {
    match s
    case OrchPush(id) => q.(ops := q.ops + [Orch(id)])
    case Syncd => if q.ops == [] then q
                  else q.(ops := q.ops[1..], resp := q.resp + Record(q.ops[0]))
    case OrchRead => if q.resp == [] then q
                     else var n := Min(3, |q.resp|);
                          q.(resp := q.resp[n..], taken := q.taken + [q.resp[..n]])
  }

  function Env(q: Queues, steps: seq<Step>): Queues
    decreases |steps|
  {
    if steps == [] then q else Env(Next(q, steps[0]), steps[1..])
  }

  // ---- the framework's side ----

  /** One poll of `quiesce`: what happens before each of the two length reads. */
  datatype Poll = Poll(beforeOps: seq<Step>, beforeResp: seq<Step>)

  /** Everything the other processes do during one injection, placed between the framework's
      own commands: during the polls, before the push, before each length read of the reap,
      and before each of its three pops. */
  datatype Schedule = Schedule(polls: seq<Poll>, beforePush: seq<Step>,
                               waits: seq<seq<Step>>,
                               pop0: seq<Step>, pop1: seq<Step>, pop2: seq<Step>)

  /** How an injection ended: refused because the queues never went quiet, timed out waiting for
      the response (which the caller ignores), or with these elements taken off. */
  datatype Result = Refused | NoResponse | Reaped(elems: seq<Elem>)

  /** The state after one poll, and whether it saw both queues empty.  The response queue is
      only looked at when the inbound queue was empty. */
  function AfterPoll(q: Queues, p: Poll): (Queues, bool) {
    var q1 := Env(q, p.beforeOps);
    if q1.ops != [] then (q1, false)
    else var q2 := Env(q1, p.beforeResp); (q2, q2.resp == [])
  }

  const STABLE: nat := 3

  /** The quiet phase: polls until `STABLE` in a row were empty, `seen` so far. */
  function Quiet(q: Queues, polls: seq<Poll>, seen: nat): (Queues, bool)
    decreases |polls|
  {
    if polls == [] then (q, false)
    else
      var (q1, empty) := AfterPoll(q, polls[0]);
      if !empty then Quiet(q1, polls[1..], 0)
      else if seen + 1 >= STABLE then (q1, true)
      else Quiet(q1, polls[1..], seen + 1)
  }

  /** One element popped from the old end; popping an empty queue yields nothing. */
  function Pop(q: Queues): Queues {
    if q.resp == [] then q else q.(resp := q.resp[1..])
  }

  function Popped(q: Queues): seq<Elem> {
    if q.resp == [] then [] else [q.resp[0]]
  }

  /** The three pops, with the other processes running in between. */
  function PopThree(q: Queues, s: Schedule): (Queues, seq<Elem>) {
    var q0 := Env(q, s.pop0);
    var q1 := Env(Pop(q0), s.pop1);
    var q2 := Env(Pop(q1), s.pop2);
    (Pop(q2), Popped(q0) + Popped(q1) + Popped(q2))
  }

  /** The reap: waits for three elements to be there, then pops three. */
  function Reap(q: Queues, waits: seq<seq<Step>>, s: Schedule): (r: (Queues, Result))
    ensures !r.1.Refused?
    decreases |waits|
  {
    if waits == [] then (q, NoResponse)
    else
      var q1 := Env(q, waits[0]);
      if |q1.resp| >= 3 then
        var (q2, es) := PopThree(q1, s); (q2, Reaped(es))
      else Reap(q1, waits[1..], s)
  }

  /** The queues at the moment of the push, just before the operation is on. */
  function AtPush(q: Queues, s: Schedule): Queues {
    Env(Quiet(q, s.polls, 0).0, s.beforePush)
  }

  function Inject(q: Queues, id: nat): Queues {
    q.(ops := q.ops + [Mine(id)])
  }

  function Push(q: Queues, id: nat, s: Schedule): (Queues, Result) {
    var (q1, quiet) := Quiet(q, s.polls, 0);
    if !quiet then (q1, Refused)
    else Reap(Inject(AtPush(q, s), id), s.waits, s)
  }

  // ---- the order of responses, queued or still to come ----

  /** Everything orchagent or a reap can still take, in the order it will come. */
  function Stream(q: Queues): seq<Elem> {
    q.resp + Records(q.ops)
  }

  predicate NoReads(steps: seq<Step>) {
    forall i :: 0 <= i < |steps| ==> !steps[i].OrchRead?
  }

  /** Orchagent reads nothing between the push and the end of the reap. */
  predicate UndisturbedReap(s: Schedule) {
    && (forall i :: 0 <= i < |s.waits| ==> NoReads(s.waits[i]))
    && NoReads(s.pop0) && NoReads(s.pop1) && NoReads(s.pop2)
  }

  predicate BothEmpty(q: Queues) {
    q.ops == [] && q.resp == []
  }

  lemma PrefixTrans<T>(a: seq<T>, b: seq<T>, c: seq<T>)
    requires a <= b <= c
    ensures a <= c
  {
  }

  lemma {:induction false} RecordsAppend(ops: seq<Asker>, a: Asker)
    ensures Records(ops + [a]) == Records(ops) + Record(a)
  {
    if ops != [] {
      assert (ops + [a])[1..] == ops[1..] + [a];
      RecordsAppend(ops[1..], a);
    } else {
      assert [a][1..] == [];
    }
  }

  lemma {:induction false} RecordsLength(ops: seq<Asker>)
    ensures |Records(ops)| == 3 * |ops|
  {
    if ops != [] { RecordsLength(ops[1..]); }
  }

  /** A step without a read leaves the stream as it is, or adds a record at its end. */
  lemma NextStream(q: Queues, s: Step)
    requires !s.OrchRead?
    ensures Stream(Next(q, s)) == Stream(q) + (if s.OrchPush? then Record(Orch(s.id)) else [])
    ensures Next(q, s).taken == q.taken
    ensures q.resp <= Next(q, s).resp
  {
    match s
    case OrchPush(id) => RecordsAppend(q.ops, Orch(id));
    case Syncd => if q.ops != [] {
      assert q.resp + (Record(q.ops[0]) + Records(q.ops[1..])) == q.resp + Record(q.ops[0]) + Records(q.ops[1..]);
    }
    case OrchRead =>
  }

  predicate OrchElems(es: seq<Elem>) {
    forall i :: 0 <= i < |es| ==> es[i].asker.Orch?
  }

  /** The responses to the operations orchagent pushes in `steps`. */
  function Pushed(steps: seq<Step>): (es: seq<Elem>)
    ensures OrchElems(es)
  {
    if steps == [] then []
    else (if steps[0].OrchPush? then Record(Orch(steps[0].id)) else []) + Pushed(steps[1..])
  }

  lemma {:induction false} EnvStream(q: Queues, steps: seq<Step>)
    requires NoReads(steps)
    ensures Stream(Env(q, steps)) == Stream(q) + Pushed(steps)
    ensures Env(q, steps).taken == q.taken
    ensures q.resp <= Env(q, steps).resp
    decreases |steps|
  {
    if steps == [] {
      assert Stream(q) + [] == Stream(q);
    } else {
      assert !steps[0].OrchRead?;
      var q1 := Next(q, steps[0]);
      NextStream(q, steps[0]);
      EnvStream(q1, steps[1..]);
      Assoc(Stream(q), if steps[0].OrchPush? then Record(Orch(steps[0].id)) else [], Pushed(steps[1..]));
      PrefixTrans(q.resp, q1.resp, Env(q, steps).resp);
    }
  }

  lemma PopStream(q: Queues, steps: seq<Step>)
    requires NoReads(steps) && q.resp != []
    ensures var q1 := Env(q, steps);
            && Popped(q1) == [q.resp[0]]
            && q.resp[1..] <= Pop(q1).resp
            && Stream(Pop(q1)) == Stream(q)[1..] + Pushed(steps)
            && Pop(q1).taken == q.taken
  {
    var q1 := Env(q, steps);
    EnvStream(q, steps);
    assert q1.resp[0] == q.resp[0];
    assert Stream(Pop(q1)) == Stream(q1)[1..];
  }

  lemma ThreeTails<T>(s: seq<T>, u: seq<T>, v: seq<T>, w: seq<T>)
    requires |s| >= 3
    ensures ((s[1..] + u)[1..] + v)[1..] + w == s[3..] + (u + v + w)
  {
    assert (s[1..] + u)[1..] == s[2..] + u;
    assert (s[2..] + u + v)[1..] == s[3..] + u + v;
  }

  lemma FirstThree<T>(r: seq<T>, r1: seq<T>, r2: seq<T>, s: seq<T>)
    requires |r| >= 3 && r <= s && r[1..] <= r1 && r1[1..] <= r2
    ensures [r[0]] + [r1[0]] + [r2[0]] == s[..3]
    ensures r1 != [] && r2 != []
  {
    assert r1[0] == r[1..][0] && r2[0] == r1[1..][0] && r1[1] == r[1..][1];
  }

  /** Without reads in between, the three pops take the first three elements of the stream. */
  lemma PopThreeStream(q: Queues, s: Schedule)
    requires NoReads(s.pop0) && NoReads(s.pop1) && NoReads(s.pop2) && |q.resp| >= 3
    ensures PopThree(q, s).1 == Stream(q)[..3]
    ensures Stream(PopThree(q, s).0) ==
              Stream(q)[3..] + (Pushed(s.pop0) + Pushed(s.pop1) + Pushed(s.pop2))
    ensures PopThree(q, s).0.taken == q.taken
  {
    PopStream(q, s.pop0);
    var p0 := Pop(Env(q, s.pop0));
    var r := q.resp;
    assert |p0.resp| >= 2 by { assert |r[1..]| >= 2; }
    PopStream(p0, s.pop1);
    var p1 := Pop(Env(p0, s.pop1));
    assert |p1.resp| >= 1 by { assert |p0.resp[1..]| >= 1; }
    PopStream(p1, s.pop2);
    FirstThree(r, p0.resp, p1.resp, Stream(q));
    ThreeTails(Stream(q), Pushed(s.pop0), Pushed(s.pop1), Pushed(s.pop2));
  }

  lemma BeyondThree<T>(s: seq<T>, u: seq<T>)
    requires |s| >= 3
    ensures (s + u)[..3] == s[..3] && (s + u)[3..] == s[3..] + u && s[3..] <= s[3..] + u
  {
  }

  lemma {:induction false} ReapStream(q: Queues, waits: seq<seq<Step>>, s: Schedule)
    requires forall i :: 0 <= i < |waits| ==> NoReads(waits[i])
    requires NoReads(s.pop0) && NoReads(s.pop1) && NoReads(s.pop2)
    requires Reap(q, waits, s).1.Reaped? && |Stream(q)| >= 3
    ensures Reap(q, waits, s).1.elems == Stream(q)[..3]
    ensures Stream(q)[3..] <= Stream(Reap(q, waits, s).0)
    ensures OrchElems(Stream(q)[3..]) ==> OrchElems(Stream(Reap(q, waits, s).0))
    ensures Reap(q, waits, s).0.taken == q.taken
    decreases |waits|
  {
    assert NoReads(waits[0]);
    var q1 := Env(q, waits[0]);
    EnvStream(q, waits[0]);
    BeyondThree(Stream(q), Pushed(waits[0]));
    if |q1.resp| >= 3 {
      PopThreeStream(q1, s);
    } else {
      ReapStream(q1, waits[1..], s);
    }
  }

  /** A reap that gives up takes nothing. */
  lemma {:induction false} GivenUpStream(q: Queues, waits: seq<seq<Step>>, s: Schedule)
    requires forall i :: 0 <= i < |waits| ==> NoReads(waits[i])
    requires Reap(q, waits, s).1.NoResponse?
    ensures Stream(q) <= Stream(Reap(q, waits, s).0)
    decreases |waits|
  {
    if waits != [] {
      assert NoReads(waits[0]);
      var q1 := Env(q, waits[0]);
      EnvStream(q, waits[0]);
      GivenUpStream(q1, waits[1..], s);
      PrefixTrans(Stream(q), Stream(q1), Stream(Reap(q, waits, s).0));
    }
  }

  /** What a reap takes when orchagent stays away from the response queue: its own record if
      and only if both queues were empty at the push.  Anything queued by then, processed or
      not, is older, and its response is what gets reaped instead. */
  lemma ReapsOwnRecordExactly(q: Queues, id: nat, s: Schedule)
    requires Push(q, id, s).1.Reaped? && UndisturbedReap(s)
    requires Elem(Mine(id), 0) !in Stream(AtPush(q, s))
    ensures Push(q, id, s).1.elems == (Stream(AtPush(q, s)) + Record(Mine(id)))[..3]
    ensures Push(q, id, s).1.elems == Record(Mine(id)) <==> BothEmpty(AtPush(q, s))
    ensures Push(q, id, s).0.taken == AtPush(q, s).taken
  {
    var at := AtPush(q, s);
    InjectStream(at, id);
    ReapStream(Inject(at, id), s.waits, s);
    if BothEmpty(at) {
      assert Stream(at) == [];
      assert ([] + Record(Mine(id)))[..3] == Record(Mine(id));
    } else {
      if at.resp == [] { assert Stream(at)[0] == Elem(at.ops[0], 0); }
      assert Stream(at)[0] in Stream(at);
      assert Push(q, id, s).1.elems[0] == Stream(at)[0] != Record(Mine(id))[0];
    }
  }

  lemma InjectStream(q: Queues, id: nat)
    ensures Stream(Inject(q, id)) == Stream(q) + Record(Mine(id))
  {
    RecordsAppend(q.ops, Mine(id));
  }

  // ---- whole runs ----

  /** A run interleaves steps of the other processes with injections. */
  datatype Event = Other(step: Step) | Injection(id: nat, s: Schedule)

  function Run(q: Queues, events: seq<Event>): Queues
    decreases |events|
  {
    if events == [] then q
    else match events[0]
      case Other(step) => Run(Next(q, step), events[1..])
      case Injection(id, s) => Run(Push(q, id, s).0, events[1..])
  }

  /** The steps that are left of `steps` when injected operations never existed: syncd's steps
      on injected operations disappear with them. */
  function Kept(q: Queues, steps: seq<Step>): seq<Step>
    decreases |steps|
  {
    if steps == [] then []
    else
      (if steps[0].Syncd? && q.ops != [] && q.ops[0].Mine? then [] else [steps[0]])
      + Kept(Next(q, steps[0]), steps[1..])
  }

  function PollSteps(q: Queues, p: Poll): seq<Step> {
    p.beforeOps + if Env(q, p.beforeOps).ops != [] then [] else p.beforeResp
  }

  function QuietSteps(q: Queues, polls: seq<Poll>, seen: nat): seq<Step>
    decreases |polls|
  {
    if polls == [] then []
    else
      var (q1, empty) := AfterPoll(q, polls[0]);
      PollSteps(q, polls[0]) +
      if !empty then QuietSteps(q1, polls[1..], 0)
      else if seen + 1 >= STABLE then []
      else QuietSteps(q1, polls[1..], seen + 1)
  }

  function PopKept(q: Queues, s: Schedule): seq<Step> {
    var p0 := Pop(Env(q, s.pop0));
    var p1 := Pop(Env(p0, s.pop1));
    Kept(q, s.pop0) + Kept(p0, s.pop1) + Kept(p1, s.pop2)
  }

  function ReapKept(q: Queues, waits: seq<seq<Step>>, s: Schedule): seq<Step>
    decreases |waits|
  {
    if waits == [] then []
    else
      var q1 := Env(q, waits[0]);
      Kept(q, waits[0]) + if |q1.resp| >= 3 then PopKept(q1, s) else ReapKept(q1, waits[1..], s)
  }

  function PushKept(q: Queues, id: nat, s: Schedule): seq<Step> {
    QuietSteps(q, s.polls, 0) +
    if !Quiet(q, s.polls, 0).1 then []
    else s.beforePush + ReapKept(Inject(AtPush(q, s), id), s.waits, s)
  }

  /** The same run with its injections erased. */
  function Erased(q: Queues, events: seq<Event>): seq<Step>
    decreases |events|
  {
    if events == [] then []
    else match events[0]
      case Other(step) => [step] + Erased(Next(q, step), events[1..])
      case Injection(id, s) => PushKept(q, id, s) + Erased(Push(q, id, s).0, events[1..])
  }

  /** The discipline of the header: every injection is refused, or finds both queues empty when
      it pushes, gets its response within the wait, and is left alone until it is reaped. */
  predicate Disciplined(q: Queues, events: seq<Event>)
    decreases |events|
  {
    events == [] ||
    match events[0]
    case Other(step) => Disciplined(Next(q, step), events[1..])
    case Injection(id, s) =>
      && (|| Push(q, id, s).1.Refused?
          || (Push(q, id, s).1.Reaped? && UndisturbedReap(s) && BothEmpty(AtPush(q, s))))
      && Disciplined(Push(q, id, s).0, events[1..])
  }

  predicate OrchOps(ops: seq<Asker>) {
    forall i :: 0 <= i < |ops| ==> ops[i].Orch?
  }

  /** Nothing of the framework's is in either queue. */
  predicate Foreign(q: Queues) {
    OrchOps(q.ops) && OrchElems(q.resp)
  }

  function OrchPart(ops: seq<Asker>): seq<Asker> {
    if ops == [] then []
    else (if ops[0].Orch? then [ops[0]] else []) + OrchPart(ops[1..])
  }

  function OrchElemPart(es: seq<Elem>): seq<Elem> {
    if es == [] then []
    else (if es[0].asker.Orch? then [es[0]] else []) + OrchElemPart(es[1..])
  }

  /** The queues as they would be without the framework's entries. */
  function Erase(q: Queues): Queues {
    Queues(OrchPart(q.ops), OrchElemPart(q.resp), q.taken)
  }

  lemma {:induction false} OrchPartAppend(ops: seq<Asker>, a: Asker)
    ensures OrchPart(ops + [a]) == OrchPart(ops) + if a.Orch? then [a] else []
  {
    if ops == [] {
      assert [a][1..] == [];
    } else {
      assert (ops + [a])[1..] == ops[1..] + [a];
      OrchPartAppend(ops[1..], a);
      Assoc(if ops[0].Orch? then [ops[0]] else [], OrchPart(ops[1..]), if a.Orch? then [a] else []);
    }
  }

  lemma {:induction false} OrchElemPartAppend(es: seq<Elem>, fs: seq<Elem>)
    ensures OrchElemPart(es + fs) == OrchElemPart(es) + OrchElemPart(fs)
  {
    if es == [] {
      assert es + fs == fs;
    } else {
      assert (es + fs)[1..] == es[1..] + fs;
      OrchElemPartAppend(es[1..], fs);
      Assoc(if es[0].asker.Orch? then [es[0]] else [], OrchElemPart(es[1..]), OrchElemPart(fs));
    }
  }

  lemma OrchElemPartRecord(a: Asker)
    ensures OrchElemPart(Record(a)) == if a.Orch? then Record(a) else []
  {
    var r := Record(a);
    assert r[1..] == [Elem(a, 1), Elem(a, 2)] && r[1..][1..] == [Elem(a, 2)] && r[1..][1..][1..] == [];
    assert OrchElemPart(r[1..][1..]) == if a.Orch? then r[2..] else [];
    assert OrchElemPart(r[1..]) == if a.Orch? then r[1..] else [];
  }

  lemma {:induction false} OrchPartAll(ops: seq<Asker>)
    requires OrchOps(ops)
    ensures OrchPart(ops) == ops
  {
    if ops != [] { OrchPartAll(ops[1..]); }
  }

  lemma {:induction false} OrchElemPartAll(es: seq<Elem>)
    requires OrchElems(es)
    ensures OrchElemPart(es) == es
  {
    if es != [] { OrchElemPartAll(es[1..]); }
  }

  lemma ErasePartsNone(ops: seq<Asker>, es: seq<Elem>)
    ensures OrchOps(ops) ==> OrchPart(ops) == ops
    ensures OrchElems(es) ==> OrchElemPart(es) == es
  {
    if OrchOps(ops) { OrchPartAll(ops); }
    if OrchElems(es) { OrchElemPartAll(es); }
  }

  /** One step without a read commutes with erasing. */
  lemma NextErase(q: Queues, s: Step)
    requires !s.OrchRead?
    ensures Erase(Next(q, s)) ==
              if s.Syncd? && q.ops != [] && q.ops[0].Mine? then Erase(q) else Next(Erase(q), s)
  {
    match s
    case OrchPush(id) => OrchPartAppend(q.ops, Orch(id));
    case Syncd => if q.ops != [] {
      OrchElemPartAppend(q.resp, Record(q.ops[0]));
      OrchElemPartRecord(q.ops[0]);
    }
    case OrchRead =>
  }

  lemma {:induction false} EnvErase(q: Queues, steps: seq<Step>)
    requires NoReads(steps)
    ensures Erase(Env(q, steps)) == Env(Erase(q), Kept(q, steps))
    decreases |steps|
  {
    if steps != [] {
      assert !steps[0].OrchRead?;
      NextErase(q, steps[0]);
      EnvErase(Next(q, steps[0]), steps[1..]);
      if !(steps[0].Syncd? && q.ops != [] && q.ops[0].Mine?) {
        var kept := Kept(q, steps);
        assert kept[0] == steps[0] && kept[1..] == Kept(Next(q, steps[0]), steps[1..]);
      } else {
        assert [] + Kept(Next(q, steps[0]), steps[1..]) == Kept(Next(q, steps[0]), steps[1..]);
      }
    }
  }

  lemma {:induction false} EnvAppend(q: Queues, a: seq<Step>, b: seq<Step>)
    ensures Env(q, a + b) == Env(Env(q, a), b)
    decreases |a|
  {
    if a == [] {
      assert a + b == b;
    } else {
      assert (a + b)[1..] == a[1..] + b;
      EnvAppend(Next(q, a[0]), a[1..], b);
    }
  }

  /** Steps of the other processes never bring in an entry of the framework. */
  lemma {:induction false} EnvForeign(q: Queues, steps: seq<Step>)
    requires Foreign(q)
    ensures Foreign(Env(q, steps))
    decreases |steps|
  {
    if steps != [] { EnvForeign(Next(q, steps[0]), steps[1..]); }
  }

  lemma {:induction false} QuietErased(q: Queues, polls: seq<Poll>, seen: nat)
    requires Foreign(q)
    ensures Quiet(q, polls, seen).0 == Env(q, QuietSteps(q, polls, seen))
    ensures Foreign(Quiet(q, polls, seen).0)
    decreases |polls|
  {
    if polls != [] {
      var p := polls[0];
      var (q1, empty) := AfterPoll(q, p);
      EnvAppend(q, p.beforeOps, p.beforeResp);
      assert p.beforeOps + [] == p.beforeOps;
      assert q1 == Env(q, PollSteps(q, p));
      EnvForeign(q, PollSteps(q, p));
      var rest :=
        if !empty then QuietSteps(q1, polls[1..], 0)
        else if seen + 1 >= STABLE then []
        else QuietSteps(q1, polls[1..], seen + 1);
      EnvAppend(q, PollSteps(q, p), rest);
      if !empty {
        QuietErased(q1, polls[1..], 0);
      } else if seen + 1 < STABLE {
        QuietErased(q1, polls[1..], seen + 1);
      }
    }
  }

  /** A pop that takes an element of the framework is invisible after erasing. */
  lemma PopErase(q: Queues)
    requires q.resp != [] && q.resp[0].asker.Mine?
    ensures Erase(Pop(q)) == Erase(q)
  {
  }

  lemma PopThreeErase(q: Queues, s: Schedule, a: Asker)
    requires NoReads(s.pop0) && NoReads(s.pop1) && NoReads(s.pop2)
    requires |q.resp| >= 3 && q.resp[..3] == Record(a) && a.Mine?
    ensures Erase(PopThree(q, s).0) == Env(Erase(q), PopKept(q, s))
  {
    var q0 := Env(q, s.pop0);
    EnvStream(q, s.pop0);
    EnvErase(q, s.pop0);
    assert q0.resp[0] == q.resp[0] == q.resp[..3][0];
    PopErase(q0);
    PopStream(q, s.pop0);
    var p0 := Pop(q0);
    var q1 := Env(p0, s.pop1);
    assert p0.resp[0] == q.resp[1..][0] == q.resp[..3][1];
    EnvStream(p0, s.pop1);
    EnvErase(p0, s.pop1);
    PopErase(q1);
    PopStream(p0, s.pop1);
    var p1 := Pop(q1);
    assert p1.resp[0] == p0.resp[1..][0] == q.resp[1..][1] == q.resp[..3][2];
    var q2 := Env(p1, s.pop2);
    EnvStream(p1, s.pop2);
    EnvErase(p1, s.pop2);
    PopErase(q2);
    EnvAppend(Erase(q), Kept(q, s.pop0), Kept(p0, s.pop1));
    EnvAppend(Erase(q), Kept(q, s.pop0) + Kept(p0, s.pop1), Kept(p1, s.pop2));
  }

  lemma {:induction false} ReapErase(q: Queues, waits: seq<seq<Step>>, s: Schedule, a: Asker)
    requires forall i :: 0 <= i < |waits| ==> NoReads(waits[i])
    requires NoReads(s.pop0) && NoReads(s.pop1) && NoReads(s.pop2)
    requires Reap(q, waits, s).1.Reaped? && a.Mine? && Record(a) <= Stream(q)
    ensures Erase(Reap(q, waits, s).0) == Env(Erase(q), ReapKept(q, waits, s))
    decreases |waits|
  {
    assert NoReads(waits[0]);
    var q1 := Env(q, waits[0]);
    EnvStream(q, waits[0]);
    EnvErase(q, waits[0]);
    assert Stream(q1)[..3] == Stream(q)[..3] == Record(a);
    if |q1.resp| >= 3 {
      assert q1.resp[..3] == Stream(q1)[..3];
      PopThreeErase(q1, s, a);
      EnvAppend(Erase(q), Kept(q, waits[0]), PopKept(q1, s));
    } else {
      ReapErase(q1, waits[1..], s, a);
      EnvAppend(Erase(q), Kept(q, waits[0]), ReapKept(q1, waits[1..], s));
    }
  }

  lemma {:induction false} StreamForeign(q: Queues)
    requires OrchElems(Stream(q))
    ensures Foreign(q)
  {
    assert forall i :: 0 <= i < |q.resp| ==> q.resp[i] == Stream(q)[i];
    OrchRecords(q.ops, q.resp);
  }

  lemma {:induction false} OrchRecords(ops: seq<Asker>, before: seq<Elem>)
    requires OrchElems(before + Records(ops))
    ensures OrchOps(ops)
    decreases |ops|
  {
    if ops != [] {
      assert (before + Records(ops))[|before|] == Elem(ops[0], 0);
      assert before + Records(ops) == (before + Record(ops[0])) + Records(ops[1..]);
      OrchRecords(ops[1..], before + Record(ops[0]));
    }
  }

  /** An injection that keeps the discipline leaves the queues exactly as the steps of the
      other processes alone would have left them. */
  lemma PushErased(q: Queues, id: nat, s: Schedule)
    requires Foreign(q)
    requires || Push(q, id, s).1.Refused?
             || (Push(q, id, s).1.Reaped? && UndisturbedReap(s) && BothEmpty(AtPush(q, s)))
    ensures Push(q, id, s).0 == Env(q, PushKept(q, id, s))
    ensures Foreign(Push(q, id, s).0)
    ensures Push(q, id, s).1.Reaped? ==> Push(q, id, s).1.elems == Record(Mine(id))
  {
    QuietErased(q, s.polls, 0);
    var quiet := Quiet(q, s.polls, 0);
    if quiet.1 {
      var at := AtPush(q, s);
      var on := Inject(at, id);
      InjectStream(at, id);
      assert Stream(on) == Record(Mine(id));
      ReapStream(on, s.waits, s);
      ReapErase(on, s.waits, s, Mine(id));
      var end := Push(q, id, s).0;
      StreamForeign(end);
      ErasePartsNone(end.ops, end.resp);
      assert Erase(on) == at by {
        OrchPartAppend(at.ops, Mine(id));
      }
      EnvAppend(quiet.0, s.beforePush, ReapKept(on, s.waits, s));
      EnvAppend(q, QuietSteps(q, s.polls, 0), s.beforePush + ReapKept(on, s.waits, s));
    } else {
      EnvAppend(q, QuietSteps(q, s.polls, 0), []);
    }
  }

  lemma ForeignStream(q: Queues)
    requires Foreign(q)
    ensures OrchElems(Stream(q))
  {
    RecordsForeign(q.ops);
  }

  /** The discipline is not only enough but needed: an injection that got past its quiet phase and
      was not disturbed leaves nothing of the framework's behind if and only if its response came
      within the wait and both queues were empty at the push. */
  lemma PushForeignExactly(q: Queues, id: nat, s: Schedule)
    requires Foreign(q) && UndisturbedReap(s) && !Push(q, id, s).1.Refused?
    ensures Foreign(Push(q, id, s).0) <==> Push(q, id, s).1.Reaped? && BothEmpty(AtPush(q, s))
  {
    if Push(q, id, s).1.Reaped? && BothEmpty(AtPush(q, s)) {
      PushErased(q, id, s);
    } else {
      var at := AtPush(q, s);
      var on := Inject(at, id);
      InjectStream(at, id);
      var mine := Elem(Mine(id), 2);
      var k := |Stream(at)| + 2;
      assert Stream(on)[k] == mine;
      var end := Push(q, id, s).0;
      if Push(q, id, s).1.NoResponse? {
        GivenUpStream(on, s.waits, s);
        assert Stream(end)[k] == mine;
      } else {
        NotEmptyStream(at);
        ReapStream(on, s.waits, s);
        assert Stream(on)[3..][k - 3] == mine;
        assert Stream(end)[k - 3] == mine;
      }
      assert !OrchElems(Stream(end));
      if Foreign(end) { ForeignStream(end); }
    }
  }

  lemma NotEmptyStream(q: Queues)
    requires !BothEmpty(q)
    ensures Stream(q) != []
  {
  }

  /** Injection is transparent: for every run with any number of injections that keep the
      discipline, both queues and everything orchagent has read are at the end what they are
      in the same run with the injections erased. */
  lemma {:induction false} InjectionsAreTransparent(q: Queues, events: seq<Event>)
    requires Foreign(q) && Disciplined(q, events)
    ensures Run(q, events) == Env(q, Erased(q, events))
    ensures Foreign(Run(q, events))
    decreases |events|
  {
    if events != [] {
      match events[0]
      case Other(step) =>
        EnvForeign(q, [step]);
        assert Env(q, [step]) == Next(q, step);
        InjectionsAreTransparent(Next(q, step), events[1..]);
        EnvAppend(q, [step], Erased(Next(q, step), events[1..]));
      case Injection(id, s) =>
        PushErased(q, id, s);
        InjectionsAreTransparent(Push(q, id, s).0, events[1..]);
        EnvAppend(q, PushKept(q, id, s), Erased(Push(q, id, s).0, events[1..]));
    }
  }

  // ---- what orchagent sees ----

  /** A read that obtained one whole response of orchagent's own. */
  predicate CleanRead(es: seq<Elem>) {
    es != [] && es[0].asker.Orch? && es == Record(es[0].asker)
  }

  /** The response queue holds whole records of orchagent, and so did everything it has read. */
  ghost predicate Clean(q: Queues) {
    && OrchOps(q.ops)
    && (exists rs :: OrchOps(rs) && q.resp == Records(rs))
    && forall i :: 0 <= i < |q.taken| ==> CleanRead(q.taken[i])
  }

  lemma NextClean(q: Queues, s: Step)
    requires Clean(q)
    ensures Clean(Next(q, s))
  {
    var rs :| OrchOps(rs) && q.resp == Records(rs);
    match s
    case OrchPush(id) =>
    case Syncd => if q.ops != [] {
      RecordsAppend(rs, q.ops[0]);
      assert OrchOps(rs + [q.ops[0]]);
    }
    case OrchRead => if q.resp != [] {
      RecordsLength(rs);
      assert q.resp == Record(rs[0]) + Records(rs[1..]);
      assert q.resp[..3] == Record(rs[0]) && q.resp[3..] == Records(rs[1..]);
    }
  }

  lemma {:induction false} EnvClean(q: Queues, steps: seq<Step>)
    requires Clean(q)
    ensures Clean(Env(q, steps))
    decreases |steps|
  {
    if steps != [] {
      NextClean(q, steps[0]);
      EnvClean(Next(q, steps[0]), steps[1..]);
    }
  }

  lemma {:induction false} RecordsForeign(rs: seq<Asker>)
    requires OrchOps(rs)
    ensures OrchElems(Records(rs))
  {
    if rs != [] { RecordsForeign(rs[1..]); }
  }

  lemma CleanShape(q: Queues)
    requires Clean(q)
    ensures Foreign(q) && |q.resp| % 3 == 0
  {
    var rs :| OrchOps(rs) && q.resp == Records(rs);
    RecordsForeign(rs);
    RecordsLength(rs);
  }

  /** Over every disciplined run orchagent reads nothing but whole responses of its own, and
      outside a reap the response queue is a whole number of records. */
  lemma OrchagentNeverMisled(q: Queues, events: seq<Event>)
    requires Clean(q) && Disciplined(q, events)
    ensures Clean(Run(q, events))
    ensures |Run(q, events).resp| % 3 == 0
  {
    CleanShape(q);
    InjectionsAreTransparent(q, events);
    EnvClean(q, Erased(q, events));
    CleanShape(Run(q, events));
  }

  // ---- when the discipline is broken ----

  /** The framework's own element is the next one anybody will take, or orchagent has read
      since `n` reads ago and the first thing it got was an element of the framework. */
  predicate Exposed(q: Queues, n: nat) {
    && n <= |q.taken|
    && if |q.taken| == n then Stream(q) != [] && Stream(q)[0].asker.Mine?
       else q.taken[n] != [] && q.taken[n][0].asker.Mine?
  }

  lemma {:induction false} EnvExposed(q: Queues, n: nat, steps: seq<Step>)
    requires Exposed(q, n)
    ensures Exposed(Env(q, steps), n)
    decreases |steps|
  {
    if steps != [] {
      var q1 := Next(q, steps[0]);
      if !steps[0].OrchRead? {
        NextStream(q, steps[0]);
      }
      EnvExposed(q1, n, steps[1..]);
    }
  }

  /** A pop before the last keeps the exposure: more of the record is still to come. */
  lemma PopExposed(q: Queues, n: nat)
    requires Exposed(q, n)
    requires |q.taken| == n ==> |Stream(q)| >= 2 && Stream(q)[1].asker.Mine?
    ensures Exposed(Pop(q), n)
  {
    if |q.taken| == n && q.resp != [] {
      assert Stream(Pop(q)) == Stream(q)[1..];
    }
  }

  /** As long as orchagent has not read, the elements of the framework stay in front. */
  lemma {:induction false} EnvFront(q: Queues, steps: seq<Step>)
    ensures |Env(q, steps).taken| >= |q.taken|
    ensures |Env(q, steps).taken| == |q.taken| ==> Stream(q) <= Stream(Env(q, steps)) && q.resp <= Env(q, steps).resp
    decreases |steps|
  {
    if steps != [] {
      if !steps[0].OrchRead? {
        NextStream(q, steps[0]);
      }
      EnvFront(Next(q, steps[0]), steps[1..]);
    }
  }

  lemma PopThreeExposed(q: Queues, n: nat, s: Schedule, a: Asker)
    requires Exposed(q, n) && a.Mine?
    requires |q.taken| == n ==> Record(a) <= Stream(q) && |q.resp| >= 3
    ensures |PopThree(q, s).0.taken| > n ==> Exposed(PopThree(q, s).0, n)
    ensures |PopThree(q, s).0.taken| >= n
  {
    var q0 := Env(q, s.pop0);
    EnvExposed(q, n, s.pop0);
    EnvFront(q, s.pop0);
    if |q0.taken| == n { assert Stream(q0)[..3] == Stream(q)[..3] == Record(a); }
    PopExposed(q0, n);
    var p0 := Pop(q0);
    if |q0.taken| == n { assert Stream(p0) == Stream(q0)[1..]; }
    var q1 := Env(p0, s.pop1);
    EnvExposed(p0, n, s.pop1);
    EnvFront(p0, s.pop1);
    if |q1.taken| == n { assert Stream(q1)[..2] == Stream(p0)[..2] == Stream(q0)[1..3]; }
    PopExposed(q1, n);
    var p1 := Pop(q1);
    var q2 := Env(p1, s.pop2);
    EnvExposed(p1, n, s.pop2);
    EnvFront(p1, s.pop2);
  }

  lemma {:induction false} ReapExposed(q: Queues, n: nat, waits: seq<seq<Step>>, s: Schedule, a: Asker)
    requires Exposed(q, n) && a.Mine?
    requires |q.taken| == n ==> Record(a) <= Stream(q)
    ensures |Reap(q, waits, s).0.taken| >= n
    ensures |Reap(q, waits, s).0.taken| > n ==> Exposed(Reap(q, waits, s).0, n)
    ensures Reap(q, waits, s).1.NoResponse? ==> Exposed(Reap(q, waits, s).0, n)
    decreases |waits|
  {
    if waits != [] {
      var q1 := Env(q, waits[0]);
      EnvExposed(q, n, waits[0]);
      EnvFront(q, waits[0]);
      if |q1.taken| == n { assert Stream(q1)[..3] == Stream(q)[..3] == Record(a); }
      if |q1.resp| >= 3 {
        PopThreeExposed(q1, n, s, a);
      } else {
        ReapExposed(q1, n, waits[1..], s, a);
      }
    }
  }

  /** Being left alone matters exactly as the header says: after a push into empty queues,
      the reads orchagent makes before the reap is over are all clean if and only if there are
      none; the first one always obtains an element of the framework. */
  lemma ReadsDuringReapAreForeign(q: Queues, id: nat, s: Schedule)
    requires !Push(q, id, s).1.Refused? && BothEmpty(AtPush(q, s))
    ensures var n := |AtPush(q, s).taken|;
            var taken := Push(q, id, s).0.taken;
            && n <= |taken|
            && ((forall i :: n <= i < |taken| ==> CleanRead(taken[i])) <==> |taken| == n)
  {
    var at := AtPush(q, s);
    var on := Inject(at, id);
    InjectStream(at, id);
    assert Stream(on) == Record(Mine(id));
    ReapExposed(on, |at.taken|, s.waits, s, Mine(id));
  }

  lemma {:induction false} LeftoverBlocksQuiet(q: Queues, n: nat, polls: seq<Poll>, seen: nat)
    requires Exposed(q, n)
    ensures Exposed(Quiet(q, polls, seen).0, n)
    ensures Quiet(q, polls, seen).1 ==> |Quiet(q, polls, seen).0.taken| > n
    decreases |polls|
  {
    if polls != [] {
      var p := polls[0];
      var q1 := Env(q, p.beforeOps);
      EnvExposed(q, n, p.beforeOps);
      if q1.ops == [] {
        EnvExposed(q1, n, p.beforeResp);
        var q2 := Env(q1, p.beforeResp);
        if q2.resp == [] && |q2.taken| == n {
          EnvFront(q, p.beforeOps);
          EnvFront(q1, p.beforeResp);
          assert false;
        }
      }
      var (q', empty) := AfterPoll(q, p);
      if !empty {
        LeftoverBlocksQuiet(q', n, polls[1..], 0);
      } else if seen + 1 < STABLE {
        LeftoverBlocksQuiet(q', n, polls[1..], seen + 1);
      }
    }
  }

  /** The injection that timed out leaves the queues in that condition. */
  lemma TimeoutLeavesRecord(q: Queues, id: nat, s: Schedule)
    requires Push(q, id, s).1.NoResponse? && BothEmpty(AtPush(q, s))
    ensures Exposed(Push(q, id, s).0, |AtPush(q, s).taken|)
  {
    InjectStream(AtPush(q, s), id);
    ReapExposed(Inject(AtPush(q, s), id), |AtPush(q, s).taken|, s.waits, s, Mine(id));
  }

  lemma {:induction false} EnvTaken(q: Queues, steps: seq<Step>)
    ensures q.taken <= Env(q, steps).taken
    decreases |steps|
  {
    if steps != [] {
      EnvTaken(Next(q, steps[0]), steps[1..]);
      PrefixTrans(q.taken, Next(q, steps[0]).taken, Env(q, steps).taken);
    }
  }

  lemma {:induction false} ReapTaken(q: Queues, waits: seq<seq<Step>>, s: Schedule)
    ensures q.taken <= Reap(q, waits, s).0.taken
    decreases |waits|
  {
    if waits != [] {
      var q1 := Env(q, waits[0]);
      EnvTaken(q, waits[0]);
      if |q1.resp| >= 3 {
        PopThreeTaken(q1, s);
      } else {
        ReapTaken(q1, waits[1..], s);
      }
      PrefixTrans(q.taken, q1.taken, Reap(q, waits, s).0.taken);
    }
  }

  lemma PopThreeTaken(q: Queues, s: Schedule)
    ensures q.taken <= PopThree(q, s).0.taken
  {
    var q0 := Env(q, s.pop0);
    EnvTaken(q, s.pop0);
    var q1 := Env(Pop(q0), s.pop1);
    EnvTaken(Pop(q0), s.pop1);
    EnvTaken(Pop(q1), s.pop2);
    PrefixTrans(q.taken, q0.taken, q1.taken);
    PrefixTrans(q.taken, q1.taken, Env(Pop(q1), s.pop2).taken);
  }

  /** No injection of the run gets past its quiet phase. */
  predicate AllRefused(q: Queues, events: seq<Event>)
    decreases |events|
  {
    events == [] ||
    match events[0]
    case Other(step) => AllRefused(Next(q, step), events[1..])
    case Injection(id, s) => Push(q, id, s).1.Refused? && AllRefused(Push(q, id, s).0, events[1..])
  }

  lemma PushExposed(q: Queues, n: nat, id: nat, s: Schedule)
    requires Exposed(q, n)
    ensures Exposed(Push(q, id, s).0, n)
    ensures |Push(q, id, s).0.taken| == n ==> Push(q, id, s).1.Refused?
  {
    LeftoverBlocksQuiet(q, n, s.polls, 0);
    var quiet := Quiet(q, s.polls, 0);
    if quiet.1 {
      var at := AtPush(q, s);
      EnvTaken(quiet.0, s.beforePush);
      ReapTaken(Inject(at, id), s.waits, s);
      PrefixTrans(quiet.0.taken, at.taken, Push(q, id, s).0.taken);
    }
  }

  /** A response that comes after the wait is never reaped, and the caller is not told.  From
      then on, over every run of the other processes and of further injections: either none of
      them gets past its quiet phase and the leftover record stays in front, or orchagent has read
      it, as the first thing it read. */
  lemma {:induction false} LeftoverBlocksInjections(q: Queues, n: nat, events: seq<Event>)
    requires Exposed(q, n)
    ensures Exposed(Run(q, events), n)
    ensures |Run(q, events).taken| == n ==> AllRefused(q, events)
    decreases |events|
  {
    if events != [] {
      match events[0]
      case Other(step) =>
        assert [step][1..] == [] && Env(q, [step]) == Next(q, step);
        EnvExposed(q, n, [step]);
        LeftoverBlocksInjections(Next(q, step), n, events[1..]);
      case Injection(id, s) =>
        PushExposed(q, n, id, s);
        var q1 := Push(q, id, s).0;
        LeftoverBlocksInjections(q1, n, events[1..]);
        RunTaken(q1, events[1..]);
    }
  }

  lemma {:induction false} RunTaken(q: Queues, events: seq<Event>)
    ensures |q.taken| <= |Run(q, events).taken|
    decreases |events|
  {
    if events != [] {
      match events[0]
      case Other(step) => RunTaken(Next(q, step), events[1..]);
      case Injection(id, s) =>
        QuietTaken(q, s.polls, 0);
        EnvTaken(Quiet(q, s.polls, 0).0, s.beforePush);
        if Quiet(q, s.polls, 0).1 { ReapTaken(Inject(AtPush(q, s), id), s.waits, s); }
        RunTaken(Push(q, id, s).0, events[1..]);
    }
  }

  lemma {:induction false} QuietTaken(q: Queues, polls: seq<Poll>, seen: nat)
    ensures |q.taken| <= |Quiet(q, polls, seen).0.taken|
    decreases |polls|
  {
    if polls != [] {
      var (q1, empty) := AfterPoll(q, polls[0]);
      EnvTaken(q, polls[0].beforeOps);
      EnvTaken(Env(q, polls[0].beforeOps), polls[0].beforeResp);
      if !empty {
        QuietTaken(q1, polls[1..], 0);
      } else if seen + 1 < STABLE {
        QuietTaken(q1, polls[1..], seen + 1);
      }
    }
  }

  // ---- what the quiet phase is worth ----

  predicate NoPushes(steps: seq<Step>) {
    forall i :: 0 <= i < |steps| ==> !steps[i].OrchPush?
  }

  lemma {:induction false} EmptyStays(q: Queues, steps: seq<Step>)
    requires q.ops == [] && NoPushes(steps)
    ensures Env(q, steps).ops == [] && |Env(q, steps).resp| <= |q.resp|
    decreases |steps|
  {
    if steps != [] {
      assert !steps[0].OrchPush?;
      EmptyStays(Next(q, steps[0]), steps[1..]);
    }
  }

  /** A quiet phase that succeeds ends in a poll that found the inbound queue empty at its first
      read and the response queue empty at its second.  If orchagent pushes nothing after that
      first read, both queues are empty at the push. */
  lemma {:induction false} QuietGuards(q: Queues, polls: seq<Poll>, seen: nat)
      returns (i: nat, before: Queues)
    requires Quiet(q, polls, seen).1
    ensures i < |polls| && before.ops == []
    ensures Quiet(q, polls, seen).0 == Env(before, polls[i].beforeResp)
    ensures Quiet(q, polls, seen).0.resp == []
    ensures forall late :: NoPushes(polls[i].beforeResp) && NoPushes(late) ==>
              BothEmpty(Env(Quiet(q, polls, seen).0, late))
    decreases |polls|
  {
    var (q1, empty) := AfterPoll(q, polls[0]);
    if empty && seen + 1 >= STABLE {
      i, before := 0, Env(q, polls[0].beforeOps);
      if NoPushes(polls[0].beforeResp) {
        EmptyStays(before, polls[0].beforeResp);
        forall late | NoPushes(late) ensures BothEmpty(Env(q1, late)) {
          EmptyStays(q1, late);
        }
      }
    } else {
      i, before := QuietGuards(q1, polls[1..], if empty then seen + 1 else 0);
      i := i + 1;
    }
  }

  // ---- how many polls it takes ----

  /** Where the queues are when poll `i` begins. */
  function PollAt(q: Queues, polls: seq<Poll>, i: nat): Queues
    requires i <= |polls|
    decreases i
  {
    if i == 0 then q else PollAt(AfterPoll(q, polls[0]).0, polls[1..], i - 1)
  }

  /** Poll `i` reads the inbound queue empty, and then the response queue empty. */
  predicate SeesEmpty(q: Queues, polls: seq<Poll>, i: nat) {
    i < |polls| &&
    var first := Env(PollAt(q, polls, i), polls[i].beforeOps);
    first.ops == [] && Env(first, polls[i].beforeResp).resp == []
  }

  predicate ThreeEmpty(q: Queues, polls: seq<Poll>, i: nat) {
    SeesEmpty(q, polls, i) && SeesEmpty(q, polls, i + 1) && SeesEmpty(q, polls, i + 2)
  }

  lemma SeesEmptyTail(q: Queues, polls: seq<Poll>, i: nat)
    requires polls != []
    ensures SeesEmpty(q, polls, i + 1) <==> SeesEmpty(AfterPoll(q, polls[0]).0, polls[1..], i)
  {
  }

  /** The polls up to number `n` end in three empty ones, of which `seen` may lie before the first. */
  predicate Settled(q: Queues, polls: seq<Poll>, seen: nat, n: nat) {
    && 0 < n <= |polls| && n + seen >= 3
    && SeesEmpty(q, polls, n - 1)
    && (n >= 2 ==> SeesEmpty(q, polls, n - 2))
    && (n >= 3 ==> SeesEmpty(q, polls, n - 3))
  }

  lemma SettledTail(q: Queues, polls: seq<Poll>, seen: nat, n: nat)
    requires polls != [] && seen < 3 && 1 < n <= |polls|
    ensures var (q1, empty) := AfterPoll(q, polls[0]);
            Settled(q, polls, seen, n) <==> Settled(q1, polls[1..], if empty then seen + 1 else 0, n - 1)
  {
    SeesEmptyTail(q, polls, n - 2);
    if n >= 3 { SeesEmptyTail(q, polls, n - 3); }
    if n >= 4 { SeesEmptyTail(q, polls, n - 4); }
    assert SeesEmpty(q, polls, 0) <==> AfterPoll(q, polls[0]).1;
  }

  /** The phase stops at the first poll that settles it, and fails when there is none. */
  lemma {:induction false} QuietStops(q: Queues, polls: seq<Poll>, seen: nat) returns (n: nat)
    requires seen < 3
    ensures n <= |polls| && Quiet(q, polls, seen).0 == PollAt(q, polls, n)
    ensures if Quiet(q, polls, seen).1 then Settled(q, polls, seen, n) else n == |polls|
    ensures forall m: nat :: Settled(q, polls, seen, m) ==> Quiet(q, polls, seen).1 && n <= m
    decreases |polls|
  {
    if polls == [] {
      n := 0;
    } else {
      var (q1, empty) := AfterPoll(q, polls[0]);
      assert SeesEmpty(q, polls, 0) <==> empty;
      if empty && seen == 2 {
        n := 1;
        assert PollAt(q, polls, 1) == q1;
      } else {
        n := QuietStops(q1, polls[1..], if empty then seen + 1 else 0);
        if Quiet(q, polls, seen).1 { SettledTail(q, polls, seen, n + 1); }
        forall m: nat | Settled(q, polls, seen, m) ensures Quiet(q, polls, seen).1 && n + 1 <= m {
          if m > 1 { SettledTail(q, polls, seen, m); }
        }
        n := n + 1;
      }
    }
  }

  /** Polls `i`, `i + 1` and `i + 2` are the first three in a row that saw both queues empty. */
  predicate FirstEmpty(q: Queues, polls: seq<Poll>, i: nat) {
    ThreeEmpty(q, polls, i) && forall j: nat :: j < i ==> !ThreeEmpty(q, polls, j)
  }

  lemma ThreeSettles(q: Queues, polls: seq<Poll>, i: nat)
    ensures ThreeEmpty(q, polls, i) <==> Settled(q, polls, 0, i + 3)
  {
  }

  /** The quiet phase succeeds if and only if some three polls in a row each saw both queues empty, and
      it makes no poll after the first three that did. */
  lemma QuietExactly(q: Queues, polls: seq<Poll>)
    ensures Quiet(q, polls, 0).1 <==> exists i: nat :: ThreeEmpty(q, polls, i)
    ensures forall i: nat :: FirstEmpty(q, polls, i) ==> Quiet(q, polls, 0).0 == PollAt(q, polls, i + 3)
    ensures !Quiet(q, polls, 0).1 ==> Quiet(q, polls, 0).0 == PollAt(q, polls, |polls|)
  {
    var n := QuietStops(q, polls, 0);
    if Quiet(q, polls, 0).1 { ThreeSettles(q, polls, n - 3); }
    forall i: nat | ThreeEmpty(q, polls, i) ensures Quiet(q, polls, 0).1 && n <= i + 3 {
      ThreeSettles(q, polls, i);
    }
    forall i: nat | FirstEmpty(q, polls, i) ensures n == i + 3 {
      assert ThreeEmpty(q, polls, n - 3);
    }
  }

  /** Where the queues are when the reap has looked `i` times. */
  function WaitAt(q: Queues, waits: seq<seq<Step>>, i: nat): Queues
    requires i <= |waits|
    decreases i
  {
    if i == 0 then q else WaitAt(Env(q, waits[0]), waits[1..], i - 1)
  }

  predicate ThreeThere(q: Queues, waits: seq<seq<Step>>, i: nat) {
    i < |waits| && |WaitAt(q, waits, i + 1).resp| >= 3
  }

  /** Look `i` is the first that finds three elements. */
  predicate FirstThere(q: Queues, waits: seq<seq<Step>>, i: nat) {
    ThreeThere(q, waits, i) && forall j: nat :: j < i ==> !ThreeThere(q, waits, j)
  }

  lemma ThreeThereTail(q: Queues, waits: seq<seq<Step>>, i: nat)
    requires waits != []
    ensures ThreeThere(q, waits, i + 1) <==> ThreeThere(Env(q, waits[0]), waits[1..], i)
  {
  }

  lemma FirstThereTail(q: Queues, waits: seq<seq<Step>>, i: nat)
    requires waits != [] && |Env(q, waits[0]).resp| < 3 && FirstThere(q, waits, i)
    ensures i > 0 && FirstThere(Env(q, waits[0]), waits[1..], i - 1)
  {
    assert WaitAt(q, waits, 0) == q;
    ThreeThereTail(q, waits, i - 1);
    forall j: nat | j < i - 1 ensures !ThreeThere(Env(q, waits[0]), waits[1..], j) {
      ThreeThereTail(q, waits, j);
    }
  }

  /** The reap takes its three elements at the first look that finds three, and gives up if and only if
      no look does. */
  lemma {:induction false} ReapExactly(q: Queues, waits: seq<seq<Step>>, s: Schedule)
    ensures Reap(q, waits, s).1.Reaped? <==> exists i: nat :: ThreeThere(q, waits, i)
    ensures forall i: nat :: FirstThere(q, waits, i) ==>
              Reap(q, waits, s).1.Reaped? &&
              (Reap(q, waits, s).0, Reap(q, waits, s).1.elems) == PopThree(WaitAt(q, waits, i + 1), s)
    ensures Reap(q, waits, s).1.NoResponse? ==> Reap(q, waits, s).0 == WaitAt(q, waits, |waits|)
    decreases |waits|
  {
    if waits != [] {
      var q1, tail := Env(q, waits[0]), waits[1..];
      assert WaitAt(q, waits, 0) == q;
      assert WaitAt(q, waits, 1) == q1;
      if |q1.resp| >= 3 {
        assert ThreeThere(q, waits, 0);
      } else {
        ReapExactly(q1, tail, s);
        forall i: nat ensures ThreeThere(q, waits, i + 1) <==> ThreeThere(q1, tail, i) {
          ThreeThereTail(q, waits, i);
        }
        if Reap(q, waits, s).1.Reaped? {
          var i: nat :| ThreeThere(q1, tail, i);
          assert ThreeThere(q, waits, i + 1);
        }
        forall i: nat | ThreeThere(q, waits, i) ensures Reap(q, waits, s).1.Reaped? {
          assert ThreeThere(q1, tail, i - 1);
        }
        forall i: nat | FirstThere(q, waits, i)
          ensures Reap(q, waits, s).1.Reaped? &&
                  (Reap(q, waits, s).0, Reap(q, waits, s).1.elems) == PopThree(WaitAt(q, waits, i + 1), s)
        {
          FirstThereTail(q, waits, i);
        }
      }
    }
  }

  /** How an injection ends, from what its looks at the queues saw: refused if no three polls in a row
      found both empty, and otherwise reaped at the first look that finds three elements. */
  lemma PushExactly(q: Queues, id: nat, s: Schedule)
    ensures Push(q, id, s).1.Refused? <==> forall i: nat :: !ThreeEmpty(q, s.polls, i)
    ensures var on := AtPush(q, s).(ops := AtPush(q, s).ops + [Mine(id)]);
            var quiet := exists i: nat :: ThreeEmpty(q, s.polls, i);
            && (Push(q, id, s).1.Reaped? <==> quiet && exists i: nat :: ThreeThere(on, s.waits, i))
            && forall i: nat :: quiet && FirstThere(on, s.waits, i) ==>
                 Push(q, id, s).0 == PopThree(WaitAt(on, s.waits, i + 1), s).0
  {
    QuietExactly(q, s.polls);
    ReapExactly(AtPush(q, s).(ops := AtPush(q, s).ops + [Mine(id)]), s.waits, s);
  }

  lemma IdlePollsQuiet(q: Queues)
    requires BothEmpty(q)
    ensures var idle := Poll([], []); Quiet(q, [idle, idle, idle], 0) == (q, true)
  {
    var idle := Poll([], []);
    var polls := [idle, idle, idle];
    assert polls[1..] == [idle, idle] && polls[1..][1..] == [idle];
    assert Quiet(q, polls[1..][1..], 2) == (q, true);
    assert Quiet(q, polls[1..], 1) == (q, true);
  }

  /** The reap when nothing else happens meanwhile. */
  lemma IdleReap(q: Queues, s: Schedule)
    requires s.pop0 == s.pop1 == s.pop2 == [] && |q.resp| >= 3
    ensures PopThree(q, s) == (q.(resp := q.resp[3..]), q.resp[..3])
  {
    assert q.resp[1..][1..][1..] == q.resp[3..];
    assert [q.resp[0]] + [q.resp[1]] + [q.resp[2]] == q.resp[..3];
  }

  lemma TwoSyncds(on: Queues)
    requires on == Queues([Orch(7), Mine(1)], [], [])
    ensures Env(on, [Syncd, Syncd]) == Queues([], Record(Orch(7)) + Record(Mine(1)), [])
  {
    var steps := [Syncd, Syncd];
    assert steps[1..] == [Syncd] && steps[1..][1..] == [];
    var mid := Queues([Mine(1)], Record(Orch(7)), []);
    assert Next(on, Syncd) == mid;
    var full := Queues([], Record(Orch(7)) + Record(Mine(1)), []);
    assert Next(mid, Syncd) == full;
    assert Env(mid, steps[1..]) == full;
  }

  /** The quiet phase alone does not make an injection safe: an operation that orchagent pushes
      between the last poll and the push is older than the injected one, and its response is
      the one that gets reaped. */
  lemma QuietIsNotEnough()
    ensures var idle := Poll([], []);
            var s := Schedule([idle, idle, idle], [OrchPush(7)], [[Syncd, Syncd]], [], [], []);
            var q := Queues([], [], []);
            && UndisturbedReap(s)
            && Push(q, 1, s).1 == Reaped(Record(Orch(7)))
            && Push(q, 1, s).0.resp == Record(Mine(1))
  {
    var idle := Poll([], []);
    var s := Schedule([idle, idle, idle], [OrchPush(7)], [[Syncd, Syncd]], [], [], []);
    var q := Queues([], [], []);
    IdlePollsQuiet(q);
    var at := Queues([Orch(7)], [], []);
    assert Env(q, s.beforePush) == at by { assert [OrchPush(7)][1..] == []; }
    var on := Inject(at, 1);
    TwoSyncds(on);
    var full := Env(on, s.waits[0]);
    IdleReap(full, s);
    assert full.resp[..3] == Record(Orch(7)) && full.resp[3..] == Record(Mine(1));
  }

  // ---- the class that drives the queues ----

  class Dlb {
    var q: Queues
    var mine: nat

    constructor (q: Queues)
      ensures this.q == q && mine == 0
    {
      this.q, mine := q, 0;
    }

    /** The other processes run until the framework's next command. */
    method Yield(steps: seq<Step>)
      modifies this`q
      ensures q == Env(old(q), steps)
    {
      var k := 0;
      while k < |steps|
        invariant 0 <= k <= |steps|
        invariant Env(old(q), steps) == Env(q, steps[k..])
      {
        assert steps[k..][0] == steps[k] && steps[k..][1..] == steps[k + 1..];
        q := Next(q, steps[k]);
        k := k + 1;
      }
    }

    /** Waits until both queues read empty `STABLE` times in a row. */
    method Quiesce(polls: seq<Poll>) returns (ok: bool)
      modifies this`q
      ensures (q, ok) == Quiet(old(q), polls, 0)
    {
      var seen := 0;
      var k := 0;
      while k < |polls|
        invariant 0 <= k <= |polls| && 0 <= seen < STABLE
        invariant Quiet(old(q), polls, 0) == Quiet(q, polls[k..], seen)
      {
        assert polls[k..][0] == polls[k] && polls[k..][1..] == polls[k + 1..];
        Yield(polls[k].beforeOps);
        var empty := false;
        if q.ops == [] {
          Yield(polls[k].beforeResp);
          empty := q.resp == [];
        }
        k := k + 1;
        if empty {
          seen := seen + 1;
          if seen >= STABLE {
            return true;
          }
        } else {
          seen := 0;
        }
      }
      ok := false;
    }

    method RightPop() returns (es: seq<Elem>)
      modifies this`q
      ensures q == Pop(old(q)) && es == Popped(old(q))
    {
      es := [];
      if q.resp != [] {
        es := [q.resp[0]];
        q := q.(resp := q.resp[1..]);
      }
    }

    /** Waits for the response and takes it off, element by element. */
    method ReapResponse(s: Schedule) returns (r: Result)
      modifies this`q
      ensures (q, r) == Reap(old(q), s.waits, s)
    {
      var k := 0;
      while k < |s.waits|
        invariant 0 <= k <= |s.waits|
        invariant Reap(old(q), s.waits, s) == Reap(q, s.waits[k..], s)
      {
        assert s.waits[k..][0] == s.waits[k] && s.waits[k..][1..] == s.waits[k + 1..];
        Yield(s.waits[k]);
        if |q.resp| >= 3 {
          Yield(s.pop0);
          var e0 := RightPop();
          Yield(s.pop1);
          var e1 := RightPop();
          Yield(s.pop2);
          var e2 := RightPop();
          return Reaped(e0 + e1 + e2);
        }
        k := k + 1;
      }
      r := NoResponse;
    }

    /** Injects one operation.  Nothing is pushed when the queues never went quiet; whether the
        reap succeeded is not looked at. */
    method PushOp(s: Schedule) returns (raised: bool, ghost r: Result)
      modifies this
      ensures (q, r) == Push(old(q), old(mine), s)
      ensures raised == r.Refused?
      ensures mine == old(mine) + (if raised then 0 else 1)
    {
      var ok := Quiesce(s.polls);
      if !ok {
        return true, Refused;
      }
      Yield(s.beforePush);
      q := q.(ops := q.ops + [Mine(mine)]);
      var result := ReapResponse(s);
      mine := mine + 1;
      return false, result;
    }
  }
}
