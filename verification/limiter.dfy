/** The concurrency limiter of one user as a state machine: any number of requests, one Redis command
    at a time. */
module Limiter {
  import opened Text

  /** The counter, the requests by phase, and two histories: releases and undos that never reached
      Redis, and counts wiped out by a DEL beyond the one the deleting request stood for. */
  datatype State = State(
    counter: int,
    admitted: set<nat>,
    releasing: map<nat, int>,
    rejecting: set<nat>,
    finished: set<nat>,
    leaked: nat,
    erased: int)
  {
    predicate Fresh(r: nat) {
      r !in admitted && r !in releasing && r !in rejecting && r !in finished
    }

    /** Requests that were let in and are not through with their release. */
    function Active(): nat {
      |admitted| + |releasing|
    }

    /** What the counter should be. */
    function Due(): int {
      Active() + |rejecting| + leaked
    }
  }

  datatype Step =
    | Arrive(r: nat)
    | Undo(r: nat)
    | LoseUndo(r: nat)
    | Release(r: nat)
    | Read(r: nat)
    | Finish(r: nat)
    | LoseRelease(r: nat)
    | Cleanup

  const START := State(0, {}, map[], {}, {}, 0, 0)

  /** The second command of a release that read this value. */
  function Finished(s: State, read: int): State {
    if read <= 1 then s.(counter := 0, erased := s.erased + s.counter - 1)
    else s.(counter := s.counter - 1)
  }

  /** A limit of zero or less lets everybody in. */
  predicate Exceeds(max: int, current: int) {
    max > 0 && current > max
  }

  /** One command; a step of a request that is not in the right phase changes nothing. */
  function Next(max: int, s: State, step: Step): State {
    match step
    case Arrive(r) =>
      if !s.Fresh(r) then s
      else if Exceeds(max, s.counter + 1) then s.(counter := s.counter + 1, rejecting := s.rejecting + {r})
      else s.(counter := s.counter + 1, admitted := s.admitted + {r})
    case Undo(r) =>
      if r !in s.rejecting then s
      else s.(counter := s.counter - 1, rejecting := s.rejecting - {r}, finished := s.finished + {r})
    case LoseUndo(r) =>
      if r !in s.rejecting then s
      else s.(rejecting := s.rejecting - {r}, finished := s.finished + {r}, leaked := s.leaked + 1)
    case Release(r) =>
      if r !in s.admitted then s
      else Finished(s.(admitted := s.admitted - {r}, finished := s.finished + {r}), s.counter)
    case Read(r) =>
      if r !in s.admitted || r in s.releasing then s
      else s.(admitted := s.admitted - {r}, releasing := s.releasing[r := s.counter])
    case Finish(r) =>
      if r !in s.releasing then s
      else Finished(s.(releasing := s.releasing - {r}, finished := s.finished + {r}), s.releasing[r])
    case LoseRelease(r) =>
      if r in s.admitted then s.(admitted := s.admitted - {r}, finished := s.finished + {r}, leaked := s.leaked + 1)
      else if r in s.releasing then
        s.(releasing := s.releasing - {r}, finished := s.finished + {r}, leaked := s.leaked + 1)
      else s
    case Cleanup => s.(counter := 0, erased := s.erased + s.counter)
  }

  function Run(max: int, s: State, steps: seq<Step>): State {
    if steps == [] then s else Next(max, Run(max, s, Front(steps)), Last(steps))
  }

  /** Every release is one step, and nobody cleans up: what the limiter promises rests on this. */
  predicate Atomic(steps: seq<Step>) {
    forall i :: 0 <= i < |steps| ==> !steps[i].Read? && !steps[i].Finish? && !steps[i].Cleanup?
  }

  // ---------------------------------------------------------------- accounting

  lemma SizeWithout(m: map<nat, int>, r: nat)
    requires r in m
    ensures |m - {r}| == |m| - 1
  {
    var rest := m - {r};
    assert m == rest[r := m[r]];
  }

  lemma SizeWith(m: map<nat, int>, r: nat, n: int)
    requires r !in m
    ensures |m[r := n]| == |m| + 1
  {
  }

  lemma SizeAdded(rs: set<nat>, r: nat)
    requires r !in rs
    ensures |rs + {r}| == |rs| + 1
  {
  }

  lemma SizeRemoved(rs: set<nat>, r: nat)
    requires r in rs
    ensures |rs - {r}| == |rs| - 1
  {
  }

  /** The counter and what was wiped out of it are what the counter should be, and no request is in
      two phases. */
  predicate InBooks(s: State) {
    s.counter + s.erased == s.Due() && (forall r :: r in s.admitted ==> r !in s.releasing)
  }

  lemma SplitStep(max: int, s: State, step: Step)
    requires InBooks(s) && (step.Read? || step.Finish? || step.LoseRelease?)
    ensures InBooks(Next(max, s, step))
  {
    var r := step.r;
    if step.Read? {
      if r in s.admitted {
        SizeRemoved(s.admitted, r);
        SizeWith(s.releasing, r, s.counter);
      }
    } else if r in s.admitted {
      if step.LoseRelease? { SizeRemoved(s.admitted, r); }
    } else if r in s.releasing {
      SizeWithout(s.releasing, r);
    }
  }

  lemma AccountedStep(max: int, s: State, step: Step)
    requires InBooks(s) && !step.Read? && !step.Finish? && !step.LoseRelease?
    ensures InBooks(Next(max, s, step))
  {
    match step
    case Arrive(r) => ArriveInBooks(max, s, r);
    case Undo(r) => UndoInBooks(max, s, r);
    case LoseUndo(r) => UndoInBooks(max, s, r);
    case Release(r) => ReleaseInBooks(max, s, r);
    case Cleanup =>
  }

  lemma ArriveInBooks(max: int, s: State, r: nat)
    requires InBooks(s)
    ensures InBooks(Next(max, s, Arrive(r)))
  {
    if s.Fresh(r) {
      if Exceeds(max, s.counter + 1) { SizeAdded(s.rejecting, r); } else { SizeAdded(s.admitted, r); }
    }
  }

  lemma UndoInBooks(max: int, s: State, r: nat)
    requires InBooks(s)
    ensures InBooks(Next(max, s, Undo(r))) && InBooks(Next(max, s, LoseUndo(r)))
  {
    if r in s.rejecting { SizeRemoved(s.rejecting, r); }
  }

  lemma ReleaseInBooks(max: int, s: State, r: nat)
    requires InBooks(s)
    ensures InBooks(Next(max, s, Release(r)))
  {
    if r in s.admitted { SizeRemoved(s.admitted, r); }
  }

  /** In every interleaving, releases split or not, lost or not: the counter and what was wiped out of
      it are the requests inside, the rejections not undone yet, and the leaks. */
  lemma {:induction false} Accounted(max: int, steps: seq<Step>)
    ensures InBooks(Run(max, START, steps))
  {
    if steps != [] {
      var s, step := Run(max, START, Front(steps)), Last(steps);
      Accounted(max, Front(steps));
      if step.Read? || step.Finish? || step.LoseRelease? {
        SplitStep(max, s, step);
      } else {
        AccountedStep(max, s, step);
      }
    }
  }

  // ---------------------------------------------------------------- atomic releases

  lemma {:induction false} NothingErased(max: int, steps: seq<Step>)
    requires Atomic(steps)
    ensures var s := Run(max, START, steps); s.erased == 0 && s.releasing == map[]
  {
    if steps != [] {
      var s := Run(max, START, Front(steps));
      NothingErased(max, Front(steps));
      Accounted(max, Front(steps));
      match Last(steps)
      case Release(r) =>
        if r in s.admitted { assert |s.admitted| >= 1; }
      case _ =>
    }
  }

  /** With atomic releases the counter is exactly the requests inside, the rejections not undone yet,
      and the leaks. */
  lemma CounterExactly(max: int, steps: seq<Step>)
    requires Atomic(steps)
    ensures var s := Run(max, START, steps);
         s.counter == |s.admitted| + |s.rejecting| + s.leaked && s.Active() == |s.admitted|
  {
    Accounted(max, steps);
    NothingErased(max, steps);
  }

  /** With atomic releases a positive limit is never exceeded. */
  lemma {:induction false} LimitHolds(max: int, steps: seq<Step>)
    requires Atomic(steps) && max > 0
    ensures Run(max, START, steps).Active() <= max
  {
    CounterExactly(max, steps);
    if steps != [] {
      LimitHolds(max, Front(steps));
      CounterExactly(max, Front(steps));
    }
  }

  /** In every interleaving a new request is turned away exactly when those inside, those being turned
      away and the leaks, less what was wiped out, fill the limit. */
  lemma RejectedExactly(max: int, steps: seq<Step>, r: nat)
    requires Run(max, START, steps).Fresh(r)
    ensures var s := Run(max, START, steps);
         r in Next(max, s, Arrive(r)).rejecting <==> 0 < max <= s.Due() - s.erased
  {
    Accounted(max, steps);
  }

  /** In every interleaving, when everybody is through, the counter is the leaks less what was wiped
      out; with atomic releases nothing is (NothingErased). */
  lemma CounterAtRest(max: int, steps: seq<Step>)
    requires var s := Run(max, START, steps); s.admitted == {} && s.releasing == map[] && s.rejecting == {}
    ensures var s := Run(max, START, steps); s.counter == s.leaked - s.erased
  {
    Accounted(max, steps);
  }

  /** Once the leaks, less what was wiped out, fill a positive limit, nobody is let in any more. */
  lemma LeaksShutOut(max: int, steps: seq<Step>, r: nat)
    requires var s := Run(max, START, steps); 0 < max <= s.leaked - s.erased
    ensures r !in Next(max, Run(max, START, steps), Arrive(r)).admitted || r in Run(max, START, steps).admitted
  {
    Accounted(max, steps);
  }

  // ---------------------------------------------------------------- whole requests

  predicate Names(step: Step, r: nat) {
    !step.Cleanup? && step.r == r
  }

  /** The commands of one request. */
  function About(steps: seq<Step>, r: nat): seq<Step> {
    if steps == [] then [] else About(Front(steps), r) + if Names(Last(steps), r) then [Last(steps)] else []
  }

  /** The request of this command is in the phase the command belongs to. */
  predicate Enabled(s: State, step: Step) {
    match step
    case Arrive(r) => s.Fresh(r)
    case Undo(r) => r in s.rejecting
    case LoseUndo(r) => r in s.rejecting
    case Release(r) => r in s.admitted
    case Read(r) => r in s.admitted
    case Finish(r) => r in s.releasing
    case LoseRelease(r) => r in s.admitted || r in s.releasing
    case Cleanup => true
  }

  /** Every request does one thing after the other. */
  predicate Orderly(max: int, steps: seq<Step>) {
    steps != [] ==> Orderly(max, Front(steps)) && Enabled(Run(max, START, Front(steps)), Last(steps))
  }

  lemma {:induction false} OnePhase(max: int, steps: seq<Step>, r: nat)
    ensures var s := Run(max, START, steps);
         && !(r in s.admitted && (r in s.rejecting || r in s.finished)) && !(r in s.rejecting && r in s.finished)
         && (r in s.releasing ==> r !in s.admitted && r !in s.rejecting && r !in s.finished)
  {
    if steps != [] { OnePhase(max, Front(steps), r); }
  }

  /** The last command a request has issued tells its phase. */
  predicate PhaseIs(s: State, r: nat, commands: seq<Step>) {
    if commands == [] then s.Fresh(r)
    else match Last(commands)
      case Arrive(_) => r in s.admitted || r in s.rejecting
      case Read(_) => r in s.releasing
      case Cleanup => false
      case _ => r in s.finished
  }

  lemma {:induction false} PhaseByLast(max: int, steps: seq<Step>, r: nat)
    requires Orderly(max, steps)
    ensures PhaseIs(Run(max, START, steps), r, About(steps, r))
  {
    if steps != [] {
      PhaseByLast(max, Front(steps), r);
      OnePhase(max, Front(steps), r);
      PhaseFollows(max, Run(max, START, Front(steps)), Last(steps), r, About(Front(steps), r));
    }
  }

  lemma PhaseFollows(max: int, s: State, step: Step, r: nat, commands: seq<Step>)
    requires Enabled(s, step) && PhaseIs(s, r, commands)
    requires r in s.admitted ==> r !in s.releasing
    ensures PhaseIs(Next(max, s, step), r, commands + if Names(step, r) then [step] else [])
  {
    if Names(step, r) {
      assert Last(commands + [step]) == step;
    } else {
      assert commands + [] == commands;
    }
  }

  /** The request has issued its last command, or none. */
  predicate Through(commands: seq<Step>) {
    commands == [] || !(Last(commands).Arrive? || Last(commands).Read?)
  }

  /** When every request that arrived has issued its last command, in whatever interleaving and with
      releases split or not, nobody is inside, and the counter is the leaks less what was wiped out. */
  lemma AllThrough(max: int, steps: seq<Step>)
    requires Orderly(max, steps) && forall r: nat :: Through(About(steps, r))
    ensures var s := Run(max, START, steps);
         s.admitted == {} && s.releasing == map[] && s.rejecting == {} && s.counter == s.leaked - s.erased
  {
    var s := Run(max, START, steps);
    forall r: nat
      ensures r !in s.admitted && r !in s.releasing && r !in s.rejecting
    {
      PhaseByLast(max, steps, r);
      OnePhase(max, steps, r);
    }
    CounterAtRest(max, steps);
  }

  // ---------------------------------------------------------------- split releases

  /** A step wipes nothing out: a DEL finds the counter at one, a clean-up at zero. */
  predicate Harmless(s: State, step: Step) {
    match step
    case Finish(r) => r in s.releasing && s.releasing[r] <= 1 ==> s.counter == 1
    case Release(r) => r in s.admitted && s.counter <= 1 ==> s.counter == 1
    case Cleanup => s.counter == 0
    case _ => true
  }

  /** A step changes what was wiped out exactly when it is not harmless. */
  lemma ErasedStep(max: int, s: State, step: Step)
    ensures Next(max, s, step).erased == s.erased <==> Harmless(s, step)
  {
  }

  predicate HarmlessRun(max: int, steps: seq<Step>) {
    steps != [] ==> HarmlessRun(max, Front(steps)) && Harmless(Run(max, START, Front(steps)), Last(steps))
  }

  /** Split releases do no harm as long as every DEL finds the counter at one: the counter is right and
      a positive limit is never exceeded. */
  lemma {:induction false} LimitHoldsIfHarmless(max: int, steps: seq<Step>)
    requires HarmlessRun(max, steps)
    ensures var s := Run(max, START, steps);
         s.erased == 0 && s.counter == s.Due() && (max > 0 ==> s.Active() <= max)
  {
    Accounted(max, steps);
    if steps != [] {
      LimitHoldsIfHarmless(max, Front(steps));
      Accounted(max, Front(steps));
      ErasedStep(max, Run(max, START, Front(steps)), Last(steps));
      ActiveGrows(max, Run(max, START, Front(steps)), Last(steps));
    }
  }

  /** Only an arrival below the limit adds to the requests inside. */
  lemma ActiveGrows(max: int, s: State, step: Step)
    requires InBooks(s)
    ensures || Next(max, s, step).Active() <= s.Active()
            || (!Exceeds(max, s.counter + 1) && Next(max, s, step).Active() == s.Active() + 1)
  {
    match step
    case Arrive(r) => ArrivalRaisesActive(max, s, r);
    case Release(r) => ReleaseLowersActive(max, s, r);
    case Read(r) => ReadKeepsActive(max, s, r);
    case Finish(r) => ReleaseLowersActive(max, s, r);
    case LoseRelease(r) => LossLowersActive(max, s, r);
    case _ =>
  }

  lemma ArrivalRaisesActive(max: int, s: State, r: nat)
    ensures var t := Next(max, s, Arrive(r));
         t.Active() == s.Active() || (!Exceeds(max, s.counter + 1) && t.Active() == s.Active() + 1)
  {
    if s.Fresh(r) { SizeAdded(s.admitted, r); }
  }

  lemma ReleaseLowersActive(max: int, s: State, r: nat)
    ensures Next(max, s, Release(r)).Active() <= s.Active() && Next(max, s, Finish(r)).Active() <= s.Active()
  {
    if r in s.admitted { SizeRemoved(s.admitted, r); }
    if r in s.releasing { SizeWithout(s.releasing, r); }
  }

  lemma ReadKeepsActive(max: int, s: State, r: nat)
    requires InBooks(s)
    ensures Next(max, s, Read(r)).Active() == s.Active()
  {
    if r in s.admitted {
      SizeRemoved(s.admitted, r);
      SizeWith(s.releasing, r, s.counter);
    }
  }

  lemma LossLowersActive(max: int, s: State, r: nat)
    requires InBooks(s)
    ensures Next(max, s, LoseRelease(r)).Active() <= s.Active()
  {
    if r in s.admitted {
      SizeRemoved(s.admitted, r);
    } else if r in s.releasing {
      SizeWithout(s.releasing, r);
    }
  }

  /** Room for k more: the next k new requests are all let in. */
  lemma {:induction false} ArriveMany(max: int, s: State, from: nat, k: nat)
    requires s.counter + k <= max && (forall r :: from <= r < from + k ==> s.Fresh(r))
    ensures Run(max, s, Arrivals(from, k)) == s.(counter := s.counter + k, admitted := s.admitted + Range(from, k))
  {
    if k == 0 {
      assert s.admitted + Range(from, 0) == s.admitted;
    } else {
      ArriveMany(max, s, from, k - 1);
      assert Front(Arrivals(from, k)) == Arrivals(from, k - 1);
      assert s.Fresh(from + k - 1);
      ArriveOne(max, s, Run(max, s, Arrivals(from, k - 1)), from, k);
    }
  }

  lemma ArriveOne(max: int, s: State, t: State, from: nat, k: nat)
    requires k > 0 && s.counter + k <= max && s.Fresh(from + k - 1)
    requires t == s.(counter := s.counter + k - 1, admitted := s.admitted + Range(from, k - 1))
    ensures Next(max, t, Arrive(from + k - 1)) == s.(counter := s.counter + k, admitted := s.admitted + Range(from, k))
  {
    assert s.admitted + Range(from, k) == t.admitted + {from + k - 1};
  }

  function Arrivals(from: nat, k: nat): seq<Step> {
    if k == 0 then [] else Arrivals(from, k - 1) + [Arrive(from + k - 1)]
  }

  function Range(from: nat, k: nat): (rs: set<nat>)
    ensures forall r :: r in rs <==> from <= r < from + k
    ensures |rs| == k
  {
    if k == 0 then {} else Range(from, k - 1) + {from + k - 1}
  }

  lemma {:induction false} RunAppend(max: int, s: State, a: seq<Step>, b: seq<Step>)
    ensures Run(max, s, a + b) == Run(max, Run(max, s, a), b)
    decreases |b|
  {
    if b == [] {
      assert a + b == a;
    } else {
      assert Front(a + b) == a + Front(b) && Last(a + b) == Last(b);
      RunAppend(max, s, a, Front(b));
    }
  }

  /** Request 0 reads the counter at one, request 1 arrives, request 0 deletes the counter. For a limit
      of one, request 1 then undoes its rejection below zero. */
  function Race(max: int): seq<Step> {
    [Arrive(0), Read(0), Arrive(1), Finish(0)] + if max == 1 then [Undo(1)] else []
  }

  /** After the race the counter stands below what it should count. */
  lemma RaceLeaves(max: int)
    requires max > 0
    ensures var s := Run(max, START, Race(max));
         if max == 1 then s == State(-1, {}, map[], {}, {0, 1}, 0, 1)
         else s == State(0, {1}, map[], {}, {0}, 0, 1)
  {
    var s1 := State(1, {0}, map[], {}, {}, 0, 0);
    var s2 := State(1, {}, map[0 := 1], {}, {}, 0, 0);
    var s3 := if max == 1 then s2.(counter := 2, rejecting := {1}) else s2.(counter := 2, admitted := {1});
    assert Next(max, START, Arrive(0)) == s1 && Next(max, s1, Read(0)) == s2 && Next(max, s2, Arrive(1)) == s3;
    var s4 := Next(max, s3, Finish(0));
    assert map[0 := 1] - {0} == map[];
    RunFour(max, Arrive(0), Read(0), Arrive(1), Finish(0));
    if max == 1 {
      assert s4 == State(0, {}, map[], {1}, {0}, 0, 1);
      assert Front(Race(max)) == [Arrive(0), Read(0), Arrive(1), Finish(0)] && Last(Race(max)) == Undo(1);
    } else {
      assert Race(max) == [Arrive(0), Read(0), Arrive(1), Finish(0)];
    }
  }

  lemma RunFour(max: int, a: Step, b: Step, c: Step, d: Step)
    ensures Run(max, START, [a, b, c, d]) == Next(max, Next(max, Next(max, Next(max, START, a), b), c), d)
  {
    var s1 := Next(max, START, a);
    var s2, s3 := Next(max, s1, b), Next(max, Next(max, s1, b), c);
    assert Front([a]) == [] && Run(max, START, [a]) == s1;
    assert Front([a, b]) == [a] && Run(max, START, [a, b]) == s2;
    assert Front([a, b, c]) == [a, b] && Run(max, START, [a, b, c]) == s3;
    assert Front([a, b, c, d]) == [a, b, c];
  }

  /** New requests, when there is room for all of them, add up. */
  lemma ActiveAfter(max: int, s: State, from: nat, k: nat)
    requires s.counter + k <= max && (forall r :: from <= r < from + k ==> s.Fresh(r))
    ensures var t := Run(max, s, Arrivals(from, k)); t.Active() == s.Active() + k && t.leaked == s.leaked
  {
    ArriveMany(max, s, from, k);
    AddedActive(s, from, k);
  }

  lemma AddedActive(s: State, from: nat, k: nat)
    requires forall r :: from <= r < from + k ==> s.Fresh(r)
    ensures s.(counter := s.counter + k, admitted := s.admitted + Range(from, k)).Active() == s.Active() + k
  {
    forall r | r in Range(from, k)
      ensures r !in s.admitted
    {
      assert s.Fresh(r);
    }
    SizeOfDisjoint(s.admitted, Range(from, k));
  }

  lemma SizeOfDisjoint(a: set<nat>, b: set<nat>)
    requires forall r :: r in b ==> r !in a
    ensures |a + b| == |a| + |b|
  {
    assert a !! b;
  }

  /** How many more requests get in after the race. */
  function Late(max: int): nat {
    if max <= 1 then 2 else max
  }

  /** With split releases every positive limit can be exceeded, with no command lost. */
  lemma SplitReleaseBreaks(max: int)
    requires max > 0
    ensures var s := Run(max, START, Race(max) + Arrivals(2, Late(max)));
         s.Active() == max + 1 && s.leaked == 0
  {
    RaceLeaves(max);
    RunAppend(max, START, Race(max), Arrivals(2, Late(max)));
    ActiveAfter(max, Run(max, START, Race(max)), 2, Late(max));
  }

  lemma AboutNext(steps: seq<Step>, n: nat, r: nat)
    requires n < |steps|
    ensures About(steps[..n + 1], r) == About(steps[..n], r) + if Names(steps[n], r) then [steps[n]] else []
  {
    assert Front(steps[..n + 1]) == steps[..n] && Last(steps[..n + 1]) == steps[n];
  }

  /** The race under a limit of one, request by request. */
  lemma RaceAbout(r: nat)
    ensures About(Race(1), r)
         == if r == 0 then [Arrive(0), Read(0), Finish(0)] else if r == 1 then [Arrive(1), Undo(1)] else []
  {
    var steps := Race(1);
    AboutNext(steps, 0, r);
    AboutNext(steps, 1, r);
    AboutNext(steps, 2, r);
    AboutNext(steps, 3, r);
    AboutNext(steps, 4, r);
    assert steps[..0] == [] && steps[..5] == steps;
  }

  lemma RaceOrderly()
    ensures Orderly(1, Race(1))
  {
    var s1, s2 := [Arrive(0)], [Arrive(0), Read(0)];
    var s3, s4 := [Arrive(0), Read(0), Arrive(1)], [Arrive(0), Read(0), Arrive(1), Finish(0)];
    assert Front(s1) == [] && Front(s2) == s1 && Front(s3) == s2 && Front(s4) == s3 && Front(Race(1)) == s4;
    var t1, t2 := State(1, {0}, map[], {}, {}, 0, 0), State(1, {}, map[0 := 1], {}, {}, 0, 0);
    assert Run(1, START, []) == START && Run(1, START, s1) == t1;
    assert Run(1, START, s2) == t2;
    assert Run(1, START, s3) == t2.(counter := 2, rejecting := {1});
    assert 1 in Run(1, START, s4).rejecting;
    assert Orderly(1, []) && Orderly(1, s1);
    assert Orderly(1, s2);
    assert Orderly(1, s3);
    assert Orderly(1, s4);
  }
}
