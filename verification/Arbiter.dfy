/** V12's safety arbiter: a latch that overrides the worker's target while it is unsafe, holds a
    committed escape, and lets go only after a minimum time and several safe frames in a row. */
module Arbiter {
  import opened Numbers
  import opened Geometry
  import opened GuardEvaluation
  import opened Corridor

  const TRIGGER_CLEARANCE := 28.0
  const RELEASE_CLEARANCE := 44.0
  const EMERGENCY_CLEARANCE := 8.0
  const LATCH_MS := 300.0
  const REPLAN_EVERY_MS := 66.0
  const RELEASE_SAFE_FRAMES: nat := 5

  /** `lastPlanAt` is absent before the first plan (minus infinity in the source). */
  datatype State = State(latched: bool, latchUntil: real, target: Option<real>, safeFrames: nat,
                         direction: int, lastPlanAt: Option<real>)

  /** What one rendered frame brings: the worker's target, the clock, the target applied before, the
      guard's view of the road and whether the shield is up. */
  datatype Frame = Frame(workerTarget: Option<real>, now: real, applied: Option<real>, g: GuardPaths, shield: bool)

  datatype Output = Output(target: real, guard: bool)

  const INITIAL := State(false, 0.0, None, 0, 0, None)

  /** A latched guard always has a target; an unlatched one has neither target nor safe frames. */
  predicate Consistent(s: State) {
    && (s.latched ==> s.target.Some? && s.safeFrames < RELEASE_SAFE_FRAMES)
    && (!s.latched ==> s.target.None? && s.safeFrames == 0 && s.direction == 0)
  }

  function InRoad(f: Frame, x: real): real {
    Clamp(x, MinX(f.g), MaxX(f.g))
  }

  function WorkerTarget(f: Frame): real {
    InRoad(f, if f.workerTarget.Some? then f.workerTarget.value
              else if f.applied.Some? then f.applied.value else f.g.playerX)
  }

  /** Hit-free on this frame with at least the given clearance. */
  predicate ClearBy(f: Frame, target: real, clearance: real)
    requires Sampled(f.g)
  {
    CappedHits(f.g, target) == 0 && AtMost(Fin(clearance), LeastClearance(f.g, target))
  }

  function LatchOn(f: Frame, best: Option<Candidate>): State {
    var worker := WorkerTarget(f);
    var target := if best.Some? then best.value.target else worker;
    var direction := if best.Some? && best.value.direction != 0 then best.value.direction
                     else Sign(target - f.g.playerX);
    State(true, f.now + LATCH_MS, Some(target), 0, direction, Some(f.now))
  }

  predicate ReplanDue(s: State, f: Frame) {
    s.lastPlanAt.None? || f.now - s.lastPlanAt.value >= REPLAN_EVERY_MS
  }

  predicate MustReplan(s: State, f: Frame)
    requires Sampled(f.g) && s.target.Some?
  {
    var current := InRoad(f, s.target.value);
    !ClearBy(f, current, EMERGENCY_CLEARANCE) || (ReplanDue(s, f) && !ClearBy(f, current, TRIGGER_CLEARANCE))
  }

  /** The latched state after a replan that found `best`. */
  function Replanned(s: State, f: Frame, best: Option<Candidate>): State
    requires Sampled(f.g) && s.target.Some?
  {
    var unsafe := !ClearBy(f, InRoad(f, s.target.value), EMERGENCY_CLEARANCE);
    var s1 := s.(lastPlanAt := Some(f.now));
    if best.None? then s1
    else
      var d := best.value.direction;
      s1.(target := Some(best.value.target),
          direction := if d != 0 && (s.direction == 0 || d == s.direction || unsafe) then d else s.direction)
  }

  /** A frame that counts towards release. */
  predicate CountsAsSafe(s: State, f: Frame)
    requires Sampled(f.g)
  {
    f.now >= s.latchUntil && ClearBy(f, WorkerTarget(f), RELEASE_CLEARANCE)
  }

  function Released(s: State): State {
    s.(latched := false, safeFrames := 0, target := None, direction := 0)
  }

  function Latched(s: State, f: Frame, first: Option<Candidate>): State
    requires Sampled(f.g)
  {
    if !s.latched && !ClearBy(f, WorkerTarget(f), TRIGGER_CLEARANCE) then LatchOn(f, first) else s
  }

  /** One arbitration; `first` is the corridor candidate found when latching on, `second` the one found
      when replanning. */
  function Decide(s: State, f: Frame, first: Option<Candidate>, second: Option<Candidate>): (r: (State, Output))
    requires Sampled(f.g) && Consistent(s)
  {
    var s1 := Latched(s, f, first);
    if !s1.latched then (s1, Output(WorkerTarget(f), false))
    else
      var s2 := if MustReplan(s1, f) then Replanned(s1, f, second) else s1;
      var s3 := s2.(safeFrames := if CountsAsSafe(s2, f) then s2.safeFrames + 1 else 0);
      if s3.safeFrames >= RELEASE_SAFE_FRAMES then (Released(s3), Output(WorkerTarget(f), false))
      else (s3, Output(InRoad(f, s3.target.value), true))
  }

  // ---------------------------------------------------------------------------
  // The arbiter object
  // ---------------------------------------------------------------------------

  /** `best` comes from a scan of the road on this frame, made with this reference target and direction. */
  ghost predicate FoundOn(f: Frame, reference: real, locked: int, best: Option<Candidate>)
    requires Sampled(f.g)
  {
    exists rows, runs, b :: IsScan(f.g, f.shield, Some(reference), locked, best, rows, runs, b)
  }

  /** The escape collides, or passes some hazard closer than 8 px. */
  ghost predicate InDanger(f: Frame, target: real)
    requires Sampled(f.g)
  {
    CappedHits(f.g, target) > 0 || Less(LeastClearance(f.g, target), Fin(8.0))
  }

  /** The escape passes some hazard closer than 28 px, and the last plan is at least 66 ms old. */
  ghost predicate TightAndDue(s: State, f: Frame, target: real)
    requires Sampled(f.g)
  {
    Less(LeastClearance(f.g, target), Fin(28.0)) && (s.lastPlanAt == None || f.now >= s.lastPlanAt.value + 66.0)
  }

  /** The worker's target collides with nothing, and nothing passes it closer than 28 px. */
  ghost predicate WorkerIsSafe(f: Frame)
    requires Sampled(f.g)
  {
    CappedHits(f.g, WorkerTarget(f)) == 0 && AtMost(Fin(28.0), LeastClearance(f.g, WorkerTarget(f)))
  }

  /** The scans a frame makes: one when an unsafe worker target is to be replaced, and one when the escape is
      in danger, or tight and due. */
  ghost predicate Scans(s: State, f: Frame, first: Option<Candidate>, second: Option<Candidate>)
    requires Sampled(f.g) && Consistent(s)
  {
    && (!s.latched && !WorkerIsSafe(f) ==> FoundOn(f, WorkerTarget(f), 0, first))
    && var held := Latched(s, f, first);
       held.latched ==>
         var current := InRoad(f, held.target.value);
         InDanger(f, current) || TightAndDue(held, f, current) ==> FoundOn(f, current, held.direction, second)
  }

  class Guard {
    var latched: bool
    var latchUntil: real
    var target: Option<real>
    var safeFrames: nat
    var direction: int
    var lastPlanAt: Option<real>

    function Value(): State
      reads this
    {
      State(latched, latchUntil, target, safeFrames, direction, lastPlanAt)
    }

    constructor ()
      ensures Value() == INITIAL
    {
      latched, latchUntil, target, safeFrames, direction, lastPlanAt := false, 0.0, None, 0, 0, None;
    }

    /** A new run of the game clears everything. */
    method Reset()
      modifies this
      ensures Value() == INITIAL
    {
      latched, latchUntil, target, safeFrames, direction, lastPlanAt := false, 0.0, None, 0, 0, None;
    }

    method Arbitrate(f: Frame) returns (out: Output, ghost first: Option<Candidate>, ghost second: Option<Candidate>)
      requires Sampled(f.g) && Consistent(Value())
      modifies this
      ensures (Value(), out) == Decide(old(Value()), f, first, second)
      ensures Consistent(Value())
      ensures Scans(old(Value()), f, first, second)
    {
      hide CappedHits, LeastClearance, Clamp, FoundOn;
      ghost var before := Value();
      first, second := None, None;
      var worker := WorkerTarget(f);
      var workerEval := EvaluateCapped(f.g, worker);
      var workerSafe := workerEval.hitCount == 0 && AtMost(Fin(TRIGGER_CLEARANCE), workerEval.minClearance);
      if !latched && !workerSafe {
        var best, rows, runs, b := CandidateGuardTarget(f.g, f.shield, Some(worker), 0);
        first := best;
        assert FoundOn(f, worker, 0, first) by {
          ScanIsFound(f, worker, 0, best, rows, runs, b);
        }
        LatchOnto(f, worker, best);
      }
      assert Value() == Latched(before, f, first);
      if !latched {
        return Output(worker, false), first, second;
      }
      second := Hold(f);
      ghost var held := Value();
      var releaseSafe := workerEval.hitCount == 0 && AtMost(Fin(RELEASE_CLEARANCE), workerEval.minClearance);
      if f.now >= latchUntil && releaseSafe {
        safeFrames := safeFrames + 1;
      } else {
        safeFrames := 0;
      }
      assert Value() == held.(safeFrames := if CountsAsSafe(held, f) then held.safeFrames + 1 else 0);
      if safeFrames >= RELEASE_SAFE_FRAMES {
        latched, safeFrames, target, direction := false, 0, None, 0;
        return Output(worker, false), first, second;
      }
      return Output(InRoad(f, target.value), true), first, second;
    }

    /** Takes the latch with the best corridor, or with the worker's own target if there is none. */
    method LatchOnto(f: Frame, worker: real, best: Option<Candidate>)
      requires worker == WorkerTarget(f)
      modifies this
      ensures Value() == LatchOn(f, best)
    {
      latched, latchUntil, safeFrames, lastPlanAt := true, f.now + LATCH_MS, 0, Some(f.now);
      if best.Some? {
        target := Some(best.value.target);
        direction := if best.value.direction != 0 then best.value.direction else Sign(best.value.target - f.g.playerX);
      } else {
        target := Some(worker);
        direction := Sign(worker - f.g.playerX);
      }
    }

    /** Keeps the committed escape, rescanning only when it turns unsafe or a periodic replan is due. */
    method Hold(f: Frame) returns (ghost second: Option<Candidate>)
      requires Sampled(f.g) && latched && target.Some?
      modifies this
      ensures var current := InRoad(f, old(target).value);
              InDanger(f, current) || TightAndDue(old(Value()), f, current) ==> FoundOn(f, current, old(direction), second)
      ensures Value() == if MustReplan(old(Value()), f) then Replanned(old(Value()), f, second) else old(Value())
    {
      hide CappedHits, LeastClearance, Clamp, FoundOn;
      second := None;
      var current := InRoad(f, target.value);
      var ev := EvaluateCapped(f.g, current);
      var unsafe := ev.hitCount > 0 || Less(ev.minClearance, Fin(EMERGENCY_CLEARANCE));
      var due := lastPlanAt.None? || f.now - lastPlanAt.value >= REPLAN_EVERY_MS;
      if unsafe || (due && Less(ev.minClearance, Fin(TRIGGER_CLEARANCE))) {
        var best, rows, runs, b := CandidateGuardTarget(f.g, f.shield, Some(current), direction);
        second := best;
        ScanIsFound(f, current, direction, best, rows, runs, b);
        lastPlanAt := Some(f.now);
        if best.Some? {
          target := Some(best.value.target);
          if best.value.direction != 0 && (direction == 0 || best.value.direction == direction || unsafe) {
            direction := best.value.direction;
          }
        }
      }
    }
  }

  lemma ScanIsFound(f: Frame, reference: real, locked: int, best: Option<Candidate>, rows: seq<Row>, runs: seq<Run>, b: nat)
    requires Sampled(f.g) && IsScan(f.g, f.shield, Some(reference), locked, best, rows, runs, b)
    ensures FoundOn(f, reference, locked, best)
  {
    hide IsScan;
  }

  // ---------------------------------------------------------------------------
  // One frame
  // ---------------------------------------------------------------------------

  /** What a scan promises of the road it was made on, in terms of its samples. */
  lemma ScanMeaning(f: Frame, reference: real, locked: int, best: Option<Candidate>)
    requires Sampled(f.g) && FoundOn(f, reference, locked, best)
    ensures best.None? <==> forall i: nat | i < CANDIDATES :: CappedHits(f.g, SampleX(f.g, i)) >= (if f.shield then 2 else 1)
    ensures best.Some? ==>
              && CappedHits(f.g, best.value.target) < (if f.shield then 2 else 1)
              && ((exists i: nat :: i < CANDIDATES && CappedHits(f.g, SampleX(f.g, i)) == 0) ==> CappedHits(f.g, best.value.target) == 0)
              && (MinX(f.g) <= MaxX(f.g) ==> MinX(f.g) <= best.value.target <= MaxX(f.g))
  {
    hide CappedHits, LeastClearance, SampleX, IsMiddleOfBest, AreMaximalRuns;
    var rows: seq<Row>, runs, b :| IsScan(f.g, f.shield, Some(reference), locked, best, rows, runs, b);
    forall i: nat | i < CANDIDATES
      ensures rows[i].hits == CappedHits(f.g, SampleX(f.g, i))
    {
      assert IsRow(f.g, i, rows[i]);
    }
  }

  /** The worker's target is followed where it lies in the road, otherwise the nearer edge; without one the
      target applied before is kept, without that the car's position. */
  lemma WorkerTargetMeaning(f: Frame)
    requires MinX(f.g) <= MaxX(f.g)
    ensures MinX(f.g) <= WorkerTarget(f) <= MaxX(f.g)
    ensures var wanted := match (f.workerTarget, f.applied)
                          case (Some(x), _) => x
                          case (None, Some(x)) => x
                          case (None, None) => f.g.playerX;
            && (MinX(f.g) <= wanted <= MaxX(f.g) ==> WorkerTarget(f) == wanted)
            && (wanted < MinX(f.g) ==> WorkerTarget(f) == MinX(f.g))
            && (wanted > MaxX(f.g) ==> WorkerTarget(f) == MaxX(f.g))
  {}

  /** An unlatched guard lets a safe worker target through and changes nothing; it overrides any other,
      for 300 ms at least. */
  lemma LatchesIffUnsafe(s: State, f: Frame, first: Option<Candidate>, second: Option<Candidate>)
    requires Sampled(f.g) && Consistent(s) && !s.latched
    ensures WorkerIsSafe(f) ==> Decide(s, f, first, second) == (s, Output(WorkerTarget(f), false))
    ensures !WorkerIsSafe(f) ==>
              var (s', out) := Decide(s, f, first, second);
              out.guard && s'.latched && s'.latchUntil == f.now + 300.0 && s'.safeFrames == 0 && s'.lastPlanAt == Some(f.now)
  {
    hide CappedHits, LeastClearance, Clamp;
  }

  /** Where a guard that has just latched steers: to the corridor it found, or to the worker's own target if
      it found none, as long as that is not in danger itself. */
  lemma FreshEscape(s: State, f: Frame, first: Option<Candidate>, second: Option<Candidate>)
    requires Sampled(f.g) && Consistent(s) && !s.latched && !WorkerIsSafe(f) && MinX(f.g) <= MaxX(f.g)
    requires Scans(s, f, first, second)
    ensures var (s', out) := Decide(s, f, first, second);
            var escape := if first.Some? then first.value.target else WorkerTarget(f);
            && (out.target == escape || (second.Some? && InDanger(f, escape) && out.target == second.value.target))
            && (first.Some? && !InDanger(f, escape) ==>
                  out.target == escape
                  && s'.direction == if first.value.direction != 0 then first.value.direction else Sign(escape - f.g.playerX))
            && (first.None? && !InDanger(f, escape) ==> s'.direction == Sign(escape - f.g.playerX))
  {
    hide CappedHits, LeastClearance, FoundOn;
    if first.Some? {
      ScanMeaning(f, WorkerTarget(f), 0, first);
    }
    if MustReplan(Latched(s, f, first), f) && second.Some? {
      ScanMeaning(f, InRoad(f, Latched(s, f, first).target.value), Latched(s, f, first).direction, second);
    }
  }

  /** A committed escape in danger is given up on the spot: a guarded target is then the one of a scan made on
      this very frame if it found any, so it is hit-free whenever some sample is, and without a shield whenever
      there is a candidate. The scan finds none exactly if every sample hits two hazards, or one without a
      shield, and only then the escape stays. */
  lemma DangerIsLeftAtOnce(s: State, f: Frame, first: Option<Candidate>, second: Option<Candidate>)
    requires Sampled(f.g) && Consistent(s) && s.latched && MinX(f.g) <= MaxX(f.g)
    requires InDanger(f, InRoad(f, s.target.value)) && Scans(s, f, first, second)
    requires Decide(s, f, first, second).1.guard
    ensures var (s', out) := Decide(s, f, first, second);
            && s'.lastPlanAt == Some(f.now) && FoundOn(f, InRoad(f, s.target.value), s.direction, second)
            && (second.None? <==> forall i: nat | i < CANDIDATES :: CappedHits(f.g, SampleX(f.g, i)) >= (if f.shield then 2 else 1))
            && (second.None? ==> out.target == InRoad(f, s.target.value) && s'.direction == s.direction)
            && (second.Some? ==>
                  && out.target == second.value.target
                  && s'.direction == (if second.value.direction != 0 then second.value.direction else s.direction))
            && ((exists i: nat :: i < CANDIDATES && CappedHits(f.g, SampleX(f.g, i)) == 0) ==> CappedHits(f.g, out.target) == 0)
            && (second.Some? ==> CappedHits(f.g, out.target) < (if f.shield then 2 else 1))
  {
    hide CappedHits, LeastClearance, FoundOn, SampleX;
    ScanMeaning(f, InRoad(f, s.target.value), s.direction, second);
  }

  /** A committed escape that is neither in danger nor tight and due is kept, with its direction and plan. */
  lemma SafeEscapeIsKept(s: State, f: Frame, first: Option<Candidate>, second: Option<Candidate>)
    requires Sampled(f.g) && Consistent(s) && s.latched
    requires !InDanger(f, InRoad(f, s.target.value)) && !TightAndDue(s, f, InRoad(f, s.target.value))
    ensures var (s', out) := Decide(s, f, first, second);
            && s'.lastPlanAt == s.lastPlanAt
            && (out.guard ==> out.target == InRoad(f, s.target.value) && s'.target == s.target && s'.direction == s.direction)
  {
    hide CappedHits, LeastClearance, Clamp;
  }

  /** One that is tight and due, but in no danger, is replanned; it may move to the candidate, but never turns
      from one side to the other. */
  lemma TightEscapeIsReplanned(s: State, f: Frame, first: Option<Candidate>, second: Option<Candidate>)
    requires Sampled(f.g) && Consistent(s) && s.latched && MinX(f.g) <= MaxX(f.g)
    requires !InDanger(f, InRoad(f, s.target.value)) && TightAndDue(s, f, InRoad(f, s.target.value))
    requires Scans(s, f, first, second) && Decide(s, f, first, second).1.guard
    ensures var (s', out) := Decide(s, f, first, second);
            && s'.lastPlanAt == Some(f.now)
            && out.target == (if second.Some? then second.value.target else InRoad(f, s.target.value))
            && s'.direction == (if s.direction == 0 && second.Some? then second.value.direction else s.direction)
  {
    hide CappedHits, LeastClearance, FoundOn;
    ScanMeaning(f, InRoad(f, s.target.value), s.direction, second);
  }

  /** Whatever the candidates: consistency is kept; an unguarded target was scanned hit-free on this very
      frame with at least the trigger clearance; every target is inside a non-empty road; and before
      `latchUntil` a latched guard stays on. */
  lemma FrameSafety(s: State, f: Frame, first: Option<Candidate>, second: Option<Candidate>)
    requires Sampled(f.g) && Consistent(s)
    ensures var (s', out) := Decide(s, f, first, second);
            && Consistent(s')
            && (!out.guard ==> ClearBy(f, out.target, TRIGGER_CLEARANCE) && !s'.latched)
            && (out.guard ==> s'.latched)
            && (MinX(f.g) <= MaxX(f.g) ==> MinX(f.g) <= out.target <= MaxX(f.g))
            && (s.latched && f.now < s.latchUntil ==> out.guard && s'.latched && s'.latchUntil == s.latchUntil)
  {
    hide CappedHits, LeastClearance;
  }

  // ---------------------------------------------------------------------------
  // Whole runs
  // ---------------------------------------------------------------------------

  datatype Event = Tick(f: Frame, first: Option<Candidate>, second: Option<Candidate>) | Reset

  predicate Playable(events: seq<Event>) {
    forall i | 0 <= i < |events| && events[i].Tick? :: Sampled(events[i].f.g)
  }

  function Next(s: State, e: Event): State
    requires Consistent(s) && (e.Tick? ==> Sampled(e.f.g))
  {
    match e
    case Tick(f, first, second) => Decide(s, f, first, second).0
    case Reset => INITIAL
  }

  /** The state after the first `n` events of a run. */
  function After(events: seq<Event>, n: nat): (s: State)
    requires Playable(events) && n <= |events|
    ensures Consistent(s)
  {
    if n == 0 then INITIAL
    else
      assert events[n - 1].Tick? ==> Sampled(events[n - 1].f.g);
      var before := After(events, n - 1);
      assert Consistent(Next(before, events[n - 1])) by {
        NextIsConsistent(before, events[n - 1]);
      }
      Next(before, events[n - 1])
  }

  lemma NextIsConsistent(s: State, e: Event)
    requires Consistent(s) && (e.Tick? ==> Sampled(e.f.g))
    ensures Consistent(Next(s, e))
  {
    hide Decide;
    if e.Tick? {
      FrameSafety(s, e.f, e.first, e.second);
    }
  }

  /** The latch has been held long enough, and the worker's target collides with nothing and passes nothing
      closer than 44 px. */
  ghost predicate SafeFrame(s: State, f: Frame)
    requires Sampled(f.g)
  {
    f.now >= s.latchUntil && CappedHits(f.g, WorkerTarget(f)) == 0 && AtMost(Fin(44.0), LeastClearance(f.g, WorkerTarget(f)))
  }

  /** Event i was a frame at which a latched guard saw the worker's target safe for release. */
  ghost predicate SafeTick(events: seq<Event>, i: nat)
    requires Playable(events) && i < |events|
  {
    events[i].Tick? && After(events, i).latched && SafeFrame(After(events, i), events[i].f)
  }

  /** How one frame changes the safe-frame count and the latch: a latched guard counts a safe frame and starts
      again at any other; it lets go exactly at the fifth safe one, to the worker's target. */
  lemma TickEffect(s: State, f: Frame, first: Option<Candidate>, second: Option<Candidate>)
    requires Sampled(f.g) && Consistent(s)
    ensures var (s', out) := Decide(s, f, first, second);
            && (s.latched && !s'.latched <==> s.latched && SafeFrame(s, f) && s.safeFrames == 4)
            && (s.latched && s'.latched ==>
                  s'.latchUntil == s.latchUntil && s'.safeFrames == if SafeFrame(s, f) then s.safeFrames + 1 else 0)
            && (s.latched && !s'.latched ==> out == Output(WorkerTarget(f), false))
            && (!s.latched && s'.latched ==> s'.latchUntil == f.now + LATCH_MS && s'.safeFrames == 0)
  {
    hide CappedHits, LeastClearance, Clamp;
  }

  /** The safe-frame counter counts consecutive safe frames that have just passed. */
  lemma {:induction false} SafeFramesAreConsecutive(events: seq<Event>, n: nat)
    requires Playable(events) && n <= |events|
    ensures After(events, n).safeFrames <= n
    ensures forall i: nat | n - After(events, n).safeFrames <= i < n :: SafeTick(events, i)
  {
    hide Decide, SafeFrame;
    if n > 0 {
      SafeFramesAreConsecutive(events, n - 1);
      var s, e := After(events, n - 1), events[n - 1];
      if e.Tick? {
        assert Sampled(e.f.g);
        TickEffect(s, e.f, e.first, e.second);
      }
    }
  }

  /** A latched state was latched at some frame whose clock set the deadline, and held ever since. */
  lemma {:induction false} LatchHasOrigin(events: seq<Event>, n: nat) returns (m: nat)
    requires Playable(events) && n <= |events| && After(events, n).latched
    ensures m < n && events[m].Tick? && !After(events, m).latched
    ensures After(events, n).latchUntil == events[m].f.now + LATCH_MS
    ensures forall i: nat | m < i <= n :: After(events, i).latched
  {
    hide Decide;
    var s, e := After(events, n - 1), events[n - 1];
    if e.Tick? {
      assert Sampled(e.f.g);
      TickEffect(s, e.f, e.first, e.second);
    }
    if s.latched {
      m := LatchHasOrigin(events, n - 1);
    } else {
      m := n - 1;
    }
  }

  /** Release over any run: when a frame lets go of the latch, the last five frames in a row were
      latched and safe for release, and at least 300 ms have passed since the latch was taken. */
  lemma ReleaseIsEarned(events: seq<Event>, n: nat) returns (m: nat)
    requires Playable(events) && n < |events| && events[n].Tick?
    requires After(events, n).latched && !After(events, n + 1).latched
    ensures RELEASE_SAFE_FRAMES <= n + 1
    ensures forall i: nat | n + 1 - RELEASE_SAFE_FRAMES <= i <= n :: SafeTick(events, i)
    ensures m < n && events[m].Tick? && !After(events, m).latched
    ensures forall i: nat | m < i <= n :: After(events, i).latched
    ensures events[n].f.now >= events[m].f.now + LATCH_MS
  {
    hide Decide;
    SafeFramesAreConsecutive(events, n);
    assert Sampled(events[n].f.g);
    TickEffect(After(events, n), events[n].f, events[n].first, events[n].second);
    m := LatchHasOrigin(events, n);
  }
}
