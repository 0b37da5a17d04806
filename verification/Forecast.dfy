/** V12's motion forecasts: the latency lead applied to a snapshot, and the hazard paths that the
    worker and the main-thread guard sample with different time steps. */
module Forecast {
  import opened Numbers
  import opened Geometry
  import opened Steering
  import opened Reflection

  const HYPE_FACTOR := 0.74
  const MAX_LEAD := 0.095

  datatype Hazard = Hazard(x: real, y: real, vx: real, vy: real, size: real)

  /** Wall-clock length of a frame and the share of it the game's physics advances. */
  datatype FrameModel = FrameModel(wallSec: real, physicsSec: real, physicsRate: real)

  function FrameModelFor(frameMs: real): FrameModel {
    var wallSec := Clamp(frameMs / 1000.0, 0.008, 0.080);
    var physicsSec := Min(0.035, wallSec);
    FrameModel(wallSec, physicsSec, physicsSec / wallSec)
  }

  function PhysicsLead(lead: real, rate: real): real {
    lead * rate
  }

  /** Physics never runs ahead of the wall clock, and keeps up with it exactly for frames of at most
      35 ms. */
  lemma PhysicsKeepsUp(frameMs: real, lead: real)
    requires lead > 0.0
    ensures var rate := FrameModelFor(frameMs).physicsRate;
            && 0.0 < PhysicsLead(lead, rate) <= lead
            && (PhysicsLead(lead, rate) == lead <==> frameMs <= 35.0)
  {
    var fm := FrameModelFor(frameMs);
    assert 0.0 < fm.physicsSec <= fm.wallSec && (fm.physicsSec == fm.wallSec <==> frameMs <= 35.0);
    assert fm.physicsRate * fm.wallSec == fm.physicsSec;
    RateAtMostOne(fm.physicsSec, fm.wallSec, fm.physicsRate, lead);
  }

  lemma RateAtMostOne(a: real, b: real, rate: real, lead: real)
    requires 0.0 < a <= b && rate * b == a && lead > 0.0
    ensures 0.0 < lead * rate <= lead && (lead * rate == lead <==> a == b)
  {
    OrderScales(rate, 1.0, b);
    OrderScales(0.0, rate, b);
    MulPositive(lead, rate);
    OrderScales(rate, 1.0, lead);
    assert rate * lead == lead * rate;
  }

  // ---------------------------------------------------------------------------
  // Vertical motion under HYPE
  // ---------------------------------------------------------------------------

  /** Part of [t0, t1] that HYPE, lasting until `hype`, still slows down. */
  function HypeSec(t0: real, t1: real, hype: real): real {
    Max(0.0, Min(t1, hype) - t0)
  }

  /** Time a hazard effectively travels in a slice of `dt` seconds with `slow` of them under HYPE. */
  function SliceTravel(dt: real, slow: real): real {
    slow * HYPE_FACTOR + (dt - slow)
  }

  /** Closed form: `t` seconds of travel lose 26% while HYPE lasts. */
  function Travelled(t: real, hype: real): real {
    t - (1.0 - HYPE_FACTOR) * Min(t, Max(0.0, hype))
  }

  /** The time at which slice `k` begins. */
  function Clock(k: nat, dt: real): real {
    k as real * dt
  }

  lemma ClockAdvances(k: nat, dt: real)
    requires dt >= 0.0
    ensures Clock(0, dt) == 0.0 && Clock(k + 1, dt) == Clock(k, dt) + dt && Clock(k, dt) >= 0.0
  {
    MulNonNegative(k as real, dt);
    assert (k + 1) as real == k as real + 1.0;
  }

  /** Effective travel summed slice by slice, as the path builders do. */
  function TravelledInSlices(dt: real, hype: real, k: nat): real {
    if k == 0 then 0.0
    else TravelledInSlices(dt, hype, k - 1) + SliceTravel(dt, HypeSec(Clock(k - 1, dt), Clock(k, dt), hype))
  }

  /** The sum of the slices telescopes, whatever the slice length. */
  lemma {:induction false} SlicesTelescope(dt: real, hype: real, k: nat)
    requires dt >= 0.0
    ensures TravelledInSlices(dt, hype, k) == Travelled(Clock(k, dt), hype)
  {
    hide Travelled, HypeSec, SliceTravel, Clock;
    ClockAdvances(k, dt);
    if k == 0 {
      NoTravel(hype);
    } else {
      ClockAdvances(k - 1, dt);
      SlicesTelescope(dt, hype, k - 1);
      OneSlice(Clock(k - 1, dt), Clock(k, dt), hype);
    }
  }

  lemma NoTravel(hype: real)
    ensures Travelled(0.0, hype) == 0.0
  {}

  lemma OneSlice(t0: real, t1: real, hype: real)
    requires 0.0 <= t0 <= t1
    ensures Travelled(t0, hype) + SliceTravel(t1 - t0, HypeSec(t0, t1, hype)) == Travelled(t1, hype)
  {}

  /** Travelling on after the HYPE clock was advanced continues the same motion. */
  lemma TravelComposes(lead: real, t: real, hype: real)
    requires lead >= 0.0 && t >= 0.0
    ensures Travelled(lead, hype) + Travelled(t, Max(0.0, hype - lead)) == Travelled(lead + t, hype)
  {}

  // ---------------------------------------------------------------------------
  // Sampled paths
  // ---------------------------------------------------------------------------

  predicate OnRoad(x: real, size: real, width: real) {
    size <= x <= width - size
  }

  /** Horizontal position and per-step displacement after `k` steps: the displacement changes sign
      whenever a step ends off the road. */
  function Drift(x: real, d: real, size: real, width: real, k: nat): (real, real) {
    if k == 0 then (x, d)
    else
      var before := Drift(x, d, size, width, k - 1);
      var x' := before.0 + before.1;
      (x', if OnRoad(x', size, width) then before.1 else -before.1)
  }

  /** A hazard that starts on the road never leaves it for two samples in a row, and after leaving it
      is back where it was before, heading the other way. */
  lemma {:induction false} DriftReturns(x: real, d: real, size: real, width: real, k: nat)
    requires OnRoad(x, size, width)
    ensures OnRoad(Drift(x, d, size, width, k).0, size, width)
            || (k > 0 && OnRoad(Drift(x, d, size, width, k - 1).0, size, width)
                && Drift(x, d, size, width, k + 1) == (Drift(x, d, size, width, k - 1).0, -Drift(x, d, size, width, k - 1).1))
  {
    if k > 0 {
      DriftReturns(x, d, size, width, k - 1);
      var now, next := Drift(x, d, size, width, k), Drift(x, d, size, width, k + 1);
      assert next.0 == now.0 + now.1;
      if k > 1 && !OnRoad(Drift(x, d, size, width, k - 1).0, size, width) {
        assert now.0 == Drift(x, d, size, width, k - 2).0;
      }
    }
  }

  /** How far a velocity carries sideways. */
  function Shift(vx: real, t: real): real {
    vx * t
  }

  lemma ShiftBackwards(vx: real, t: real)
    ensures Shift(-vx, t) == -Shift(vx, t)
  {}

  /** A hazard's height after some effective travel. */
  function HeightAfter(z: Hazard, rate: real, travel: real): real {
    z.y + z.vy * rate * travel
  }

  lemma HeightAdds(z: Hazard, rate: real, a: real, b: real)
    ensures HeightAfter(z, rate, a) + z.vy * rate * b == HeightAfter(z, rate, a + b)
    ensures HeightAfter(z, rate, 0.0) == z.y
  {
    assert z.vy * rate * (a + b) == z.vy * rate * a + z.vy * rate * b;
  }

  /** Sample `k` of a hazard's path, counting from 1: drifted sideways by `d` a step, and travelled on
      vertically for k slices of `dt`. */
  function Sample(z: Hazard, d: real, rate: real, dt: real, hype: real, width: real, k: nat): Disc {
    Disc(Drift(z.x, d, z.size, width, k).0, HeightAfter(z, rate, Travelled(Clock(k, dt), hype)), z.size)
  }

  /** The path of one hazard, sampled every `dt` seconds; each step moves it `vx * physicsDt` sideways. */
  method BuildPath(z: Hazard, steps: nat, dt: real, physicsDt: real, rate: real, hype: real, width: real)
    returns (path: seq<Disc>)
    requires dt >= 0.0
    ensures |path| == steps
    ensures forall k | 0 <= k < steps :: path[k] == Sample(z, Shift(z.vx, physicsDt), rate, dt, hype, width, k + 1)
  {
    hide Travelled, HypeSec, SliceTravel, Clock, HeightAfter, Shift;
    path := [];
    var x, y, vx := z.x, z.y, z.vx;
    ghost var d0 := Shift(vx, physicsDt);
    ghost var d := d0;
    HeightAdds(z, rate, 0.0, 0.0);
    for k := 0 to steps
      invariant |path| == k
      invariant d == Shift(vx, physicsDt)
      invariant Drift(z.x, d0, z.size, width, k).0 == x && Drift(z.x, d0, z.size, width, k).1 == d
      invariant y == HeightAfter(z, rate, TravelledInSlices(dt, hype, k))
      invariant forall i | 0 <= i < k :: path[i] == Sample(z, d0, rate, dt, hype, width, i + 1)
    {
      var slice := SliceTravel(dt, HypeSec(Clock(k, dt), Clock(k + 1, dt), hype));
      x := x + Shift(vx, physicsDt);
      y := y + z.vy * rate * slice;
      HeightAdds(z, rate, TravelledInSlices(dt, hype, k), slice);
      SlicesTelescope(dt, hype, k + 1);
      if x < z.size || x > width - z.size {
        ShiftBackwards(vx, physicsDt);
        vx, d := -vx, -d;
      }
      path := path + [Disc(x, y, z.size)];
    }
  }

  /** Worker and guard sample with their own time steps; wherever their clocks meet, so do their
      predicted heights. */
  lemma SamplersAgree(z: Hazard, rate: real, hype: real, dt1: real, k1: nat, dt2: real, k2: nat)
    requires dt1 >= 0.0 && dt2 >= 0.0 && Clock(k1, dt1) == Clock(k2, dt2)
    ensures HeightAfter(z, rate, TravelledInSlices(dt1, hype, k1)) == HeightAfter(z, rate, TravelledInSlices(dt2, hype, k2))
  {
    SlicesTelescope(dt1, hype, k1);
    SlicesTelescope(dt2, hype, k2);
  }

  // ---------------------------------------------------------------------------
  // Latency lead
  // ---------------------------------------------------------------------------

  datatype Pickup = Pickup(x: real, y: real, vy: real)

  datatype Snapshot = Snapshot(playerX: real, appliedTargetX: Option<real>, width: real, leadMs: real,
                               hypeRemainingMs: real, hazards: seq<Hazard>, powers: seq<Pickup>,
                               previousChosenX: Option<real>)

  function LeadSec(s: Snapshot): real {
    Clamp(s.leadMs / 1000.0, 0.0, MAX_LEAD)
  }

  /** A hazard after the lead: reflected sideways, travelled on vertically. */
  function Advanced(z: Hazard, lead: real, rate: real, hype: real, width: real): Hazard {
    var moved := Reflected(z.x + Shift(z.vx, PhysicsLead(lead, rate)), z.size, width - z.size);
    Hazard(moved.0, HeightAfter(z, rate, Travelled(lead, hype)), Flipped(z.vx, moved.1), z.vy, z.size)
  }

  lemma LeadTravel(lead: real, hype: real)
    ensures SliceTravel(lead, Min(lead, Max(0.0, hype))) == Travelled(lead, hype)
  {}

  method AdvanceHazards(s: Snapshot, lead: real, rate: real) returns (hazards: seq<Hazard>)
    ensures |hazards| == |s.hazards|
    ensures forall i | 0 <= i < |hazards| :: hazards[i] == Advanced(s.hazards[i], lead, rate, s.hypeRemainingMs / 1000.0, s.width)
  {
    hide Reflected, Flipped, Travelled, HeightAfter, Shift, SliceTravel, PhysicsLead;
    var hypeWallSec := Min(lead, Max(0.0, s.hypeRemainingMs / 1000.0));
    var travel := SliceTravel(lead, hypeWallSec);
    LeadTravel(lead, s.hypeRemainingMs / 1000.0);
    hazards := [];
    for i := 0 to |s.hazards|
      invariant |hazards| == i
      invariant forall k | 0 <= k < i :: hazards[k] == Advanced(s.hazards[k], lead, rate, s.hypeRemainingMs / 1000.0, s.width)
    {
      var z := s.hazards[i];
      var nx, vx := BounceBetweenWalls(z.x + Shift(z.vx, PhysicsLead(lead, rate)), z.vx, z.size, s.width - z.size);
      var y := z.y + z.vy * rate * travel;
      HeightAdds(z, rate, 0.0, travel);
      assert Hazard(nx, y, vx, z.vy, z.size) == Advanced(z, lead, rate, s.hypeRemainingMs / 1000.0, s.width);
      hazards := hazards + [Hazard(nx, y, vx, z.vy, z.size)];
    }
  }

  /** The snapshot moved forward by the expected worker latency; `carAlpha` is the share of the way
      to the applied pointer that the car covers meanwhile. Pickups fall at physics speed, without HYPE;
      what the game measured stays as it was. */
  method AdvanceSnapshotForLatency(s: Snapshot, fm: FrameModel, carAlpha: real) returns (out: Snapshot)
    ensures LeadSec(s) <= 0.0 ==> out == s
    ensures LeadSec(s) > 0.0 ==>
              && out.playerX == Blend(carAlpha, s.playerX, if s.appliedTargetX.Some? then s.appliedTargetX.value else s.playerX)
              && out.previousChosenX == Some(out.playerX)
              && out.appliedTargetX == s.appliedTargetX && out.width == s.width && out.leadMs == s.leadMs
              && out.hypeRemainingMs == Max(0.0, s.hypeRemainingMs - LeadSec(s) * 1000.0)
              && |out.hazards| == |s.hazards| && |out.powers| == |s.powers|
              && (forall i | 0 <= i < |s.hazards| ::
                    out.hazards[i] == Advanced(s.hazards[i], LeadSec(s), fm.physicsRate, s.hypeRemainingMs / 1000.0, s.width))
              && forall i | 0 <= i < |s.powers| ::
                   out.powers[i] == s.powers[i].(y := s.powers[i].y + Shift(s.powers[i].vy, PhysicsLead(LeadSec(s), fm.physicsRate)))
  {
    hide Blend, Advanced, Shift, PhysicsLead;
    var lead := LeadSec(s);
    if lead <= 0.0 {
      return s;
    }
    var applied := if s.appliedTargetX.Some? then s.appliedTargetX.value else s.playerX;
    var playerX := Blend(carAlpha, s.playerX, applied);
    var hazards := AdvanceHazards(s, lead, fm.physicsRate);
    var powers := [];
    for i := 0 to |s.powers|
      invariant |powers| == i
      invariant forall k | 0 <= k < i ::
                  powers[k] == s.powers[k].(y := s.powers[k].y + Shift(s.powers[k].vy, PhysicsLead(lead, fm.physicsRate)))
    {
      var p := s.powers[i];
      powers := powers + [p.(y := p.y + Shift(p.vy, PhysicsLead(lead, fm.physicsRate)))];
    }
    out := Snapshot(playerX, s.appliedTargetX, s.width, s.leadMs,
                    Max(0.0, s.hypeRemainingMs - lead * 1000.0), hazards, powers, Some(playerX));
  }

  /** Planning from the advanced snapshot predicts the heights that planning from the original one
      would predict at the lead plus the elapsed time. */
  lemma LeadThenPlanEqualsPlanLater(z: Hazard, lead: real, rate: real, hype: real, width: real, dt: real, k: nat)
    requires lead >= 0.0 && dt >= 0.0
    ensures HeightAfter(Advanced(z, lead, rate, hype, width), rate, TravelledInSlices(dt, Max(0.0, hype - lead), k))
            == HeightAfter(z, rate, Travelled(lead + Clock(k, dt), hype))
  {
    hide Reflected, Travelled, TravelledInSlices, Clock;
    SlicesTelescope(dt, Max(0.0, hype - lead), k);
    ClockAdvances(k, dt);
    TravelComposes(lead, Clock(k, dt), hype);
    HeightAdds(z, rate, Travelled(lead, hype), Travelled(Clock(k, dt), Max(0.0, hype - lead)));
  }

  /** The clocks agree too: the advanced snapshot's HYPE clock is the original one less the lead. */
  lemma HypeClockAdvances(hypeMs: real, lead: real)
    ensures Max(0.0, hypeMs - lead * 1000.0) / 1000.0 == Max(0.0, hypeMs / 1000.0 - lead)
  {}
}
