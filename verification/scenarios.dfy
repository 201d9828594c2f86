/** The seven scenarios of the relative-velocity lab: the body layout each
    one starts from, the position update of one animation step, and the
    statistics shown beside the canvas. Positions and speeds are reals;
    drawing is not modelled. */
module Scenarios {

  datatype Scenario = OneD | River | Aeroplane | Rain | FlagFlutter | AngularVelocity | MinDistance

  /** The `type` of a body; it picks how a body is drawn and, for clouds, how it moves. */
  datatype Kind = Auto | Boat | Ball | Plane | Man | RainSource | Cloud | FlagMan

  /** A body on the canvas. Clouds have no vertical speed in the source (it is
      `undefined` and never read); here it is 0. */
  datatype Body = Body(x: real, y: real, vx: real, vy: real, kind: Kind)

  /** The slider values the scenarios read. */
  datatype Props = Props(v1: real, v2: real, angle1: real, angle2: real)

  /** `(cos a, sin a)` of an angle `a` given in degrees: the trigonometry of
      `init`, left uninterpreted. */
  type Polar = real -> (real, real)

  /** The rain scenario's animation speed-up. */
  const TimeScale: real := 5.0

  /** The wrap-around bounds of the man and of the clouds in the rain scenario. */
  const ManLimit: real := 400.0
  const CloudLimit: real := 800.0

  /** Straight-line motion for `dt`. */
  function Drift(b: Body, dt: real): Body {
    b.(x := b.x + b.vx * dt, y := b.y + b.vy * dt)
  }

  /** `forEach(obj => { obj.x += obj.vx * dt; obj.y += obj.vy * dt })`. */
  function DriftAll(bs: seq<Body>, dt: real): (r: seq<Body>)
    ensures |r| == |bs|
    ensures forall i :: 0 <= i < |bs| ==> r[i].vx == bs[i].vx && r[i].vy == bs[i].vy && r[i].kind == bs[i].kind
    ensures forall i :: 0 <= i < |bs| ==> r[i].x - bs[i].x == bs[i].vx * dt && r[i].y - bs[i].y == bs[i].vy * dt
  {
    seq(|bs|, i requires 0 <= i < |bs| => Drift(bs[i], dt))
  }

  /** River-boat: the boat (body 0) is carried by the current `v2`; the
      reference body (body 1) moves with the current, horizontally only. */
  function RiverStep(bs: seq<Body>, dt: real, v2: real): (r: seq<Body>)
    ensures |r| == |bs|
    ensures forall i :: 0 <= i < |bs| ==> r[i].vx == bs[i].vx && r[i].vy == bs[i].vy && r[i].kind == bs[i].kind
    ensures forall i :: 2 <= i < |bs| ==> r[i] == bs[i]
    ensures |bs| >= 1 ==> r[0].x == bs[0].x + (bs[0].vx + v2) * dt && r[0].y == bs[0].y + bs[0].vy * dt
    ensures |bs| >= 2 ==> r[1].x == bs[1].x + v2 * dt && r[1].y == bs[1].y
  {
    var boat := if |bs| >= 1 then bs[0 := bs[0].(x := bs[0].x + (bs[0].vx + v2) * dt, y := bs[0].y + bs[0].vy * dt)] else bs;
    if |bs| >= 2 then boat[1 := boat[1].(x := boat[1].x + v2 * dt)] else boat
  }

  /** Aeroplane-wind: only when both bodies exist, the plane (body 0) moves
      with its own velocity plus the wind's (body 1); the wind body stays put. */
  function AeroplaneStep(bs: seq<Body>, dt: real): (r: seq<Body>)
    ensures |r| == |bs|
    ensures |bs| >= 1 ==> r[1..] == bs[1..]
    ensures |bs| < 2 ==> r == bs
    ensures |bs| >= 2 ==>
              && r[0] == bs[0].(x := bs[0].x + (bs[0].vx + bs[1].vx) * dt, y := bs[0].y + (bs[0].vy + bs[1].vy) * dt)
  {
    if |bs| >= 2 then
      var plane := bs[0];
      var wind := bs[1];
      bs[0 := plane.(x := plane.x + (plane.vx + wind.vx) * dt, y := plane.y + (plane.vy + wind.vy) * dt)]
    else bs
  }

  /** Flag fluttering: only the man (body 0) walks, horizontally. */
  function FlagStep(bs: seq<Body>, dt: real): (r: seq<Body>)
    ensures |r| == |bs|
    ensures |bs| >= 1 ==> r[0] == bs[0].(x := bs[0].x + bs[0].vx * dt) && r[1..] == bs[1..]
    ensures |bs| == 0 ==> r == []
  {
    if |bs| >= 1 then bs[0 := bs[0].(x := bs[0].x + bs[0].vx * dt)] else bs
  }

  /** The man's wrap: two `if`s in a row, `> limit` jumps to `-limit`, then `< -limit` jumps to `limit`. */
  function WrapSequential(x: real, limit: real): (r: real)
    ensures limit >= 0.0 ==> -limit <= r <= limit
    ensures -limit <= x <= limit ==> r == x
  {
    var a := if x > limit then -limit else x;
    if a < -limit then limit else a
  }

  /** The clouds' wrap: `if (x > limit) x = -limit; else if (x < -limit) x = limit`. */
  function WrapExclusive(x: real, limit: real): (r: real)
    ensures limit >= 0.0 ==> -limit <= r <= limit
    ensures -limit <= x <= limit ==> r == x
  {
    if x > limit then -limit else if x < -limit then limit else x
  }

  /** The two wraps agree: after the first jump to `-limit` the second test cannot fire. */
  lemma WrapsAgree(x: real, limit: real)
    ensures WrapSequential(x, limit) == WrapExclusive(x, limit)
  {
  }

  /** The five clouds of the rain scenario around `(cx, cy)`, moving with the air speed. */
  function Clouds(cx: real, cy: real, v2: real): (r: seq<Body>)
    ensures |r| == 5
    ensures forall k :: 0 <= k < 5 ==> r[k].kind == Cloud && r[k].vx == v2 && r[k].vy == 0.0
  {
    [ Body(cx - 300.0, cy - 250.0, v2, 0.0, Cloud),
      Body(cx + 200.0, cy - 280.0, v2, 0.0, Cloud),
      Body(cx - 100.0, cy - 350.0, v2, 0.0, Cloud),
      Body(cx + 400.0, cy - 220.0, v2, 0.0, Cloud),
      Body(cx - 400.0, cy - 300.0, v2, 0.0, Cloud) ]
  }

  /** The clouds injected into a rain state of 1 to 4 bodies, placed around
      the man's position before the step. */
  function Inject(bs: seq<Body>, v2: real): (r: seq<Body>)
    ensures |r| == |bs| + (if 1 <= |bs| < 5 then 5 else 0)
    ensures r[..|bs|] == bs
    ensures forall k :: |bs| <= k < |r| ==> r[k].kind == Cloud && r[k].vx == v2 && r[k].vy == 0.0
    ensures |r| > |bs| ==> r[|bs|..] == Clouds(bs[0].x, bs[0].y - 100.0, v2)
  {
    if |bs| < 5 && |bs| >= 1 then bs + Clouds(bs[0].x, bs[0].y - 100.0, v2) else bs
  }

  function ManStep(man: Body, dt: real): Body {
    man.(x := WrapSequential(man.x + man.vx * dt * TimeScale, ManLimit))
  }

  function CloudStep(cloud: Body, dt: real, v2: real): Body {
    cloud.(vx := v2, x := WrapExclusive(cloud.x + v2 * dt * TimeScale * 0.5, CloudLimit))
  }

  /** The cloud pass: every body of kind cloud takes the air speed, drifts and wraps. */
  function CloudPass(bs: seq<Body>, dt: real, v2: real): (r: seq<Body>)
    ensures |r| == |bs|
    ensures forall i :: 0 <= i < |bs| && bs[i].kind != Cloud ==> r[i] == bs[i]
    ensures forall i :: 0 <= i < |bs| && bs[i].kind == Cloud ==>
              && r[i].kind == Cloud && r[i].vx == v2 && -CloudLimit <= r[i].x <= CloudLimit
              && r[i].y == bs[i].y && r[i].vy == bs[i].vy
    ensures forall i :: 0 <= i < |bs| && bs[i].kind == Cloud && -CloudLimit <= bs[i].x + v2 * dt * TimeScale * 0.5 <= CloudLimit ==>
              r[i].x == bs[i].x + v2 * dt * TimeScale * 0.5
  {
    seq(|bs|, i requires 0 <= i < |bs| => if bs[i].kind == Cloud then CloudStep(bs[i], dt, v2) else bs[i])
  }

  /** Rain-man: inject clouds when fewer than five bodies, move and wrap the man
      (body 0), move the rain source (body 1) with the wind, then run the cloud
      pass. The man and the rain source are the bodies present before the
      injection. */
  function RainStep(bs: seq<Body>, dt: real, v2: real): (r: seq<Body>)
    ensures |r| == |bs| + (if 1 <= |bs| < 5 then 5 else 0)
  {
    var n := |bs|;
    var all := Inject(bs, v2);
    var manMoved := if n >= 1 then all[0 := ManStep(all[0], dt)] else all;
    var rainMoved := if n >= 2 then manMoved[1 := manMoved[1].(x := manMoved[1].x + manMoved[1].vx * dt * TimeScale)] else manMoved;
    CloudPass(rainMoved, dt, v2)
  }

  /** No body of the rain scenario moves vertically or changes kind. */
  lemma RainKeepsHeights(bs: seq<Body>, dt: real, v2: real)
    ensures forall i :: 0 <= i < |RainStep(bs, dt, v2)| ==>
              RainStep(bs, dt, v2)[i].y == Inject(bs, v2)[i].y && RainStep(bs, dt, v2)[i].kind == Inject(bs, v2)[i].kind
  {
  }

  /** Every cloud ends the step with the air speed and inside the cloud bounds. */
  lemma RainCloudsWrapped(bs: seq<Body>, dt: real, v2: real)
    ensures forall i :: 0 <= i < |RainStep(bs, dt, v2)| && RainStep(bs, dt, v2)[i].kind == Cloud ==>
              RainStep(bs, dt, v2)[i].vx == v2 && -CloudLimit <= RainStep(bs, dt, v2)[i].x <= CloudLimit
  {
  }

  /** The man advances `vx * dt * 5` and ends inside the man bounds. */
  lemma RainManWrapped(bs: seq<Body>, dt: real, v2: real)
    requires |bs| >= 1 && bs[0].kind != Cloud
    ensures RainStep(bs, dt, v2)[0] == ManStep(bs[0], dt)
    ensures -ManLimit <= RainStep(bs, dt, v2)[0].x <= ManLimit
  {
    var m := ManStep(bs[0], dt);
    assert m.x == WrapSequential(bs[0].x + bs[0].vx * dt * TimeScale, ManLimit);
  }

  /** The rain source drifts horizontally with its own speed, 5 times as fast. */
  lemma RainSourceDrifts(bs: seq<Body>, dt: real, v2: real)
    requires |bs| >= 2 && bs[1].kind != Cloud
    ensures RainStep(bs, dt, v2)[1] == bs[1].(x := bs[1].x + bs[1].vx * dt * TimeScale)
  {
    var all := Inject(bs, v2);
    assert all[1] == bs[1];
    var manMoved := all[0 := ManStep(all[0], dt)];
    assert manMoved[1] == bs[1];
  }

  /** Bodies after the first two are touched only when they are clouds. */
  lemma RainOthersKept(bs: seq<Body>, dt: real, v2: real)
    ensures forall i :: 2 <= i < |bs| && bs[i].kind != Cloud ==> RainStep(bs, dt, v2)[i] == bs[i]
  {
  }

  /** The injected clouds, laid out around the man's old position, take part in the same cloud pass. */
  lemma RainInjects(bs: seq<Body>, dt: real, v2: real)
    requires 1 <= |bs| < 5
    ensures RainStep(bs, dt, v2)[|bs|..] == CloudPass(Clouds(bs[0].x, bs[0].y - 100.0, v2), dt, v2)
  {
    var r := RainStep(bs, dt, v2);
    var cs := Clouds(bs[0].x, bs[0].y - 100.0, v2);
    forall k | 0 <= k < 5 ensures r[|bs| + k] == CloudPass(cs, dt, v2)[k] {
      assert Inject(bs, v2)[|bs| + k] == cs[k];
    }
  }

  /** One animation step of a scenario. */
  function Update(sc: Scenario, bs: seq<Body>, dt: real, p: Props): (r: seq<Body>)
    ensures sc != Rain ==> |r| == |bs|
  {
    match sc
    case OneD => DriftAll(bs, dt)
    case River => RiverStep(bs, dt, p.v2)
    case Aeroplane => AeroplaneStep(bs, dt)
    case Rain => RainStep(bs, dt, p.v2)
    case FlagFlutter => FlagStep(bs, dt)
    case AngularVelocity => DriftAll(bs, dt)
    case MinDistance => DriftAll(bs, dt)
  }

  /** A zero step leaves every scenario but rain as it was. */
  lemma ZeroStep(sc: Scenario, bs: seq<Body>, p: Props)
    requires sc != Rain
    ensures Update(sc, bs, 0.0, p) == bs
  {
    match sc
    case River =>
      if |bs| >= 1 { assert RiverStep(bs, 0.0, p.v2)[0] == bs[0]; }
      if |bs| >= 2 { assert RiverStep(bs, 0.0, p.v2)[1] == bs[1]; }
    case _ =>
  }

  /** Outside rain, a step of `s` then a step of `t` is one step of `s + t`:
      no scenario but rain changes a velocity. */
  lemma Additive(sc: Scenario, bs: seq<Body>, s: real, t: real, p: Props)
    requires sc != Rain
    ensures Update(sc, Update(sc, bs, s, p), t, p) == Update(sc, bs, s + t, p)
  {
    match sc
    case OneD => DriftAllAdditive(bs, s, t);
    case AngularVelocity => DriftAllAdditive(bs, s, t);
    case MinDistance => DriftAllAdditive(bs, s, t);
    case River => RiverAdditive(bs, s, t, p.v2);
    case Aeroplane => AeroplaneAdditive(bs, s, t);
    case FlagFlutter => FlagAdditive(bs, s, t);
  }

  lemma DriftAdditive(b: Body, s: real, t: real)
    ensures Drift(Drift(b, s), t) == Drift(b, s + t)
  {
    assert b.vx * s + b.vx * t == b.vx * (s + t);
    assert b.vy * s + b.vy * t == b.vy * (s + t);
  }

  lemma DriftAllAdditive(bs: seq<Body>, s: real, t: real)
    ensures DriftAll(DriftAll(bs, s), t) == DriftAll(bs, s + t)
  {
    forall i | 0 <= i < |bs| ensures DriftAll(DriftAll(bs, s), t)[i] == DriftAll(bs, s + t)[i] {
      DriftAdditive(bs[i], s, t);
    }
  }

  lemma RiverAdditive(bs: seq<Body>, s: real, t: real, v2: real)
    ensures RiverStep(RiverStep(bs, s, v2), t, v2) == RiverStep(bs, s + t, v2)
  {
    var a := RiverStep(RiverStep(bs, s, v2), t, v2);
    var b := RiverStep(bs, s + t, v2);
    if |bs| >= 1 {
      var vx := bs[0].vx + v2;
      assert vx * s + vx * t == vx * (s + t);
      assert bs[0].vy * s + bs[0].vy * t == bs[0].vy * (s + t);
      assert a[0] == b[0];
    }
    if |bs| >= 2 {
      assert v2 * s + v2 * t == v2 * (s + t);
      assert a[1] == b[1];
    }
  }

  lemma AeroplaneAdditive(bs: seq<Body>, s: real, t: real)
    ensures AeroplaneStep(AeroplaneStep(bs, s), t) == AeroplaneStep(bs, s + t)
  {
    if |bs| >= 2 {
      var a := AeroplaneStep(AeroplaneStep(bs, s), t);
      var b := AeroplaneStep(bs, s + t);
      var vx := bs[0].vx + bs[1].vx;
      var vy := bs[0].vy + bs[1].vy;
      assert vx * s + vx * t == vx * (s + t);
      assert vy * s + vy * t == vy * (s + t);
      assert a[0] == b[0];
      assert a[1..] == b[1..];
    }
  }

  lemma FlagAdditive(bs: seq<Body>, s: real, t: real)
    ensures FlagStep(FlagStep(bs, s), t) == FlagStep(bs, s + t)
  {
    if |bs| >= 1 {
      assert bs[0].vx * s + bs[0].vx * t == bs[0].vx * (s + t);
      assert FlagStep(FlagStep(bs, s), t)[0] == FlagStep(bs, s + t)[0];
    }
  }

  /** The starting layout of a scenario around the canvas centre `(cx, cy)`. */
  function Init(sc: Scenario, cx: real, cy: real, p: Props, polar: Polar): (r: seq<Body>)
    ensures sc == Rain ==> |r| == 7
    ensures sc != Rain ==> |r| == 2
  {
    var (c1, s1) := polar(p.angle1);
    var (c2, s2) := polar(p.angle2);
    match sc
    case OneD => [Body(cx - 150.0, cy - 60.0, p.v1, 0.0, Auto), Body(cx - 50.0, cy + 60.0, p.v2, 0.0, Auto)]
    case River => [Body(cx, cy + 150.0, p.v1 * c1, -p.v1 * s1, Boat), Body(cx, cy + 150.0, p.v2, 0.0, Ball)]
    case Aeroplane => [Body(cx - 100.0, cy - 50.0, p.v1 * c1, -p.v1 * s1, Plane), Body(cx - 100.0, cy + 50.0, p.v2 * c2, -p.v2 * s2, Ball)]
    case Rain => [Body(cx, cy + 100.0, p.v1, 0.0, Man), Body(cx, cy - 200.0, p.v2, 10.0, RainSource)] + Clouds(cx, cy, p.v2)
    case FlagFlutter => [Body(cx, cy + 100.0, p.v1, 0.0, FlagMan), Body(cx, cy - 200.0, p.v2 * c2, p.v2 * s2, Ball)]
    case AngularVelocity => [Body(cx - 100.0, cy - 100.0, p.v1 * c1, -p.v1 * s1, Auto), Body(cx + 100.0, cy + 100.0, p.v2 * c2, -p.v2 * s2, Auto)]
    case MinDistance => [Body(cx - 200.0, cy - 100.0, p.v1, 0.0, Auto), Body(cx + 100.0, cy + 200.0, 0.0, -p.v2, Auto)]
  }

  /** The injected clouds sit where `init` puts them when the man has not
      moved: the man starts 100 below the centre. A fresh rain layout is
      never injected into. */
  lemma InjectionMatchesInit(cx: real, cy: real, p: Props, polar: Polar)
    ensures Init(Rain, cx, cy, p, polar)[2..] == Clouds(Init(Rain, cx, cy, p, polar)[0].x, Init(Rain, cx, cy, p, polar)[0].y - 100.0, p.v2)
    ensures Inject(Init(Rain, cx, cy, p, polar), p.v2) == Init(Rain, cx, cy, p, polar)
  {
    var bs := Init(Rain, cx, cy, p, polar);
    assert bs[0].y - 100.0 == cy;
  }

  /** The smallest distance reached so far, `Infinity` before any. */
  datatype Best = Infinity | Finite(d: real)

  /** What a statistic shows: the boat's x speed in m/s; the current distance
      between bodies 0 and 1, from its components, divided by 10, in m; the
      best distance; or `---`. The number formatting is not modelled. */
  datatype Reading = Speed(v: real) | Distance(dx: real, dy: real) | BestDistance(d: real) | Dashes

  datatype Stat = Stat(title: string, reading: Reading)

  /** `getStats` of a scenario. */
  function Stats(sc: Scenario, bs: seq<Body>, best: Best): (r: seq<Stat>)
    ensures sc in {OneD, Aeroplane, Rain, FlagFlutter, AngularVelocity} ==> r == []
    ensures sc == River ==> (|r| == 1 <==> |bs| >= 1) && (|r| == 0 <==> |bs| == 0)
    ensures sc == River && |bs| >= 1 ==> r[0].title == "Rel Velocity X" && r[0].reading == Speed(bs[0].vx)
    ensures sc == MinDistance ==> (|bs| < 2 <==> r == []) && (|bs| >= 2 <==> |r| == 2)
    ensures sc == MinDistance && |bs| >= 2 ==>
              && r[0].title == "Current Distance" && r[1].title == "Min Distance achieved"
              && r[0].reading == Distance(bs[0].x - bs[1].x, bs[0].y - bs[1].y)
              && (r[1].reading == Dashes <==> best == Infinity)
              && (best.Finite? ==> r[1].reading == BestDistance(best.d))
  {
    match sc
    case River => if |bs| >= 1 then [Stat("Rel Velocity X", Speed(bs[0].vx))] else []
    case MinDistance =>
      if |bs| < 2 then []
      else
        [ Stat("Current Distance", Distance(bs[0].x - bs[1].x, bs[0].y - bs[1].y)),
          Stat("Min Distance achieved", if best.Infinity? then Dashes else BestDistance(best.d)) ]
    case _ => []
  }

  /** The readouts depend on the first two bodies only. */
  lemma StatsReadFirstTwo(sc: Scenario, bs: seq<Body>, best: Best)
    requires |bs| >= 2
    ensures Stats(sc, bs, best) == Stats(sc, bs[..2], best)
  {
  }

  /** Running any scenario but min-distance leaves its readout as it was:
      the only reading outside min-distance is the boat's own speed, and no
      step changes a velocity. */
  lemma StatsSteady(sc: Scenario, bs: seq<Body>, dt: real, p: Props, best: Best)
    requires sc != MinDistance
    ensures Stats(sc, Update(sc, bs, dt, p), best) == Stats(sc, bs, best)
  {
    if sc == River && |bs| >= 1 {
      assert Update(sc, bs, dt, p)[0].vx == bs[0].vx;
    }
  }

  /** In min-distance a step moves the current-distance reading by the
      relative velocity of the two bodies times the step, and leaves the
      best-distance reading alone. */
  lemma StatsDistanceMoves(bs: seq<Body>, dt: real, p: Props, best: Best)
    requires |bs| >= 2
    ensures var before := Stats(MinDistance, bs, best);
            var after := Stats(MinDistance, Update(MinDistance, bs, dt, p), best);
            && after[0].reading == Distance(before[0].reading.dx + (bs[0].vx - bs[1].vx) * dt,
                                            before[0].reading.dy + (bs[0].vy - bs[1].vy) * dt)
            && after[1] == before[1]
  {
    var r := Update(MinDistance, bs, dt, p);
    assert r[0].x - r[1].x == (bs[0].x - bs[1].x) + (bs[0].vx - bs[1].vx) * dt;
    assert r[0].y - r[1].y == (bs[0].y - bs[1].y) + (bs[0].vy - bs[1].vy) * dt;
  }
}
