/** The agent simulator of utils/simulation.ts: synthetic users spawned near a
    centre and moved one tick at a time along a wandering heading. Random
    draws, the clock and the trigonometric functions are parameters. */
module Simulation {
  import opened Types

  /** One draw of `Math.random()`. */
  type Unit = r: real | 0.0 <= r < 1.0

  const Names: seq<string> :=
    ["Agent Alpha", "User 402", "Explorer X", "Delivery 09", "Patrol 1", "User 773", "Guest 55"]
  const Colors: seq<string> :=
    ["#ef4444", "#f59e0b", "#8b5cf6", "#ec4899", "#06b6d4", "#84cc16"]

  /** Width, in degrees, of the square a user is spawned in. */
  const SpawnSpread: real := 0.01
  /** Metres in one degree, the simulator's flat-earth approximation. */
  const MetresPerDegree: real := 111000.0
  /** A simulated user keeps only this many trailing path entries. */
  const PathCap: nat := 50
  const SimAccuracy: real := 10.0
  /** `Math.PI`, written as the shortest decimal that rounds to that double. */
  const Pi: real := 3.141592653589793

  /** The random draws one spawn consumes, in call order, and the clock
      reading taken between the two offsets and the speed draw. */
  datatype SpawnDraw = SpawnDraw(now: int, lat: Unit, lng: Unit, speed: Unit, heading: Unit, name: Unit, color: Unit)

  /** The random draws and the clock one move consumes. */
  datatype MoveDraw = MoveDraw(heading: Unit, speed: Unit, now: int)

  /** `Math.cos` and `Math.sin` on radians. */
  datatype Trig = Trig(cos: real -> real, sin: real -> real)

  /** `Math.floor(r * len)`: the index a draw picks out of a pool of `len`. */
  function PickIndex(r: Unit, len: nat): (i: nat)
    requires len > 0
    ensures i < len
    ensures i as real <= r * len as real < i as real + 1.0
  {
    var n := len as real;
    var x := r * n;
    assert 0.0 <= x < n by {
      MulNonNegative(r, n);
      MulPositive(1.0 - r, n);
      assert n - x == (1.0 - r) * n;
    }
    var f := x.Floor;
    assert f as real <= x < f as real + 1.0;
    f
  }

  lemma MulPositive(a: real, b: real)
    requires a > 0.0 && b > 0.0
    ensures a * b > 0.0
  {
  }

  lemma MulNonNegative(a: real, b: real)
    requires a >= 0.0 && b >= 0.0
    ensures a * b >= 0.0
  {
  }

  /** `(draw - 0.5) * spread`: a draw centred on zero. */
  function Centred(r: Unit, spread: real): real {
    (r - 0.5) * spread
  }

  /** Builds a synthetic user placed uniformly near `center`. */
  function Spawn(center: Coordinates, id: string, d: SpawnDraw): (u: User)
    ensures u.id == id && !u.isCurrentUser && u.status == Online
    ensures u.path == [u.position]
    ensures -0.005 <= u.position.lat - center.lat < 0.005
    ensures -0.005 <= u.position.lng - center.lng < 0.005
    ensures u.position.speed.Some? && 1.0 <= u.position.speed.value < 6.0
    ensures u.position.heading.Some? && 0.0 <= u.position.heading.value < 360.0
    ensures u.position.accuracy == SimAccuracy && u.position.timestamp == d.now
    ensures u.name in Names && u.color in Colors
    ensures u.name == Names[PickIndex(d.name, |Names|)] && u.color == Colors[PickIndex(d.color, |Colors|)]
    ensures u.position.lat - center.lat == (d.lat - 0.5) * SpawnSpread
    ensures u.position.lng - center.lng == (d.lng - 0.5) * SpawnSpread
    ensures u.position.speed == Some(d.speed * 5.0 + 1.0) && u.position.heading == Some(d.heading * 360.0)
  {
    var start := Coordinates(
      center.lat + Centred(d.lat, SpawnSpread),
      center.lng + Centred(d.lng, SpawnSpread),
      d.now,
      Some(d.speed * 5.0 + 1.0),
      Some(d.heading * 360.0),
      SimAccuracy);
    User(id, Names[PickIndex(d.name, |Names|)], false, start, [start],
         Colors[PickIndex(d.color, |Colors|)], Online)
  }

  /** JavaScript's truncation toward zero. */
  function Trunc(q: real): int {
    if q >= 0.0 then q.Floor else -((-q).Floor)
  }

  /** `x % 360` on JavaScript numbers: the remainder has the sign of `x`. */
  function WrapDegrees(x: real): (r: real)
    ensures x >= 0.0 ==> 0.0 <= r < 360.0
    ensures x < 0.0 ==> -360.0 < r <= 0.0
    ensures 0.0 <= x < 360.0 ==> r == x
    ensures 360.0 <= x < 720.0 ==> r == x - 360.0
    ensures -360.0 < x < 0.0 ==> r == x
    ensures (x - r) / 360.0 == ((x - r) / 360.0).Floor as real
  {
    x - 360.0 * Trunc(x / 360.0) as real
  }

  /** The heading after a tick: the old heading (unknown counts as 0) turned by
      a draw in [-10, 10) degrees and wrapped. */
  function NextHeading(prior: Option<real>, r: Unit): (h: real)
    ensures var turned := OrZero(prior) + Centred(r, 20.0);
      (prior.None? || 0.0 <= prior.value < 360.0) ==>
        0.0 <= h < 360.0 && (h == turned || h == turned + 360.0 || h == turned - 360.0)
    ensures OrZero(prior) >= -350.0 ==> 0.0 <= h < 360.0
  {
    WrapDegrees(OrZero(prior) + Centred(r, 20.0) + 360.0)
  }

  /** The speed after a tick: the old speed (unknown counts as 0) changed by a
      draw in [-0.5, 0.5), floored at 0. */
  function NextSpeed(prior: Option<real>, r: Unit): (s: real)
    ensures s >= 0.0
    ensures s >= OrZero(prior) - 0.5
    ensures s == 0.0 || OrZero(prior) - 0.5 <= s < OrZero(prior) + 0.5
    ensures s >= OrZero(prior) + (r - 0.5)
    ensures s == 0.0 || s == OrZero(prior) + (r - 0.5)
  {
    var v := OrZero(prior) + (r - 0.5);
    if 0.0 >= v then 0.0 else v
  }

  /** `degrees * Math.PI / 180`: 180 degrees are π radians. */
  function Radians(degrees: real): (rads: real)
    ensures rads * 180.0 == degrees * Pi
    ensures 0.0 <= degrees < 360.0 ==> 0.0 <= rads < 2.0 * Pi
  {
    degrees * Pi / 180.0
  }

  /** One turn of degrees is one turn of radians, so a heading and its
      wrapped form point the same way for periodic `cos`/`sin`. */
  lemma RadiansOneTurn(degrees: real)
    ensures Radians(degrees + 360.0) == Radians(degrees) + 2.0 * Pi
    ensures Radians(degrees - 360.0) == Radians(degrees) - 2.0 * Pi
  {
  }

  /** `s.slice(-n)` for a positive `n`: the last `n` entries of `s`, or all
      of it when shorter. (`slice(-0)` would keep everything.) */
  function KeepLast<T>(s: seq<T>, n: nat): (r: seq<T>)
    requires n > 0
    ensures |r| == Min(|s|, n)
    ensures r == s[|s| - |r|..]
  {
    if |s| <= n then s else s[|s| - n..]
  }

  /** One simulation tick: move `(speed or 0) / 111000` degrees along the new
      heading, perturb the speed, append to the path and keep its last 50. */
  function Move(u: User, d: MoveDraw, trig: Trig): (v: User)
    ensures v == u.(position := v.position, path := v.path)
    ensures v.position.accuracy == SimAccuracy && v.position.timestamp == d.now
    ensures |v.path| == Min(|u.path| + 1, PathCap)
    ensures v.path == (u.path + [v.position])[|u.path| + 1 - |v.path|..]
    ensures Last(v.path) == v.position
    ensures v.position.speed == Some(NextSpeed(u.position.speed, d.speed))
    ensures v.position.speed.value >= 0.0
    ensures v.position.heading == Some(NextHeading(u.position.heading, d.heading))
    ensures (u.position.heading.None? || 0.0 <= u.position.heading.value < 360.0) ==>
              0.0 <= v.position.heading.value < 360.0
  {
    var step := OrZero(u.position.speed) / MetresPerDegree;
    var heading := NextHeading(u.position.heading, d.heading);
    var rads := Radians(heading);
    var pos := Coordinates(
      u.position.lat + step * trig.cos(rads),
      u.position.lng + step * trig.sin(rads),
      d.now,
      Some(NextSpeed(u.position.speed, d.speed)),
      Some(heading),
      SimAccuracy);
    u.(position := pos, path := KeepLast(u.path + [pos], PathCap))
  }

  /** When cos² + sin² = 1, a tick displaces the user by exactly
      `(speed or 0) / 111000` degrees, in the direction of the new heading. */
  lemma MoveDisplacement(u: User, d: MoveDraw, trig: Trig)
    requires forall t :: trig.cos(t) * trig.cos(t) + trig.sin(t) * trig.sin(t) == 1.0
    ensures var v := Move(u, d, trig);
      var dLat := v.position.lat - u.position.lat;
      var dLng := v.position.lng - u.position.lng;
      var step := OrZero(u.position.speed) / MetresPerDegree;
      && dLat * dLat + dLng * dLng == step * step
      && dLat == step * trig.cos(Radians(v.position.heading.value))
      && dLng == step * trig.sin(Radians(v.position.heading.value))
  {
    var v := Move(u, d, trig);
    var step := OrZero(u.position.speed) / MetresPerDegree;
    var c := trig.cos(Radians(v.position.heading.value));
    var s := trig.sin(Radians(v.position.heading.value));
    assert v.position.lat - u.position.lat == step * c;
    assert v.position.lng - u.position.lng == step * s;
    assert (step * c) * (step * c) + (step * s) * (step * s) == step * step * (c * c + s * s);
  }

  /** A well-formed simulated user: a non-empty path of at most 50 entries
      ending at the position, a known non-negative speed, a known heading in
      [0, 360), accuracy 10, online and not the local user. */
  ghost predicate WellFormedAgent(u: User) {
    && 0 < |u.path| <= PathCap
    && Last(u.path) == u.position
    && !u.isCurrentUser
    && u.status == Online
    && u.position.speed.Some? && u.position.speed.value >= 0.0
    && u.position.heading.Some? && 0.0 <= u.position.heading.value < 360.0
    && u.position.accuracy == SimAccuracy
  }

  /** Successive moves of one user, one per draw. */
  function MoveMany(u: User, draws: seq<MoveDraw>, trig: Trig): (v: User)
    ensures v.id == u.id && v.name == u.name && v.color == u.color
    decreases |draws|
  {
    if |draws| == 0 then u else MoveMany(Move(u, draws[0], trig), draws[1..], trig)
  }

  /** After n moves a path that started no longer than the cap holds
      min(start + n, 50) entries, and the agent stays well formed. */
  lemma {:induction false} MoveManyKeepsShape(u: User, draws: seq<MoveDraw>, trig: Trig)
    requires |u.path| <= PathCap
    ensures |MoveMany(u, draws, trig).path| == Min(|u.path| + |draws|, PathCap)
    ensures WellFormedAgent(u) ==> WellFormedAgent(MoveMany(u, draws, trig))
    decreases |draws|
  {
    if |draws| > 0 {
      MoveManyKeepsShape(Move(u, draws[0], trig), draws[1..], trig);
    }
  }

  /** A freshly spawned agent is well formed with a one-entry path. */
  lemma SpawnIsWellFormed(center: Coordinates, id: string, s: SpawnDraw)
    ensures WellFormedAgent(Spawn(center, id, s)) && |Spawn(center, id, s).path| == 1
  {
  }
}
