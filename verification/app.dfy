/** The tracking session of App.tsx: the local user and its trail, the
    running distance and duration, the four-state lifecycle, and the
    simulated users spawned around the local user. Every browser callback
    and timer firing is one atomic transition; the clock, the distance
    function, the random draws and the trigonometry are parameters. */
module App {
  import opened Types
  import opened Trail
  import opened Simulation

  datatype Session = Session(
    status: TrackingStatus,
    distance: real,          // metres travelled since the last start
    startTime: Option<int>,  // epoch ms of the last start
    duration: int,           // ms, as of the last duration tick
    errorMsg: Option<string>,
    me: Option<User>,        // None until the first location fix
    bots: seq<User>)

  const Initial: Session := Session(TrackingStatus.Idle, 0.0, None, 0, None, None, [])

  const LocateFailedMessage: string := "Не удалось определить местоположение. Разрешите доступ к геопозиции."
  const NoGeolocationMessage: string := "Ваш браузер не поддерживает GPS."
  const GpsErrorPrefix: string := "Ошибка GPS: "
  /** Number of simulated users spawned around the local user. */
  const BotCount: nat := 5

  /** The local user built from the first fix: its path is that one fix. */
  function InitialUser(coords: Coordinates): (u: User)
    ensures u.isCurrentUser && u.status == Online
    ensures u.position == coords && u.path == [coords]
    ensures u.id == "me" && u.name == "Вы (User)" && u.color == "#3b82f6"
  {
    User("me", "Вы (User)", true, coords, [coords], "#3b82f6", Online)
  }

  /** The initial location request succeeded: the local user appears. */
  function OnLocated(s: Session, coords: Coordinates): (r: Session)
    ensures r.me.Some? && r.me.value.path == [coords] && Last(r.me.value.path) == r.me.value.position
    ensures r.me == Some(InitialUser(coords))
    ensures r == s.(me := r.me)
  {
    s.(me := Some(InitialUser(coords)))
  }

  /** The initial location request failed: only a message is shown. */
  function OnLocateFailed(s: Session): (r: Session)
    ensures r.errorMsg == Some(LocateFailedMessage) && r == s.(errorMsg := r.errorMsg)
  {
    s.(errorMsg := Some(LocateFailedMessage))
  }

  /** The browser has no geolocation at all: only a message is shown. */
  function OnNoGeolocation(s: Session): (r: Session)
    ensures r.errorMsg == Some(NoGeolocationMessage) && r == s.(errorMsg := r.errorMsg)
  {
    s.(errorMsg := Some(NoGeolocationMessage))
  }

  /** Starting, from any state: a fresh trail at the current position and
      zeroed counters. There is no resume; the error message is kept. */
  function Start(s: Session, now: int): (r: Session)
    ensures r.status == Tracking && r.startTime == Some(now)
    ensures r.distance == 0.0 && r.duration == 0
    ensures r.errorMsg == s.errorMsg && r.bots == s.bots
    ensures r.me.Some? <==> s.me.Some?
    ensures s.me.Some? ==> r.me.value == s.me.value.(path := [s.me.value.position])
  {
    var me := match s.me
      case None => None
      case Some(u) => Some(u.(path := [u.position]));
    Session(Tracking, 0.0, Some(now), 0, s.errorMsg, me, s.bots)
  }

  /** Stopping: the status becomes Paused and everything else, the start
      time included, is left as it was. */
  function Stop(s: Session): (r: Session)
    ensures r.status == Paused
    ensures r.distance == s.distance && r.duration == s.duration && r.me == s.me
    ensures r.(status := s.status) == s
  {
    s.(status := Paused)
  }

  /** The single start/stop button: stop while tracking, start otherwise
      (from Idle, Paused and Error alike). */
  function Toggle(s: Session, now: int): (r: Session)
    ensures s.status == Tracking ==> r.status == Paused && r.(status := Tracking) == s
    ensures s.status != Tracking ==>
              r.status == Tracking && r.distance == 0.0 && r.duration == 0 && r.startTime == Some(now)
    ensures s.status != Tracking ==> r == Start(s, now)
    ensures s.status != Tracking && s.me.Some? ==> r.me.Some? && r.me.value.path == [s.me.value.position]
  {
    if s.status == Tracking then Stop(s) else Start(s, now)
  }

  /** The position watch reported a failure: Error with the provider's
      message; the user keeps its last position and path. */
  function OnWatchError(s: Session, message: string): (r: Session)
    ensures r.status == Error && r.errorMsg == Some(GpsErrorPrefix + message)
    ensures r.distance == s.distance && r.duration == s.duration && r.me == s.me
    ensures r == s.(status := r.status, errorMsg := r.errorMsg)
  {
    s.(status := Error, errorMsg := Some(GpsErrorPrefix + message))
  }

  /** The error toast was closed. */
  function DismissError(s: Session): (r: Session)
    ensures r.errorMsg.None? && r == s.(errorMsg := r.errorMsg)
  {
    s.(errorMsg := None)
  }

  /** `startTime` as a JavaScript condition: set and non-zero. A start time
      of 0 is falsy, so it counts as not started. */
  function Started(s: Session): (started: bool)
    ensures started ==> s.startTime.Some?
    ensures s.startTime == Some(0) ==> !started
    ensures s.startTime.Some? && s.startTime.value != 0 ==> started
  {
    s.startTime.Some? && s.startTime.value != 0
  }

  /** The one-second duration timer: elapsed wall-clock time since the start,
      only while tracking with a start time; otherwise nothing changes. */
  function DurationTick(s: Session, now: int): (r: Session)
    ensures s.status == Tracking && Started(s) ==> r.duration == now - s.startTime.value
    ensures !(s.status == Tracking && Started(s)) ==> r == s
    ensures r == s.(duration := r.duration)
  {
    if s.status == Tracking && Started(s) then s.(duration := now - s.startTime.value) else s
  }

  /** Every path of the local user is non-empty. */
  predicate NonEmptyTrail(s: Session) {
    s.me.Some? ==> |s.me.value.path| > 0
  }

  /** A fix from the position watch goes through the trail accumulator, and
      the distance it accepts is added to the running total. */
  function OnFix(s: Session, fix: Coordinates, dist: DistanceFn): (r: Session)
    requires NonEmptyTrail(s)
    ensures NonEmptyTrail(r)
    ensures r.me.Some? <==> s.me.Some?
    ensures s.me.None? ==> r == s
    ensures s.me.Some? ==> r.me.value.position == fix && |r.me.value.path| >= |s.me.value.path|
    ensures s.me.Some? ==> r.me.value == s.me.value.(position := fix, path := r.me.value.path)
    ensures s.me.Some? && Between(dist, Last(s.me.value.path), fix) > Threshold ==>
              r.distance == s.distance + Between(dist, Last(s.me.value.path), fix)
              && r.me.value.path == s.me.value.path + [fix]
    ensures s.me.Some? && Between(dist, Last(s.me.value.path), fix) <= Threshold ==>
              r.distance == s.distance && r.me.value.path == s.me.value.path
    ensures r == s.(me := r.me, distance := r.distance)
  {
    var ingested := IngestFix(s.me, fix, dist);
    s.(me := ingested.user, distance := s.distance + ingested.added)
  }

  function Digit(n: nat): (c: char)
    requires n < 10
    ensures '0' <= c <= '9'
  {
    (48 + n) as char
  }

  /** A natural number in decimal, as a template literal renders it: digits
      only, no leading zero, and reading the digits back gives `n`. */
  function Decimal(n: nat): (s: string)
    ensures |s| > 0
    ensures forall k :: 0 <= k < |s| ==> '0' <= s[k] <= '9'
    ensures |s| > 1 ==> s[0] != '0'
    ensures n < 10 ==> s == [Digit(n)]
    decreases n
  {
    if n < 10 then [Digit(n)] else Decimal(n / 10) + [Digit(n % 10)]
  }

  /** The number a string of decimal digits denotes. */
  function DigitsValue(s: string): nat
    requires forall k :: 0 <= k < |s| ==> '0' <= s[k] <= '9'
    decreases |s|
  {
    if |s| == 0 then 0 else 10 * DigitsValue(s[..|s| - 1]) + (s[|s| - 1] as int - 48)
  }

  /** Reading a rendered number back gives the number: the rendering is
      faithful and injective. */
  lemma {:induction false} DecimalRoundTrip(n: nat)
    ensures DigitsValue(Decimal(n)) == n
    decreases n
  {
    if n >= 10 {
      var s := Decimal(n);
      assert s[..|s| - 1] == Decimal(n / 10);
      DecimalRoundTrip(n / 10);
    }
  }

  /** `bot-${i}`: the prefix followed by the decimal digits of `i`. */
  function BotId(i: nat): (id: string)
    ensures |id| > 4 && id[..4] == "bot-"
    ensures forall k :: 4 <= k < |id| ==> '0' <= id[k] <= '9'
    ensures i < 10 ==> id == "bot-" + [Digit(i)]
  {
    "bot-" + Decimal(i)
  }

  /** The five simulated users spawned around `center`, with ids bot-0 to
      bot-4; `draws(i)` is what the i-th spawn draws. */
  function SpawnBots(center: Coordinates, draws: nat -> SpawnDraw): (bots: seq<User>)
    ensures |bots| == BotCount
    ensures forall i :: 0 <= i < |bots| ==> bots[i] == Spawn(center, BotId(i), draws(i))
    ensures forall i :: 0 <= i < |bots| ==>
              && bots[i].id == BotId(i)
              && bots[i].path == [bots[i].position]
              && WellFormedAgent(bots[i])
              && -0.005 <= bots[i].position.lat - center.lat < 0.005
              && -0.005 <= bots[i].position.lng - center.lng < 0.005
  {
    seq(BotCount, i requires 0 <= i < BotCount => Spawn(center, BotId(i), draws(i)))
  }

  /** The spawn effect: once there is a local user and no simulated user yet,
      spawn the five around the local user's position; otherwise nothing. */
  function MaybeSpawnBots(s: Session, draws: nat -> SpawnDraw): (r: Session)
    ensures s.me.Some? && |s.bots| == 0 ==> r.bots == SpawnBots(s.me.value.position, draws)
    ensures !(s.me.Some? && |s.bots| == 0) ==> r == s
    ensures r == s.(bots := r.bots)
  {
    if s.me.Some? && |s.bots| == 0 then s.(bots := SpawnBots(s.me.value.position, draws)) else s
  }

  /** The one-second simulation timer: every simulated user moves once, in
      order, the i-th with `draws(i)`. */
  function SimTick(s: Session, draws: nat -> MoveDraw, trig: Trig): (r: Session)
    ensures |r.bots| == |s.bots|
    ensures forall i :: 0 <= i < |s.bots| ==> r.bots[i] == Move(s.bots[i], draws(i), trig)
    ensures r == s.(bots := r.bots)
  {
    s.(bots := seq(|s.bots|, i requires 0 <= i < |s.bots| => Move(s.bots[i], draws(i), trig)))
  }

  /** The events the session reacts to. */
  datatype Event =
    | LocationFound(coords: Coordinates)
    | LocationFailed
    | GeolocationMissing
    | TogglePressed(now: int)
    | FixReceived(fix: Coordinates)
    | WatchFailed(message: string)
    | DurationTimer(now: int)
    | ErrorClosed
    | PositionEffect(spawnDraws: nat -> SpawnDraw)
    | SimulationTimer(moveDraws: nat -> MoveDraw)

  function Step(s: Session, e: Event, dist: DistanceFn, trig: Trig): (r: Session)
    requires NonEmptyTrail(s)
    ensures NonEmptyTrail(r)
  {
    match e
    case LocationFound(coords) => OnLocated(s, coords)
    case LocationFailed => OnLocateFailed(s)
    case GeolocationMissing => OnNoGeolocation(s)
    case TogglePressed(now) => Toggle(s, now)
    case FixReceived(fix) => OnFix(s, fix, dist)
    case WatchFailed(message) => OnWatchError(s, message)
    case DurationTimer(now) => DurationTick(s, now)
    case ErrorClosed => DismissError(s)
    case PositionEffect(draws) => MaybeSpawnBots(s, draws)
    case SimulationTimer(draws) => SimTick(s, draws, trig)
  }

  function Run(s: Session, es: seq<Event>, dist: DistanceFn, trig: Trig): (r: Session)
    requires NonEmptyTrail(s)
    ensures NonEmptyTrail(r)
    decreases |es|
  {
    if |es| == 0 then s else Run(Step(s, es[0], dist, trig), es[1..], dist, trig)
  }

  /** The initial location request answers at most once. */
  function LocatedCount(es: seq<Event>): nat
    decreases |es|
  {
    if |es| == 0 then 0 else (if es[0].LocationFound? then 1 else 0) + LocatedCount(es[1..])
  }

  /** The running distance is the length of the recorded trail, and the trail
      has no leg within the noise threshold. */
  ghost predicate TrailInvariant(s: Session, dist: DistanceFn) {
    match s.me
    case None => s.distance == 0.0
    case Some(u) => |u.path| > 0 && Sparse(u.path, dist) && s.distance == PathLength(u.path, dist)
  }

  ghost predicate AgentsInvariant(s: Session) {
    forall i :: 0 <= i < |s.bots| ==> WellFormedAgent(s.bots[i])
  }

  ghost predicate Invariant(s: Session, dist: DistanceFn) {
    TrailInvariant(s, dist) && AgentsInvariant(s)
  }

  lemma StepKeepsInvariant(s: Session, e: Event, dist: DistanceFn, trig: Trig)
    requires Invariant(s, dist)
    requires e.LocationFound? ==> s.me.None?
    ensures Invariant(Step(s, e, dist, trig), dist)
    ensures s.me.Some? ==> Step(s, e, dist, trig).me.Some?
    ensures !e.LocationFound? && s.me.None? ==> Step(s, e, dist, trig).me.None?
  {
    var r := Step(s, e, dist, trig);
    match e
    case FixReceived(fix) =>
      if s.me.Some? {
        IngestKeepsTrail(s.me.value, fix, dist);
      }
    case SimulationTimer(draws) =>
      forall i | 0 <= i < |r.bots|
        ensures WellFormedAgent(r.bots[i])
      {
        assert WellFormedAgent(s.bots[i]);
      }
    case _ =>
  }

  /** Every session reachable from `s` keeps the invariant, provided the
      initial location request answers at most once and not after a local
      user exists. */
  lemma {:induction false} RunKeepsInvariant(s: Session, es: seq<Event>, dist: DistanceFn, trig: Trig)
    requires Invariant(s, dist)
    requires LocatedCount(es) <= 1 && (s.me.Some? ==> LocatedCount(es) == 0)
    ensures Invariant(Run(s, es, dist, trig), dist)
    decreases |es|
  {
    if |es| > 0 {
      StepKeepsInvariant(s, es[0], dist, trig);
      RunKeepsInvariant(Step(s, es[0], dist, trig), es[1..], dist, trig);
    }
  }

  /** From the initial session, with a non-negative distance function, the
      running distance is the recorded trail's length and never negative. */
  lemma Reachable(es: seq<Event>, dist: DistanceFn, trig: Trig)
    requires LocatedCount(es) <= 1
    requires NonNegative(dist)
    ensures Invariant(Run(Initial, es, dist, trig), dist)
    ensures Run(Initial, es, dist, trig).distance >= 0.0
  {
    RunKeepsInvariant(Initial, es, dist, trig);
    var r := Run(Initial, es, dist, trig);
    if r.me.Some? {
      PathLengthNonNegative(r.me.value.path, dist);
    }
  }

  /** Pressing the button while not tracking (re)starts the session. */
  predicate Restarts(s: Session, e: Event) {
    e.TogglePressed? && s.status != Tracking
  }

  /** Between starts the running distance never decreases; a start resets it
      and the duration to zero. */
  lemma DistanceBetweenStarts(s: Session, e: Event, dist: DistanceFn, trig: Trig)
    requires NonEmptyTrail(s) && NonNegative(dist)
    ensures Restarts(s, e) ==> Step(s, e, dist, trig).distance == 0.0 && Step(s, e, dist, trig).duration == 0
    ensures !Restarts(s, e) ==> Step(s, e, dist, trig).distance >= s.distance
  {
  }

  /** There is no resume: pausing and pressing the button again discards the
      trail and the counters of the paused session. */
  lemma PauseThenToggleRestarts(s: Session, t1: int, t2: int)
    requires s.status == Tracking
    ensures var p := Toggle(s, t1);
      && p.status == Paused && p.distance == s.distance && p.duration == s.duration && p.me == s.me
      && var q := Toggle(p, t2);
      && q.status == Tracking && q.distance == 0.0 && q.duration == 0
      && (s.me.Some? ==> q.me.value.path == [s.me.value.position])
  {
  }

  /** A tick after a start at a non-zero time measures the time since that
      start; after a stop the duration stays frozen. */
  lemma DurationFollowsClock(s: Session, t0: int, t: int)
    ensures t0 != 0 ==> DurationTick(Start(s, t0), t).duration == t - t0
    ensures DurationTick(Stop(s), t).duration == s.duration
  {
  }

  /** The spawn effect fires at most once: after it has spawned, later runs
      change nothing. */
  lemma SpawnOnlyOnce(s: Session, d1: nat -> SpawnDraw, d2: nat -> SpawnDraw)
    requires s.me.Some?
    ensures |MaybeSpawnBots(s, d1).bots| > 0
    ensures MaybeSpawnBots(MaybeSpawnBots(s, d1), d2) == MaybeSpawnBots(s, d1)
  {
  }

  /** Distinct indices give distinct ids, so bot-0 … bot-4 never collide. */
  lemma BotIdsDistinct(i: nat, j: nat)
    requires i != j
    ensures BotId(i) != BotId(j)
  {
    if BotId(i) == BotId(j) {
      assert Decimal(i) == BotId(i)[4..] == BotId(j)[4..] == Decimal(j);
      DecimalRoundTrip(i);
      DecimalRoundTrip(j);
      assert false;
    }
  }

  /** Spawn the five users and run the simulation timer `ticks` times; every
      user stays well formed with a path of min(ticks + 1, 50) entries. */
  method RunSimulation(center: Coordinates, spawnDraws: nat -> SpawnDraw, ticks: nat,
                       moveDraws: (nat, nat) -> MoveDraw, trig: Trig)
    returns (bots: seq<User>)
    ensures |bots| == BotCount
    ensures forall i :: 0 <= i < |bots| ==>
              && bots[i].id == BotId(i)
              && WellFormedAgent(bots[i])
              && |bots[i].path| == Min(ticks + 1, PathCap)
  {
    bots := SpawnBots(center, spawnDraws);
    var t := 0;
    while t < ticks
      invariant 0 <= t <= ticks
      invariant |bots| == BotCount
      invariant forall i :: 0 <= i < |bots| ==>
                  && bots[i].id == BotId(i)
                  && WellFormedAgent(bots[i])
                  && |bots[i].path| == Min(t + 1, PathCap)
    {
      var tick := t;
      var session := SimTick(Initial.(bots := bots), (i: nat) => moveDraws(tick, i), trig);
      bots := session.bots;
      t := t + 1;
    }
  }
}
