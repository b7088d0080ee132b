/** Records shared by the trail accumulator, the tracking session and the agent
    simulator, and the few sequence helpers they all use. */
module Types {

  /** `null` in TypeScript: a value that is not known. */
  datatype Option<+T> = None | Some(value: T)

  /** One position sample. Degrees for `lat`/`lng`, epoch milliseconds for
      `timestamp`, metres per second for `speed`, degrees for `heading`, metres
      for `accuracy`. An unknown speed or heading is `None`, which is not zero. */
  datatype Coordinates = Coordinates(
    lat: real,
    lng: real,
    timestamp: int,
    speed: Option<real>,
    heading: Option<real>,
    accuracy: real)

  /** The presence tag of a user ('ONLINE' | 'OFFLINE' | 'IDLE'). */
  datatype Presence = Online | Offline | Idle

  /** A tracked mover: the local user or a simulated agent. */
  datatype User = User(
    id: string,
    name: string,
    isCurrentUser: bool,
    position: Coordinates,
    path: seq<Coordinates>,
    color: string,
    status: Presence)

  /** The tracking lifecycle of the local user. */
  datatype TrackingStatus = Idle | Tracking | Paused | Error

  /** `x || 0` on a nullable number: an unknown value counts as zero. */
  function OrZero(x: Option<real>): real {
    match x
    case None => 0.0
    case Some(v) => v
  }

  function Last<T>(s: seq<T>): T
    requires |s| > 0
  {
    s[|s| - 1]
  }

  function Min(a: int, b: int): int {
    if a <= b then a else b
  }
}
