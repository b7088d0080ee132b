/** The trail accumulator: how one raw position fix updates the local user's
    recorded path and the distance travelled (the `watchPosition` success
    handler of App.tsx). */
module Trail {
  import opened Types

  /** `calculateDistance(lat1, lng1, lat2, lng2)` in metres. Its haversine body
      lives in utils/geoUtils, which is not part of this model, so the model is
      stated for every such function. */
  type DistanceFn = (real, real, real, real) -> real

  ghost predicate NonNegative(dist: DistanceFn) {
    forall lat1, lng1, lat2, lng2 :: dist(lat1, lng1, lat2, lng2) >= 0.0
  }

  /** A fix is recorded only when it lies more than this many metres from the
      last recorded vertex. */
  const Threshold: real := 3.0

  function Between(dist: DistanceFn, a: Coordinates, b: Coordinates): real {
    dist(a.lat, a.lng, b.lat, b.lng)
  }

  /** Length of the polyline through `path`: the sum of its legs. */
  function PathLength(path: seq<Coordinates>, dist: DistanceFn): real
    decreases |path|
  {
    if |path| < 2 then 0.0
    else Between(dist, path[0], path[1]) + PathLength(path[1..], dist)
  }

  /** Every leg of the trail is longer than the noise threshold. */
  ghost predicate Sparse(path: seq<Coordinates>, dist: DistanceFn) {
    forall i :: 0 <= i < |path| - 1 ==> Between(dist, path[i], path[i + 1]) > Threshold
  }

  /** The user after a fix (None when there was no user) and the metres the
      handler adds to the session's running distance. */
  datatype Ingested = Ingested(user: Option<User>, added: real)

  /** The per-fix update. The fix always becomes the position; it is appended
      to the path, and its distance from the last vertex added to the total,
      only when that distance exceeds the threshold. */
  function IngestFix(prev: Option<User>, fix: Coordinates, dist: DistanceFn): (r: Ingested)
    requires prev.Some? ==> |prev.value.path| > 0
    ensures prev.None? ==> r == Ingested(None, 0.0)
    ensures prev.Some? ==> r.user.Some?
    ensures prev.Some? ==> r.user.value == prev.value.(position := fix, path := r.user.value.path)
    ensures prev.Some? && Between(dist, Last(prev.value.path), fix) > Threshold ==>
              r.user.value.path == prev.value.path + [fix]
              && r.added == Between(dist, Last(prev.value.path), fix)
    ensures prev.Some? && Between(dist, Last(prev.value.path), fix) <= Threshold ==>
              r.user.value.path == prev.value.path && r.added == 0.0
  {
    match prev
    case None => Ingested(None, 0.0)
    case Some(u) =>
      var d := Between(dist, Last(u.path), fix);
      if d > Threshold then Ingested(Some(u.(position := fix, path := u.path + [fix])), d)
      else Ingested(Some(u.(position := fix)), 0.0)
  }

  /** A stream of fixes handled one after another; `added` is the total the
      handlers add to the running distance. */
  function IngestAll(prev: Option<User>, fixes: seq<Coordinates>, dist: DistanceFn): (r: Ingested)
    requires prev.Some? ==> |prev.value.path| > 0
    ensures r.user.Some? <==> prev.Some?
    ensures prev.Some? ==> |r.user.value.path| >= |prev.value.path| > 0
    ensures prev.Some? ==> r.user.value.path[..|prev.value.path|] == prev.value.path
    ensures prev.Some? && |fixes| > 0 ==> r.user.value.position == Last(fixes)
    decreases |fixes|
  {
    if |fixes| == 0 then Ingested(prev, 0.0)
    else
      var first := IngestFix(prev, fixes[0], dist);
      var rest := IngestAll(first.user, fixes[1..], dist);
      Ingested(rest.user, first.added + rest.added)
  }

  lemma {:induction false} PathLengthAppend(path: seq<Coordinates>, p: Coordinates, dist: DistanceFn)
    requires |path| > 0
    ensures PathLength(path + [p], dist) == PathLength(path, dist) + Between(dist, Last(path), p)
  {
    if |path| == 1 {
      assert path + [p] == [path[0], p];
      assert (path + [p])[1..] == [p];
    } else {
      assert (path + [p])[1..] == path[1..] + [p];
      PathLengthAppend(path[1..], p, dist);
    }
  }

  lemma {:induction false} PathLengthNonNegative(path: seq<Coordinates>, dist: DistanceFn)
    requires NonNegative(dist)
    ensures PathLength(path, dist) >= 0.0
    decreases |path|
  {
    if |path| >= 2 {
      PathLengthNonNegative(path[1..], dist);
    }
  }

  /** What one fix does to the trail as a whole: the amount added to the
      running distance is exactly the growth of the trail's polyline length,
      the trail stays free of sub-threshold legs, and it only ever grows at
      its end. */
  lemma IngestKeepsTrail(u: User, fix: Coordinates, dist: DistanceFn)
    requires |u.path| > 0 && Sparse(u.path, dist)
    ensures var r := IngestFix(Some(u), fix, dist);
      && Sparse(r.user.value.path, dist)
      && PathLength(r.user.value.path, dist) == PathLength(u.path, dist) + r.added
      && |u.path| <= |r.user.value.path| <= |u.path| + 1
      && r.user.value.path[..|u.path|] == u.path
      && Last(r.user.value.path) in {Last(u.path), fix}
  {
    var r := IngestFix(Some(u), fix, dist);
    var path' := r.user.value.path;
    if Between(dist, Last(u.path), fix) > Threshold {
      PathLengthAppend(u.path, fix, dist);
      assert path'[..|u.path|] == u.path;
      forall i | 0 <= i < |path'| - 1
        ensures Between(dist, path'[i], path'[i + 1]) > Threshold
      {
        if i < |u.path| - 1 {
          assert path'[i] == u.path[i] && path'[i + 1] == u.path[i + 1];
        }
      }
    }
  }

  /** The same, over a whole stream of fixes. */
  lemma {:induction false} IngestAllKeepsTrail(u: User, fixes: seq<Coordinates>, dist: DistanceFn)
    requires |u.path| > 0 && Sparse(u.path, dist)
    ensures var r := IngestAll(Some(u), fixes, dist);
      && Sparse(r.user.value.path, dist)
      && PathLength(r.user.value.path, dist) == PathLength(u.path, dist) + r.added
    decreases |fixes|
  {
    if |fixes| > 0 {
      IngestKeepsTrail(u, fixes[0], dist);
      IngestAllKeepsTrail(IngestFix(Some(u), fixes[0], dist).user.value, fixes[1..], dist);
    }
  }

  /** With a non-negative distance function the running distance never
      decreases while fixes arrive. */
  lemma {:induction false} IngestAllAddsNonNegative(prev: Option<User>, fixes: seq<Coordinates>, dist: DistanceFn)
    requires prev.Some? ==> |prev.value.path| > 0
    requires NonNegative(dist)
    ensures IngestAll(prev, fixes, dist).added >= 0.0
    decreases |fixes|
  {
    if |fixes| > 0 {
      var first := IngestFix(prev, fixes[0], dist);
      IngestAllAddsNonNegative(first.user, fixes[1..], dist);
    }
  }

  /** Jitter: fixes that all stay within the threshold of the last recorded
      vertex never grow the path and never add distance, while the position
      still follows the latest fix. */
  lemma {:induction false} JitterIsIgnored(u: User, fixes: seq<Coordinates>, dist: DistanceFn)
    requires |u.path| > 0
    requires forall k :: 0 <= k < |fixes| ==> Between(dist, Last(u.path), fixes[k]) <= Threshold
    ensures var r := IngestAll(Some(u), fixes, dist);
      && r.user.value.path == u.path
      && r.added == 0.0
      && r.user.value == u.(position := r.user.value.position)
    decreases |fixes|
  {
    if |fixes| > 0 {
      var first := IngestFix(Some(u), fixes[0], dist);
      JitterIsIgnored(first.user.value, fixes[1..], dist);
    }
  }

  /** A fix inside the threshold that differs from the last vertex leaves the
      marker off the recorded trail: `position` and the path's last element
      then differ. */
  lemma RejectedFixLeavesTrail(u: User, fix: Coordinates, dist: DistanceFn)
    requires |u.path| > 0
    requires Between(dist, Last(u.path), fix) <= Threshold && fix != Last(u.path)
    ensures var v := IngestFix(Some(u), fix, dist).user.value;
      v.position != Last(v.path)
  {
  }
}
