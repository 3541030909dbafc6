/**
 * The orchestration around the ray-tracing engine: per-drone trajectories, the two
 * iteration modes of a simulation run, the results dictionary they fill and the
 * status updates the run sends to the job registry.
 *
 * The engine step, the floating-point geometry and the progress percentage are
 * parameters: the model does not interpret them.
 */
module Simulate {
  import opened Wrappers
  import opened Json
  import opened Configs
  import Decimal
  import JobQueue

  /** The floating-point geometry of the trajectories, left uninterpreted. */
  datatype Geometry = Geometry(
    // point i of `steps` evenly spaced points on the segment from start to end
    lerp: (Point, Point, int, int) -> Point,
    // the (x, y) offset at the given radius and angle 180 + i * 360 / steps degrees, for point i of `steps`
    circleOffset: (real, int, int) -> (real, real))

  /** One engine step for the drones at the given locations; None when it raises. */
  type Engine = (Config, seq<Point>) -> Option<Object>

  /** The progress percentage of `done` steps out of `total`, left uninterpreted. */
  type Percent = (int, int) -> int

  /** The exceptions a simulation run can end with. */
  datatype SimError =
    | MissingEndPosition   // 'line' motion without end_position: arithmetic on None
    | LocationNotTriple    // 'circle' motion: unpacking a location that is not x, y, z
    | DivisionByZero       // 'circle' motion with zero steps: 360 / 0
    | IndexError           // a drone index beyond the trajectory list
    | EngineFailed         // the engine step raised

  /** One entry of `all_results`. */
  datatype StepRecord = StepRecord(droneLocations: seq<Point>, results: Object)

  function Max0(n: int): nat {
    if n < 0 then 0 else n
  }

  // ---- trajectories ----

  /** Point i of a circle through the drone's position; the centre is `radius` to its right. */
  function CirclePoint(loc: Point, radius: real, i: int, steps: int, geo: Geometry): (p: Point)
    requires |loc| == 3
    ensures |p| == 3 && p[2] == loc[2]
  {
    var offset := geo.circleOffset(radius, i, steps);
    [loc[0] + radius + offset.0, loc[1] + offset.1, loc[2]]
  }

  /** A drone adds a trajectory unless it has a motion of a type other than 'line' and 'circle'. */
  predicate Contributes(d: Drone) {
    !(d.hasMotion && d.motion.Some?) || d.motion.value.motionType == "line" || d.motion.value.motionType == "circle"
  }

  /** What one drone adds to the trajectory list: a path, nothing (None), or an exception. */
  function TrajectoryOf(d: Drone, steps: int, geo: Geometry): (r: Result<Option<seq<Point>>, SimError>)
    ensures r.Success? ==> (r.value.Some? <==> Contributes(d))
    ensures r.Success? && r.value.Some? ==> |r.value.value| == Max0(steps)
    ensures !d.hasMotion || d.motion.None? ==>
              r.Success? && r.value.Some? && forall i :: 0 <= i < |r.value.value| ==> r.value.value[i] == d.location
    ensures d.hasMotion && d.motion.Some? && d.motion.value.motionType == "circle" && r.Success? ==>
              |d.location| == 3 && forall i :: 0 <= i < |r.value.value| ==> |r.value.value[i]| == 3 && r.value.value[i][2] == d.location[2]
    ensures r.Failure? ==> d.hasMotion && d.motion.Some? && !(d.motion.value.motionType == "line" && steps <= 0)
  {
    if d.hasMotion && d.motion.Some? then
      var m := d.motion.value;
      if m.motionType == "line" then
        if steps <= 0 then Success(Some([]))
        else if m.endPosition.None? then Failure(MissingEndPosition)
        else Success(Some(seq(steps, i => geo.lerp(d.location, m.endPosition.value, i, steps))))
      else if m.motionType == "circle" then
        if |d.location| != 3 then Failure(LocationNotTriple)
        else if steps == 0 then Failure(DivisionByZero)
        else Success(Some(seq(Max0(steps), i => CirclePoint(d.location, m.radius, i, steps, geo))))
      else Success(None)
    else Success(Some(seq(Max0(steps), _ => d.location)))
  }

  /** The trajectory list of `_calculate_trajectories`, or the first exception in drone order. */
  function Trajectories(drones: seq<Drone>, steps: int, geo: Geometry): Result<seq<seq<Point>>, SimError>
    decreases |drones|
  {
    if drones == [] then Success([])
    else match Trajectories(drones[..|drones| - 1], steps, geo)
      case Failure(e) => Failure(e)
      case Success(ts) =>
        match TrajectoryOf(drones[|drones| - 1], steps, geo)
        case Failure(e) => Failure(e)
        case Success(None) => Success(ts)
        case Success(Some(path)) => Success(ts + [path])
  }

  /** Number of drones that add a trajectory. */
  function CountContributing(drones: seq<Drone>): nat
    decreases |drones|
  {
    if drones == [] then 0
    else CountContributing(drones[..|drones| - 1]) + (if Contributes(drones[|drones| - 1]) then 1 else 0)
  }

  method CalculateTrajectories(drones: seq<Drone>, steps: int, geo: Geometry) returns (r: Result<seq<seq<Point>>, SimError>)
    ensures r == Trajectories(drones, steps, geo)
  {
    var trajectories: seq<seq<Point>> := [];
    var i := 0;
    while i < |drones|
      invariant 0 <= i <= |drones|
      invariant Trajectories(drones[..i], steps, geo) == Success(trajectories)
    {
      var drone := drones[i];
      assert drones[..i + 1][..i] == drones[..i];
      if drone.hasMotion && drone.motion.Some? {
        var m := drone.motion.value;
        if m.motionType == "line" {
          var path: seq<Point>;
          if steps <= 0 {
            path := [];
          } else if m.endPosition.None? {
            r := Failure(MissingEndPosition);
            FailureSticks(drones, i + 1, steps, geo);
            return;
          } else {
            path := seq(steps, k => geo.lerp(drone.location, m.endPosition.value, k, steps));
          }
          trajectories := trajectories + [path];
        } else if m.motionType == "circle" {
          if |drone.location| != 3 {
            r := Failure(LocationNotTriple);
            FailureSticks(drones, i + 1, steps, geo);
            return;
          }
          if steps == 0 {
            r := Failure(DivisionByZero);
            FailureSticks(drones, i + 1, steps, geo);
            return;
          }
          var path: seq<Point> := [];
          var k := 0;
          while k < steps
            invariant 0 <= k <= Max0(steps)
            invariant path == seq(k, j => CirclePoint(drone.location, m.radius, j, steps, geo))
          {
            path := path + [CirclePoint(drone.location, m.radius, k, steps, geo)];
            k := k + 1;
          }
          trajectories := trajectories + [path];
        }
      } else {
        trajectories := trajectories + [seq(Max0(steps), _ => drone.location)];
      }
      i := i + 1;
    }
    assert drones[..i] == drones;
    r := Success(trajectories);
  }

  /** An exception for a drone ends the whole calculation with that exception. */
  lemma {:induction false} FailureSticks(drones: seq<Drone>, k: nat, steps: int, geo: Geometry)
    requires 0 < k <= |drones|
    requires Trajectories(drones[..k - 1], steps, geo).Success?
    requires TrajectoryOf(drones[k - 1], steps, geo).Failure?
    ensures Trajectories(drones, steps, geo) == Failure(TrajectoryOf(drones[k - 1], steps, geo).error)
    decreases |drones| - k
  {
    if k == |drones| {
      assert drones[..k - 1] == drones[..|drones| - 1];
    } else {
      assert drones[..|drones| - 1][..k - 1] == drones[..k - 1];
      FailureSticks(drones[..|drones| - 1], k, steps, geo);
    }
  }

  /**
   * Every trajectory has exactly `steps` points (none for a non-positive count), and
   * there is one per contributing drone: a drone with an unknown motion type shortens
   * the list.
   */
  lemma {:induction false} TrajectoriesShape(drones: seq<Drone>, steps: int, geo: Geometry)
    requires Trajectories(drones, steps, geo).Success?
    ensures |Trajectories(drones, steps, geo).value| == CountContributing(drones) <= |drones|
    ensures forall t :: t in Trajectories(drones, steps, geo).value ==> |t| == Max0(steps)
    decreases |drones|
  {
    if drones != [] {
      TrajectoriesShape(drones[..|drones| - 1], steps, geo);
    }
  }

  /**
   * The trajectory of contributing drone i sits at the index given by the number of
   * contributing drones before it; so indices agree with drone indices only up to the
   * first drone with an unknown motion type.
   */
  lemma {:induction false} TrajectoryIndex(drones: seq<Drone>, steps: int, geo: Geometry, i: nat)
    requires Trajectories(drones, steps, geo).Success?
    requires i < |drones| && Contributes(drones[i])
    ensures CountContributing(drones[..i]) < |Trajectories(drones, steps, geo).value|
    ensures TrajectoryOf(drones[i], steps, geo).Success? && TrajectoryOf(drones[i], steps, geo).value.Some?
    ensures Trajectories(drones, steps, geo).value[CountContributing(drones[..i])]
            == TrajectoryOf(drones[i], steps, geo).value.value
    decreases |drones|
  {
    var front := drones[..|drones| - 1];
    TrajectoriesShape(front, steps, geo);
    if i == |drones| - 1 {
      assert drones[..i] == front;
    } else {
      assert front[..i] == drones[..i];
      TrajectoryIndex(front, steps, geo, i);
    }
  }

  /** When every drone contributes, trajectory i belongs to drone i. */
  lemma AlignedTrajectories(drones: seq<Drone>, steps: int, geo: Geometry, i: nat)
    requires Trajectories(drones, steps, geo).Success?
    requires forall d :: d in drones ==> Contributes(d)
    requires i < |drones|
    ensures i < |Trajectories(drones, steps, geo).value|
    ensures TrajectoryOf(drones[i], steps, geo).Success? && TrajectoryOf(drones[i], steps, geo).value.Some?
    ensures Trajectories(drones, steps, geo).value[i] == TrajectoryOf(drones[i], steps, geo).value.value
  {
    AllContributeCount(drones[..i]);
    TrajectoryIndex(drones, steps, geo, i);
  }

  lemma {:induction false} AllContributeCount(drones: seq<Drone>)
    requires forall d :: d in drones ==> Contributes(d)
    ensures CountContributing(drones) == |drones|
    decreases |drones|
  {
    if drones != [] {
      AllContributeCount(drones[..|drones| - 1]);
    }
  }

  /**
   * A drone with an unknown motion type right after aligned drones makes the next
   * drone's trajectory take its index.
   */
  lemma Misaligned(drones: seq<Drone>, steps: int, geo: Geometry, i: nat)
    requires Trajectories(drones, steps, geo).Success?
    requires i + 1 < |drones|
    requires forall j :: 0 <= j < i ==> Contributes(drones[j])
    requires !Contributes(drones[i]) && Contributes(drones[i + 1])
    ensures i < |Trajectories(drones, steps, geo).value|
    ensures TrajectoryOf(drones[i + 1], steps, geo).Success? && TrajectoryOf(drones[i + 1], steps, geo).value.Some?
    ensures Trajectories(drones, steps, geo).value[i] == TrajectoryOf(drones[i + 1], steps, geo).value.value
  {
    AllContributeCount(drones[..i]);
    assert drones[..i + 1][..i] == drones[..i];
    assert CountContributing(drones[..i + 1]) == i;
    TrajectoryIndex(drones, steps, geo, i + 1);
  }

  // ---- the status updates and the results document ----

  /** The PUT `_update_job_status` sends: the result only when one is given. */
  function StatusPut(jobId: string, status: string, progress: int, result: Option<Object>): JobQueue.Put {
    JobQueue.Put(jobId, JobQueue.StatusUpdate(status, progress, result))
  }

  /** Every update of the trace is for `jobId` and reports "processing" without a result. */
  predicate ProcessingUpdates(jobId: string, puts: seq<JobQueue.Put>) {
    forall j :: 0 <= j < |puts| ==>
      puts[j].jobId == jobId && puts[j].update.status == "processing" && puts[j].update.result.None?
  }

  /** The progress updates after the first `count` steps of `total`. */
  function ProgressPuts(jobId: string, count: nat, total: int, pct: Percent): (r: seq<JobQueue.Put>)
    ensures |r| == count
    ensures forall k :: 0 <= k < count ==> r[k] == StatusPut(jobId, "processing", pct(k + 1, total), None)
    ensures ProcessingUpdates(jobId, r)
  {
    seq(count, k => StatusPut(jobId, "processing", pct(k + 1, total), None))
  }

  function PointDoc(p: Point): Json {
    JArr(seq(|p|, i requires 0 <= i < |p| => JFloat(p[i])))
  }

  function StepDoc(s: StepRecord): Json {
    JObj(map["drone_locations" := JArr(seq(|s.droneLocations|, i requires 0 <= i < |s.droneLocations| => PointDoc(s.droneLocations[i]))),
             "results" := JObj(s.results)])
  }

  /** `{"results": all_results}` as it reaches the registry: integer keys become their decimal text. */
  function ResultsDoc(all: map<nat, StepRecord>): (r: Object)
    ensures r.Keys == {"results"} && r["results"].JObj?
    ensures forall k :: k in all ==> Decimal.Show(k) in r["results"].fields && r["results"].fields[Decimal.Show(k)] == StepDoc(all[k])
    ensures forall key :: key in r["results"].fields ==> exists k :: k in all && key == Decimal.Show(k)
  {
    Decimal.ShowInjective();
    map["results" := JObj(map k | k in all :: Decimal.Show(k) := StepDoc(all[k]))]
  }

  /**
   * The results document has one entry per step record: the integer step keys
   * stay distinct once they become text.
   */
  lemma ResultsDocEntries(all: map<nat, StepRecord>)
    ensures |ResultsDoc(all)["results"].fields| == |all|
  {
    ResultsDocKeys(all);
    ShownKeysCard(all.Keys);
  }

  lemma ResultsDocKeys(all: map<nat, StepRecord>)
    ensures ResultsDoc(all)["results"].fields.Keys == set k | k in all.Keys :: Decimal.Show(k)
  {
  }

  /** Distinct step indices give distinct keys, so there are as many keys as indices. */
  lemma {:induction false} ShownKeysCard(s: set<nat>)
    ensures |set k | k in s :: Decimal.Show(k)| == |s|
    decreases |s|
  {
    if s != {} {
      var x :| x in s;
      var s' := s - {x};
      ShownKeysCard(s');
      var img := set k | k in s :: Decimal.Show(k);
      var img' := set k | k in s' :: Decimal.Show(k);
      if Decimal.Show(x) in img' {
        var k' :| k' in s' && Decimal.Show(k') == Decimal.Show(x);
        Decimal.ParseShow(k');
        Decimal.ParseShow(x);
      }
      assert img == img' + {Decimal.Show(x)};
      CardAddOne(img', Decimal.Show(x));
    }
  }

  lemma CardAddOne<T>(s: set<T>, x: T)
    requires x !in s
    ensures |s + {x}| == |s| + 1
  {
    assert s * {x} == {};
  }

  /** Step records under the keys 0..count-1 are `count` records. */
  lemma {:induction false} KeysBelow(all: map<nat, StepRecord>, count: nat)
    requires forall k: nat :: k in all <==> k < count
    ensures |all| == count
    decreases count
  {
    if count == 0 {
      assert all == map[];
    } else {
      var rest := all - {count - 1};
      KeysBelow(rest, count - 1);
      assert all.Keys == rest.Keys + {count - 1};
      CardAddOne(rest.Keys, count - 1);
    }
  }

  // ---- move-together mode ----

  /** The drone locations of step k: trajectory d, point k, for every drone d. */
  function TogetherLocations(traj: seq<seq<Point>>, n: nat, k: nat): (r: seq<Point>)
    requires n <= |traj| && forall d :: 0 <= d < n ==> k < |traj[d]|
    ensures |r| == n && forall d :: 0 <= d < n ==> r[d] == traj[d][k]
  {
    seq(n, d requires 0 <= d < n => traj[d][k])
  }

  /** The predicate "trajectories all have `steps` points", which the calculation guarantees. */
  predicate Uniform(traj: seq<seq<Point>>, steps: int) {
    forall t :: t in traj ==> |t| == Max0(steps)
  }

  /**
   * The first `count` steps of move-together mode have been simulated: `all` holds,
   * under each step index k, the k-th point of every drone's trajectory and what the
   * engine returned for them, and `puts` reported the progress after each step.
   */
  ghost predicate StepsDone(config: Config, traj: seq<seq<Point>>, engine: Engine, pct: Percent,
                            count: nat, all: map<nat, StepRecord>, puts: seq<JobQueue.Put>)
  {
    && Uniform(traj, config.simulationSteps)
    && count <= Max0(config.simulationSteps)
    && (count > 0 ==> |config.drones| <= |traj|)
    && (forall k: nat :: k in all <==> k < count)
    && (forall k :: 0 <= k < count ==>
          && all[k].droneLocations == TogetherLocations(traj, |config.drones|, k)
          && engine(config, all[k].droneLocations) == Some(all[k].results))
    && puts == ProgressPuts(config.jobId, count, config.simulationSteps, pct)
  }

  /** Point k of the trajectories of drones 0..n-1, failing with an index error when a trajectory is missing. */
  method GatherLocations(traj: seq<seq<Point>>, n: nat, k: nat) returns (r: Result<seq<Point>, SimError>)
    requires forall t :: t in traj ==> k < |t|
    ensures n <= |traj| ==> r == Success(TogetherLocations(traj, n, k))
    ensures n > |traj| ==> r == Failure(IndexError)
  {
    var current: seq<Point> := [];
    var d := 0;
    while d < n
      invariant 0 <= d <= n && d <= |traj|
      invariant |current| == d && forall e :: 0 <= e < d ==> current[e] == traj[e][k]
    {
      if d >= |traj| {
        return Failure(IndexError);
      }
      assert traj[d] in traj;
      current := current + [traj[d][k]];
      d := d + 1;
    }
    assert current == TogetherLocations(traj, n, k);
    return Success(current);
  }

  /** Simulating step `k` extends the record of the first `k` steps by one entry and one progress update. */
  lemma StepDone(config: Config, traj: seq<seq<Point>>, engine: Engine, pct: Percent,
                 k: nat, all: map<nat, StepRecord>, puts: seq<JobQueue.Put>, results: Object)
    requires StepsDone(config, traj, engine, pct, k, all, puts)
    requires k < config.simulationSteps && |config.drones| <= |traj|
    requires engine(config, TogetherLocations(traj, |config.drones|, k)) == Some(results)
    ensures StepsDone(config, traj, engine, pct, k + 1,
                      all[k := StepRecord(TogetherLocations(traj, |config.drones|, k), results)],
                      puts + [StatusPut(config.jobId, "processing", pct(k + 1, config.simulationSteps), None)])
  {
    var puts' := puts + [StatusPut(config.jobId, "processing", pct(k + 1, config.simulationSteps), None)];
    assert puts' == ProgressPuts(config.jobId, k + 1, config.simulationSteps, pct);
    var all' := all[k := StepRecord(TogetherLocations(traj, |config.drones|, k), results)];
    forall j | 0 <= j < k + 1
      ensures all'[j].droneLocations == TogetherLocations(traj, |config.drones|, j)
      ensures engine(config, all'[j].droneLocations) == Some(all'[j].results)
    {
      if j < k {
        assert all'[j] == all[j];
      }
    }
  }

  method RunTogether(config: Config, traj: seq<seq<Point>>, engine: Engine, pct: Percent)
    returns (puts: seq<JobQueue.Put>, outcome: Result<map<nat, StepRecord>, SimError>)
    requires Uniform(traj, config.simulationSteps)
    ensures outcome.Success? || outcome == Failure(IndexError) || outcome == Failure(EngineFailed)
    ensures ProcessingUpdates(config.jobId, puts)
    ensures outcome == Failure(IndexError) <==> config.simulationSteps > 0 && |traj| < |config.drones|
    ensures outcome == Failure(IndexError) ==> puts == []
    ensures outcome.Success? ==>
              StepsDone(config, traj, engine, pct, Max0(config.simulationSteps), outcome.value, puts)
    ensures outcome == Failure(EngineFailed) ==>
              && |config.drones| <= |traj|
              && exists k: nat, all ::
                   && k < config.simulationSteps
                   && StepsDone(config, traj, engine, pct, k, all, puts)
                   && engine(config, TogetherLocations(traj, |config.drones|, k)).None?
  {
    var steps := config.simulationSteps;
    var n := |config.drones|;
    var all: map<nat, StepRecord> := map[];
    puts := [];
    var k := 0;
    while k < steps
      invariant StepsDone(config, traj, engine, pct, k, all, puts)
    {
      var current := GatherLocations(traj, n, k);
      if current.Failure? {
        outcome := Failure(IndexError);
        return;
      }
      var stepResults := engine(config, current.value);
      if stepResults.None? {
        outcome := Failure(EngineFailed);
        return;
      }
      StepDone(config, traj, engine, pct, k, all, puts, stepResults.value);
      all := all[k := StepRecord(current.value, stepResults.value)];
      puts := puts + [StatusPut(config.jobId, "processing", pct(k + 1, steps), None)];
      k := k + 1;
    }
    outcome := Success(all);
  }

  // ---- independent mode ----

  /** The indices of the drones whose `has_motion` flag equals `moving`. */
  function IndicesWhere(drones: seq<Drone>, moving: bool): (r: seq<nat>)
    ensures forall j :: 0 <= j < |r| ==> r[j] < |drones| && drones[r[j]].hasMotion == moving
    ensures forall d :: 0 <= d < |drones| && drones[d].hasMotion == moving ==> d in r
    decreases |drones|
  {
    if drones == [] then []
    else
      var front := IndicesWhere(drones[..|drones| - 1], moving);
      if drones[|drones| - 1].hasMotion == moving then front + [|drones| - 1] else front
  }

  /** The indices come in the drones' configured order. */
  lemma {:induction false} IndicesWhereIncreasing(drones: seq<Drone>, moving: bool)
    ensures var r := IndicesWhere(drones, moving);
            forall i, j :: 0 <= i < j < |r| ==> r[i] < r[j]
    decreases |drones|
  {
    if drones != [] {
      var front := drones[..|drones| - 1];
      IndicesWhereIncreasing(front, moving);
      assert forall j :: 0 <= j < |IndicesWhere(front, moving)| ==> IndicesWhere(front, moving)[j] < |front|;
    }
  }

  /** Every moving drone index has a trajectory. */
  predicate MovingFits(traj: seq<seq<Point>>, moving: seq<nat>) {
    forall j :: 0 <= j < |moving| ==> moving[j] < |traj|
  }

  /** The trajectory at each of the given drone indices, in their order. */
  function MovingTrajectories(traj: seq<seq<Point>>, moving: seq<nat>): (r: seq<seq<Point>>)
    requires MovingFits(traj, moving)
    ensures |r| == |moving| && forall j :: 0 <= j < |moving| ==> r[j] == traj[moving[j]]
  {
    seq(|moving|, j requires 0 <= j < |moving| => traj[moving[j]])
  }

  /** Each point of `xs` put in front of each sequence of `rest`, grouped by point. */
  function Prepend(xs: seq<Point>, rest: seq<seq<Point>>): (r: seq<seq<Point>>)
    ensures |r| == |xs| * |rest|
    decreases |xs|
  {
    if xs == [] then []
    else seq(|rest|, i requires 0 <= i < |rest| => [xs[0]] + rest[i]) + Prepend(xs[1..], rest)
  }

  /** The cartesian product of the lists: every choice of one point per list, the last list varying fastest. */
  function Product(ls: seq<seq<Point>>): (r: seq<seq<Point>>)
    decreases |ls|
  {
    if ls == [] then [[]] else Prepend(ls[0], Product(ls[1..]))
  }

  /** The product of the list lengths; 1 for no lists. */
  function ProdLens(ls: seq<seq<Point>>): nat
    decreases |ls|
  {
    if ls == [] then 1 else |ls[0]| * ProdLens(ls[1..])
  }

  lemma {:induction false} PrependMembers(xs: seq<Point>, rest: seq<seq<Point>>, c: seq<Point>)
    ensures c in Prepend(xs, rest) <==> |c| > 0 && c[0] in xs && c[1..] in rest
    decreases |xs|
  {
    if xs != [] {
      PrependMembers(xs[1..], rest, c);
      var head := seq(|rest|, i requires 0 <= i < |rest| => [xs[0]] + rest[i]);
      assert Prepend(xs, rest) == head + Prepend(xs[1..], rest);
      if c in head {
        var i :| 0 <= i < |rest| && head[i] == c;
        assert c[1..] == rest[i];
      }
      if |c| > 0 && c[0] == xs[0] && c[1..] in rest {
        var i :| 0 <= i < |rest| && rest[i] == c[1..];
        assert head[i] == c;
      }
    }
  }

  /**
   * The combinations are exactly the sequences that take one point from each list,
   * and there are as many as the product of the list lengths.
   */
  lemma {:induction false} ProductSpec(ls: seq<seq<Point>>)
    ensures |Product(ls)| == ProdLens(ls)
    ensures forall c :: c in Product(ls) <==> |c| == |ls| && forall j :: 0 <= j < |ls| ==> c[j] in ls[j]
    decreases |ls|
  {
    if ls != [] {
      ProductSpec(ls[1..]);
      forall c ensures c in Product(ls) <==> |c| == |ls| && forall j :: 0 <= j < |ls| ==> c[j] in ls[j] {
        PrependMembers(ls[0], Product(ls[1..]), c);
        if |c| == |ls| && (forall j :: 0 <= j < |ls| ==> c[j] in ls[j]) {
          forall j | 0 <= j < |ls| - 1 ensures c[1..][j] in ls[1..][j] {
            assert c[j + 1] in ls[j + 1];
          }
        }
        if c in Product(ls) {
          forall j | 0 <= j < |ls| ensures c[j] in ls[j] {
            if j > 0 { assert c[1..][j - 1] in ls[1..][j - 1]; }
          }
        }
      }
    }
  }

  /** Each combination picks exactly one point per list. */
  lemma ProductWidth(ls: seq<seq<Point>>, i: nat)
    requires i < |Product(ls)|
    ensures |Product(ls)[i]| == |ls|
  {
    ProductSpec(ls);
    assert Product(ls)[i] in Product(ls);
  }

  /**
   * The locations of one combination: moving drone `moving[j]` at the j-th chosen
   * point, every stationary drone at its configured location.
   */
  predicate PlacedAt(drones: seq<Drone>, moving: seq<nat>, combo: seq<Point>, locs: seq<Point>) {
    && |locs| == |drones|
    && |combo| == |moving|
    && (forall j :: 0 <= j < |moving| ==> moving[j] < |locs| && locs[moving[j]] == combo[j])
    && (forall d :: 0 <= d < |drones| && !drones[d].hasMotion ==> locs[d] == drones[d].location)
  }

  /** A combination determines the locations of all drones. */
  lemma PlacementUnique(drones: seq<Drone>, combo: seq<Point>, a: seq<Point>, b: seq<Point>)
    requires PlacedAt(drones, IndicesWhere(drones, true), combo, a)
    requires PlacedAt(drones, IndicesWhere(drones, true), combo, b)
    ensures a == b
  {
    var moving := IndicesWhere(drones, true);
    forall d | 0 <= d < |drones| ensures a[d] == b[d] {
      if drones[d].hasMotion {
        var j :| 0 <= j < |moving| && moving[j] == d;
      }
    }
  }

  /**
   * Builds `current_locations` for one combination: the moving drones in their
   * configured order take the chosen points, then the stationary drones their location.
   */
  method PlaceDrones(drones: seq<Drone>, combination: seq<Point>) returns (locations: seq<Point>)
    requires |combination| == |IndicesWhere(drones, true)|
    ensures PlacedAt(drones, IndicesWhere(drones, true), combination, locations)
  {
    var n := |drones|;
    var moving := IndicesWhere(drones, true);
    var stationary := IndicesWhere(drones, false);
    IndicesWhereIncreasing(drones, true);
    var current: seq<Option<Point>> := seq(n, _ => None);
    var idx := 0;
    while idx < |combination|
      invariant 0 <= idx <= |combination|
      invariant |current| == n
      invariant forall j :: 0 <= j < idx ==> current[moving[j]] == Some(combination[j])
    {
      current := current[moving[idx] := Some(combination[idx])];
      idx := idx + 1;
    }
    var s := 0;
    while s < |stationary|
      invariant 0 <= s <= |stationary|
      invariant |current| == n
      invariant forall j :: 0 <= j < |moving| ==> current[moving[j]] == Some(combination[j])
      invariant forall t :: 0 <= t < s ==> current[stationary[t]] == Some(drones[stationary[t]].location)
    {
      current := current[stationary[s] := Some(drones[stationary[s]].location)];
      s := s + 1;
    }
    forall d | 0 <= d < n ensures current[d].Some? {
      if drones[d].hasMotion {
        var j :| 0 <= j < |moving| && moving[j] == d;
      } else {
        var t :| 0 <= t < |stationary| && stationary[t] == d;
      }
    }
    locations := seq(n, d requires 0 <= d < n => current[d].value);
    forall d | 0 <= d < n && !drones[d].hasMotion ensures locations[d] == drones[d].location {
      var t :| 0 <= t < |stationary| && stationary[t] == d;
    }
  }

  /**
   * The first `count` combinations of `movingTraj` have been simulated: `all` holds,
   * under each combination's index, where the drones were and what the engine returned,
   * and `puts` reported the progress after each of them.
   */
  ghost predicate CombinationsDone(config: Config, movingTraj: seq<seq<Point>>, engine: Engine, pct: Percent,
                                   count: nat, all: map<nat, StepRecord>, puts: seq<JobQueue.Put>)
  {
    var combos := Product(movingTraj);
    && count <= |combos|
    && (forall k: nat :: k in all <==> k < count)
    && (forall k :: 0 <= k < count ==>
          && PlacedAt(config.drones, IndicesWhere(config.drones, true), combos[k], all[k].droneLocations)
          && engine(config, all[k].droneLocations) == Some(all[k].results))
    && puts == ProgressPuts(config.jobId, count, ProdLens(movingTraj), pct)
  }

  /** Simulating combination `i` extends the record of the first `i` by one entry and one progress update. */
  lemma CombinationDone(config: Config, movingTraj: seq<seq<Point>>, engine: Engine, pct: Percent,
                        i: nat, all: map<nat, StepRecord>, puts: seq<JobQueue.Put>, locs: seq<Point>, results: Object)
    requires CombinationsDone(config, movingTraj, engine, pct, i, all, puts)
    requires i < |Product(movingTraj)|
    requires PlacedAt(config.drones, IndicesWhere(config.drones, true), Product(movingTraj)[i], locs)
    requires engine(config, locs) == Some(results)
    ensures CombinationsDone(config, movingTraj, engine, pct, i + 1, all[i := StepRecord(locs, results)],
                             puts + [StatusPut(config.jobId, "processing", pct(i + 1, ProdLens(movingTraj)), None)])
  {
    var puts' := puts + [StatusPut(config.jobId, "processing", pct(i + 1, ProdLens(movingTraj)), None)];
    assert puts' == ProgressPuts(config.jobId, i + 1, ProdLens(movingTraj), pct);
    var all' := all[i := StepRecord(locs, results)];
    forall k | 0 <= k < i + 1
      ensures PlacedAt(config.drones, IndicesWhere(config.drones, true), Product(movingTraj)[k], all'[k].droneLocations)
      ensures engine(config, all'[k].droneLocations) == Some(all'[k].results)
    {
      if k < i {
        assert all'[k] == all[k];
      }
    }
  }

  /** The loop over the product of the moving trajectories, stopping at the first engine failure. */
  method RunCombinations(config: Config, movingTraj: seq<seq<Point>>, engine: Engine, pct: Percent)
    returns (puts: seq<JobQueue.Put>, outcome: Result<map<nat, StepRecord>, SimError>)
    requires |movingTraj| == |IndicesWhere(config.drones, true)|
    ensures outcome.Success? || outcome == Failure(EngineFailed)
    ensures ProcessingUpdates(config.jobId, puts)
    ensures outcome.Success? ==>
              CombinationsDone(config, movingTraj, engine, pct, |Product(movingTraj)|, outcome.value, puts)
    ensures outcome.Failure? ==>
              exists i: nat, all, locs ::
                && CombinationsDone(config, movingTraj, engine, pct, i, all, puts)
                && i < |Product(movingTraj)|
                && PlacedAt(config.drones, IndicesWhere(config.drones, true), Product(movingTraj)[i], locs)
                && engine(config, locs).None?
  {
    var combos := Product(movingTraj);
    var total := ProdLens(movingTraj);
    var all: map<nat, StepRecord> := map[];
    puts := [];
    var i := 0;
    while i < |combos|
      invariant CombinationsDone(config, movingTraj, engine, pct, i, all, puts)
    {
      var combination := combos[i];
      ProductWidth(movingTraj, i);
      var locations := PlaceDrones(config.drones, combination);
      var stepResults := engine(config, locations);
      if stepResults.None? {
        outcome := Failure(EngineFailed);
        return;
      }
      CombinationDone(config, movingTraj, engine, pct, i, all, puts, locations, stepResults.value);
      all := all[i := StepRecord(locations, stepResults.value)];
      puts := puts + [StatusPut(config.jobId, "processing", pct(i + 1, total), None)];
      i := i + 1;
    }
    outcome := Success(all);
  }

  method RunIndependent(config: Config, traj: seq<seq<Point>>, engine: Engine, pct: Percent)
    returns (puts: seq<JobQueue.Put>, outcome: Result<map<nat, StepRecord>, SimError>)
    ensures outcome.Success? || outcome == Failure(IndexError) || outcome == Failure(EngineFailed)
    ensures ProcessingUpdates(config.jobId, puts)
    ensures outcome == Failure(IndexError) <==> !MovingFits(traj, IndicesWhere(config.drones, true))
    ensures outcome == Failure(IndexError) ==> puts == []
    ensures outcome.Success? ==>
              && MovingFits(traj, IndicesWhere(config.drones, true))
              && var movingTraj := MovingTrajectories(traj, IndicesWhere(config.drones, true));
                 CombinationsDone(config, movingTraj, engine, pct, |Product(movingTraj)|, outcome.value, puts)
    ensures outcome == Failure(EngineFailed) ==>
              && MovingFits(traj, IndicesWhere(config.drones, true))
              && var movingTraj := MovingTrajectories(traj, IndicesWhere(config.drones, true));
                 exists i: nat, all, locs ::
                   && CombinationsDone(config, movingTraj, engine, pct, i, all, puts)
                   && i < |Product(movingTraj)|
                   && PlacedAt(config.drones, IndicesWhere(config.drones, true), Product(movingTraj)[i], locs)
                   && engine(config, locs).None?
  {
    var moving := IndicesWhere(config.drones, true);
    if exists j :: 0 <= j < |moving| && moving[j] >= |traj| {
      puts := [];
      outcome := Failure(IndexError);
      return;
    }
    puts, outcome := RunCombinations(config, MovingTrajectories(traj, moving), engine, pct);
  }

  // ---- the whole run ----

  /**
   * All steps of the configured mode were simulated: every step of the shared
   * trajectories in move-together mode, every combination of the moving drones'
   * trajectory points otherwise.
   */
  ghost predicate ModeDone(config: Config, traj: seq<seq<Point>>, engine: Engine, pct: Percent,
                           all: map<nat, StepRecord>, puts: seq<JobQueue.Put>)
  {
    if config.moveTogether then
      StepsDone(config, traj, engine, pct, Max0(config.simulationSteps), all, puts)
    else
      && MovingFits(traj, IndicesWhere(config.drones, true))
      && var movingTraj := MovingTrajectories(traj, IndicesWhere(config.drones, true));
         CombinationsDone(config, movingTraj, engine, pct, |Product(movingTraj)|, all, puts)
  }

  /**
   * The completed result has one entry per iteration: `steps` entries in move-together
   * mode, the product of the moving trajectories' lengths in independent mode.
   */
  lemma CompletedResultsSize(config: Config, traj: seq<seq<Point>>, engine: Engine, pct: Percent,
                             all: map<nat, StepRecord>, puts: seq<JobQueue.Put>)
    requires ModeDone(config, traj, engine, pct, all, puts)
    ensures config.moveTogether ==> |ResultsDoc(all)["results"].fields| == Max0(config.simulationSteps)
    ensures !config.moveTogether ==>
              |ResultsDoc(all)["results"].fields| == ProdLens(MovingTrajectories(traj, IndicesWhere(config.drones, true)))
  {
    ResultsDocEntries(all);
    if config.moveTogether {
      KeysBelow(all, Max0(config.simulationSteps));
    } else {
      var movingTraj := MovingTrajectories(traj, IndicesWhere(config.drones, true));
      KeysBelow(all, |Product(movingTraj)|);
      ProductSpec(movingTraj);
    }
  }

  /** The two modes of `run_simulation`, once the trajectories are there. */
  method RunMode(config: Config, traj: seq<seq<Point>>, engine: Engine, pct: Percent)
    returns (puts: seq<JobQueue.Put>, outcome: Result<map<nat, StepRecord>, SimError>)
    requires Uniform(traj, config.simulationSteps)
    ensures ProcessingUpdates(config.jobId, puts)
    ensures outcome.Success? ==> ModeDone(config, traj, engine, pct, outcome.value, puts)
  {
    if config.moveTogether {
      puts, outcome := RunTogether(config, traj, engine, pct);
    } else {
      puts, outcome := RunIndependent(config, traj, engine, pct);
    }
  }

  /**
   * `run_simulation`: returns the updates it sends for `config.job_id`, in order,
   * and either the step results or the exception that ended the run.
   */
  method RunSimulation(config: Config, geo: Geometry, engine: Engine, pct: Percent)
    returns (puts: seq<JobQueue.Put>, outcome: Result<map<nat, StepRecord>, SimError>)
    ensures |puts| >= 1 && puts[0] == StatusPut(config.jobId, "processing", 0, None)
    ensures outcome.Failure? ==> ProcessingUpdates(config.jobId, puts)
    ensures outcome.Success? ==>
              && |puts| >= 2
              && ProcessingUpdates(config.jobId, puts[..|puts| - 1])
              && puts[|puts| - 1] == StatusPut(config.jobId, "completed", 100, Some(ResultsDoc(outcome.value)))
    ensures Trajectories(config.drones, config.simulationSteps, geo).Failure? ==>
              outcome == Failure(Trajectories(config.drones, config.simulationSteps, geo).error) && |puts| == 1
    ensures outcome.Success? ==>
              ModeDone(config, Trajectories(config.drones, config.simulationSteps, geo).value, engine, pct,
                       outcome.value, puts[1..|puts| - 1])
  {
    var start := StatusPut(config.jobId, "processing", 0, None);
    var trajectories := CalculateTrajectories(config.drones, config.simulationSteps, geo);
    if trajectories.Failure? {
      puts := [start];
      outcome := Failure(trajectories.error);
      return;
    }
    TrajectoriesShape(config.drones, config.simulationSteps, geo);
    ghost var traj := Trajectories(config.drones, config.simulationSteps, geo).value;
    assert trajectories.value == traj;
    var steps;
    steps, outcome := RunMode(config, trajectories.value, engine, pct);
    var sent := [start] + steps;
    assert ProcessingUpdates(config.jobId, sent) by {
      forall j | 1 <= j < |sent| ensures sent[j] == steps[j - 1] { }
    }
    if outcome.Failure? {
      puts := sent;
      return;
    }
    puts := sent + [StatusPut(config.jobId, "completed", 100, Some(ResultsDoc(outcome.value)))];
    assert puts[..|puts| - 1] == sent;
    assert puts[1..|puts| - 1] == steps;
  }
}
