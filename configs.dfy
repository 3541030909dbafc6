/**
 * The simulation configuration records and their defaults, and their construction
 * from a JSON object, as the worker builds a `Config` from a job's config: a field that is
 * absent takes its default, a required field that is absent or of the wrong JSON
 * type makes the construction fail, and keys the record does not declare are ignored.
 */
module Configs {
  import opened Wrappers
  import opened Json

  /** A 3D position, `List[float]`; coordinates are not interpreted by the model. */
  type Point = seq<real>

  datatype RadioConfig = RadioConfig(frequency: real, bandwidth: real)

  datatype AntennaConfig = AntennaConfig(
    numRows: int,
    numCols: int,
    verticalSpacing: real,
    horizontalSpacing: real,
    pattern: string,
    polarization: string)

  datatype Motion = Motion(motionType: string, radius: real, endPosition: Option<Point>)

  datatype Drone = Drone(location: Point, hasMotion: bool, motion: Option<Motion>)

  datatype Config = Config(
    jobId: string,
    sceneName: string,
    simulationSteps: int,
    moveTogether: bool,
    antennaConfigs: AntennaConfig,
    radioConfigs: RadioConfig,
    drones: seq<Drone>)

  // Defaults declared on the records.
  const DefaultFrequency: real := 6000000000.0   // 6e9
  const DefaultBandwidth: real := 500000000.0    // 500e6
  const DefaultSteps: int := 5

  // ---- conversions of single JSON values ----

  /** A float field accepts a JSON integer or float. */
  function AsFloat(j: Json): Option<real> {
    match j
    case JInt(i) => Some(i as real)
    case JFloat(r) => Some(r)
    case _ => None
  }

  function AsInt(j: Json): Option<int> {
    if j.JInt? then Some(j.i) else None
  }

  function AsBool(j: Json): Option<bool> {
    if j.JBool? then Some(j.b) else None
  }

  function AsStr(j: Json): Option<string> {
    if j.JStr? then Some(j.s) else None
  }

  /** Converts every element, failing when any element fails. */
  function AllOf<T>(items: seq<Json>, conv: Json -> Option<T>): (r: Option<seq<T>>)
    ensures r.Some? ==> |r.value| == |items| && forall i :: 0 <= i < |items| ==> conv(items[i]) == Some(r.value[i])
    ensures r.None? ==> exists i :: 0 <= i < |items| && conv(items[i]).None?
    decreases |items|
  {
    if items == [] then Some([])
    else match conv(items[0])
      case None => None
      case Some(x) =>
        match AllOf(items[1..], conv)
        case None => None
        case Some(rest) => Some([x] + rest)
  }

  /** `List[float]`: a JSON array of numbers. */
  function AsPoint(j: Json): Option<Point> {
    if j.JArr? then AllOf(j.items, AsFloat) else None
  }

  /** A field with a default: absent means the default, present must convert. */
  function WithDefault<T>(obj: Object, key: string, conv: Json -> Option<T>, default: T): (r: Option<T>)
    ensures key !in obj ==> r == Some(default)
    ensures key in obj ==> r == conv(obj[key])
  {
    if key in obj then conv(obj[key]) else Some(default)
  }

  /** A required field: absent is a validation error. */
  function Required<T>(obj: Object, key: string, conv: Json -> Option<T>): (r: Option<T>)
    ensures key !in obj ==> r.None?
    ensures key in obj ==> r == conv(obj[key])
  {
    if key in obj then conv(obj[key]) else None
  }

  /** An `Optional[...]` field: absent or `null` means None. */
  function OptionalField<T>(obj: Object, key: string, conv: Json -> Option<T>): (r: Option<Option<T>>)
    ensures key !in obj || obj[key] == JNull ==> r == Some(None)
  {
    if key !in obj || obj[key] == JNull then Some(None)
    else match conv(obj[key])
      case None => None
      case Some(v) => Some(Some(v))
  }

  /** A field with a default holds `v`: the given value when present, the default otherwise. */
  predicate FieldIs<T(==)>(obj: Object, key: string, conv: Json -> Option<T>, default: T, v: T) {
    if key in obj then conv(obj[key]) == Some(v) else v == default
  }

  /** A field with a default is acceptable: absent, or present with a value of the right type. */
  predicate Converts<T>(obj: Object, key: string, conv: Json -> Option<T>) {
    key !in obj || conv(obj[key]).Some?
  }

  /** An `Optional[...]` field holds `v`: None when absent or `null`, the converted value otherwise. */
  predicate OptionalIs<T(==)>(obj: Object, key: string, conv: Json -> Option<T>, v: Option<T>) {
    if key !in obj || obj[key] == JNull then v == None else v.Some? && conv(obj[key]) == v
  }

  /** An `Optional[...]` field is acceptable: absent, `null`, or a value of the right type. */
  predicate OptionalConverts<T>(obj: Object, key: string, conv: Json -> Option<T>) {
    key !in obj || obj[key] == JNull || conv(obj[key]).Some?
  }

  // ---- the records ----

  function ParseRadioConfig(j: Json): (r: Option<RadioConfig>)
    ensures r.Some? <==> j.JObj? && Converts(j.fields, "frequency", AsFloat) && Converts(j.fields, "bandwidth", AsFloat)
    ensures r.Some? ==> FieldIs(j.fields, "frequency", AsFloat, DefaultFrequency, r.value.frequency)
    ensures r.Some? ==> FieldIs(j.fields, "bandwidth", AsFloat, DefaultBandwidth, r.value.bandwidth)
  {
    if !j.JObj? then None
    else
      var o := j.fields;
      match (WithDefault(o, "frequency", AsFloat, DefaultFrequency), WithDefault(o, "bandwidth", AsFloat, DefaultBandwidth))
      case (Some(f), Some(b)) => Some(RadioConfig(f, b))
      case _ => None
  }

  function ParseAntennaConfig(j: Json): (r: Option<AntennaConfig>)
    ensures r.Some? <==>
              && j.JObj?
              && Converts(j.fields, "num_rows", AsInt) && Converts(j.fields, "num_cols", AsInt)
              && Converts(j.fields, "vertical_spacing", AsFloat) && Converts(j.fields, "horizontal_spacing", AsFloat)
              && Converts(j.fields, "pattern", AsStr) && Converts(j.fields, "polarization", AsStr)
    ensures r.Some? ==> FieldIs(j.fields, "num_rows", AsInt, 1, r.value.numRows)
    ensures r.Some? ==> FieldIs(j.fields, "num_cols", AsInt, 1, r.value.numCols)
    ensures r.Some? ==> FieldIs(j.fields, "vertical_spacing", AsFloat, 0.0, r.value.verticalSpacing)
    ensures r.Some? ==> FieldIs(j.fields, "horizontal_spacing", AsFloat, 0.0, r.value.horizontalSpacing)
    ensures r.Some? ==> FieldIs(j.fields, "pattern", AsStr, "iso", r.value.pattern)
    ensures r.Some? ==> FieldIs(j.fields, "polarization", AsStr, "H", r.value.polarization)
  {
    if !j.JObj? then None
    else
      var o := j.fields;
      var rows := WithDefault(o, "num_rows", AsInt, 1);
      var cols := WithDefault(o, "num_cols", AsInt, 1);
      var vs := WithDefault(o, "vertical_spacing", AsFloat, 0.0);
      var hs := WithDefault(o, "horizontal_spacing", AsFloat, 0.0);
      var pat := WithDefault(o, "pattern", AsStr, "iso");
      var pol := WithDefault(o, "polarization", AsStr, "H");
      if rows.Some? && cols.Some? && vs.Some? && hs.Some? && pat.Some? && pol.Some? then
        Some(AntennaConfig(rows.value, cols.value, vs.value, hs.value, pat.value, pol.value))
      else None
  }

  function ParseMotion(j: Json): (r: Option<Motion>)
    ensures r.Some? <==>
              && j.JObj?
              && "motion_type" in j.fields && j.fields["motion_type"].JStr?
              && Converts(j.fields, "radius", AsFloat)
              && OptionalConverts(j.fields, "end_position", AsPoint)
    ensures r.Some? ==> j.fields["motion_type"] == JStr(r.value.motionType)
    ensures r.Some? ==> FieldIs(j.fields, "radius", AsFloat, 0.0, r.value.radius)
    ensures r.Some? ==> OptionalIs(j.fields, "end_position", AsPoint, r.value.endPosition)
  {
    if !j.JObj? then None
    else
      var o := j.fields;
      var mt := Required(o, "motion_type", AsStr);
      var rad := WithDefault(o, "radius", AsFloat, 0.0);
      var endPos := OptionalField(o, "end_position", AsPoint);
      if mt.Some? && rad.Some? && endPos.Some? then Some(Motion(mt.value, rad.value, endPos.value))
      else None
  }

  function ParseDrone(j: Json): (r: Option<Drone>)
    ensures r.Some? <==>
              && j.JObj?
              && "location" in j.fields && AsPoint(j.fields["location"]).Some?
              && Converts(j.fields, "has_motion", AsBool)
              && OptionalConverts(j.fields, "motion", ParseMotion)
    ensures r.Some? ==> AsPoint(j.fields["location"]) == Some(r.value.location)
    ensures r.Some? ==> FieldIs(j.fields, "has_motion", AsBool, false, r.value.hasMotion)
    ensures r.Some? ==> OptionalIs(j.fields, "motion", ParseMotion, r.value.motion)
  {
    if !j.JObj? then None
    else
      var o := j.fields;
      var loc := Required(o, "location", AsPoint);
      var hm := WithDefault(o, "has_motion", AsBool, false);
      var mo := OptionalField(o, "motion", ParseMotion);
      if loc.Some? && hm.Some? && mo.Some? then Some(Drone(loc.value, hm.value, mo.value))
      else None
  }

  /** Builds a `Config` from a document; None is a validation error. */
  function ParseConfig(o: Object): (r: Option<Config>)
    ensures r.Some? <==>
              && "job_id" in o && o["job_id"].JStr?
              && "scene_name" in o && o["scene_name"].JStr?
              && Converts(o, "simulation_steps", AsInt) && Converts(o, "move_together", AsBool)
              && "antenna_configs" in o && ParseAntennaConfig(o["antenna_configs"]).Some?
              && "radio_configs" in o && ParseRadioConfig(o["radio_configs"]).Some?
              && "drones" in o && o["drones"].JArr?
              && forall i :: 0 <= i < |o["drones"].items| ==> ParseDrone(o["drones"].items[i]).Some?
    ensures r.Some? ==> o["job_id"] == JStr(r.value.jobId) && o["scene_name"] == JStr(r.value.sceneName)
    ensures r.Some? ==> FieldIs(o, "simulation_steps", AsInt, DefaultSteps, r.value.simulationSteps)
    ensures r.Some? ==> FieldIs(o, "move_together", AsBool, true, r.value.moveTogether)
    ensures r.Some? ==> ParseAntennaConfig(o["antenna_configs"]) == Some(r.value.antennaConfigs)
    ensures r.Some? ==> ParseRadioConfig(o["radio_configs"]) == Some(r.value.radioConfigs)
    ensures r.Some? ==>
              && |r.value.drones| == |o["drones"].items|
              && forall i :: 0 <= i < |o["drones"].items| ==> ParseDrone(o["drones"].items[i]) == Some(r.value.drones[i])
  {
    var jobId := Required(o, "job_id", AsStr);
    var scene := Required(o, "scene_name", AsStr);
    var steps := WithDefault(o, "simulation_steps", AsInt, DefaultSteps);
    var together := WithDefault(o, "move_together", AsBool, true);
    var antenna := Required(o, "antenna_configs", ParseAntennaConfig);
    var radio := Required(o, "radio_configs", ParseRadioConfig);
    var drones := Required(o, "drones", (j: Json) => if j.JArr? then AllOf(j.items, ParseDrone) else None);
    if jobId.Some? && scene.Some? && steps.Some? && together.Some? && antenna.Some? && radio.Some? && drones.Some? then
      Some(Config(jobId.value, scene.value, steps.value, together.value, antenna.value, radio.value, drones.value))
    else None
  }

  /** A document that gives only the required fields, with empty antenna and radio objects. */
  function MinimalDoc(jobId: string, scene: string, drones: seq<Json>): Object {
    map["job_id" := JStr(jobId), "scene_name" := JStr(scene),
        "antenna_configs" := JObj(map[]), "radio_configs" := JObj(map[]),
        "drones" := JArr(drones)]
  }

  /** A document that gives only the required fields gets every default. */
  lemma MinimalConfig(jobId: string, scene: string, drones: seq<Json>, ds: seq<Drone>)
    requires AllOf(drones, ParseDrone) == Some(ds)
    ensures ParseConfig(MinimalDoc(jobId, scene, drones))
         == Some(Config(jobId, scene, DefaultSteps, true,
                        AntennaConfig(1, 1, 0.0, 0.0, "iso", "H"),
                        RadioConfig(DefaultFrequency, DefaultBandwidth), ds))
  {
    MinimalFields(jobId, scene, drones);
  }

  /** How each field of the minimal document converts. */
  lemma MinimalFields(jobId: string, scene: string, drones: seq<Json>)
    ensures var o := MinimalDoc(jobId, scene, drones);
            && Required(o, "job_id", AsStr) == Some(jobId)
            && Required(o, "scene_name", AsStr) == Some(scene)
            && WithDefault(o, "simulation_steps", AsInt, DefaultSteps) == Some(DefaultSteps)
            && WithDefault(o, "move_together", AsBool, true) == Some(true)
            && Required(o, "antenna_configs", ParseAntennaConfig) == Some(AntennaConfig(1, 1, 0.0, 0.0, "iso", "H"))
            && Required(o, "radio_configs", ParseRadioConfig) == Some(RadioConfig(DefaultFrequency, DefaultBandwidth))
            && "drones" in o && o["drones"] == JArr(drones)
  {
    DefaultSubConfigs();
  }

  /** An empty object gives the default antenna and radio records. */
  lemma DefaultSubConfigs()
    ensures ParseAntennaConfig(JObj(map[])) == Some(AntennaConfig(1, 1, 0.0, 0.0, "iso", "H"))
    ensures ParseRadioConfig(JObj(map[])) == Some(RadioConfig(DefaultFrequency, DefaultBandwidth))
  {
  }

  /** A drone given only its location is stationary. */
  lemma MinimalDrone(loc: seq<Json>, p: Point)
    requires AllOf(loc, AsFloat) == Some(p)
    ensures ParseDrone(JObj(map["location" := JArr(loc)])) == Some(Drone(p, false, None))
  {
  }
}
