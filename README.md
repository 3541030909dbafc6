# Drone radio simulation: job bookkeeping in Dafny

This project models the bookkeeping around a ray-tracing simulation service and
proves properties of that model. The service has five parts, and the model has a
module for each:

- **Job registry** (`JobQueue`). It is a FastAPI service over Redis. Each job is a
  Redis hash `job:<id>`, and the list `jobs` holds the job ids. The endpoints
  create, list, get, update and delete jobs. The class `JobStore` holds the hashes
  (`records`) and the list (`ids`) as fields. Its methods are the endpoints, with
  the Redis meanings: HSET merges fields, LPUSH prepends, LRANGE 0 -1 reads the
  whole list, LREM with count 0 removes every occurrence, and DELETE drops the hash.
- **Simulation worker** (`Worker`). Each poll lists the jobs, keeps the pending
  ones and runs them in list order. Any exception raised while parsing a config or
  simulating turns into a "failed" update with progress 0.
- **Simulation run** (`Simulate`). It builds one trajectory per drone that has no
  motion or a 'line' or 'circle' motion (a drone with another motion type gets
  none, which shifts the later trajectories' indices), then runs
  the engine in one of two modes. In move-together mode it runs once per step. In
  independent mode it runs once per combination of the moving drones' trajectory
  points. It fills the results dictionary and reports progress with PUT requests
  to the registry. The ray-tracing engine step is an opaque parameter that may
  fail.
- **Configuration records** (`Configs`). These are the pydantic records with their
  defaults, and their construction from a JSON object.
- **Material patch script** (`HumanMaterial`). It adds a `"human"` entry to two
  dictionary literals of the ray tracer's material tables. The model treats it as
  a text transformation and models the regular-expression search exactly.

Supporting modules:

- `Wrappers` defines `Option` and `Result`.
- `Json` defines JSON documents.
- `Decimal` models the decimal text Redis stores for an integer.

The registry and the worker check nothing about the life of a job:

- `update_job` writes any status and any progress to an existing job, with no
  check of the transition.
- The listing is newest first, because ids are prepended.
- A resubmitted id is listed twice; there is no duplicate check.
- A job goes straight from "pending" to "failed" when its config does not parse,
  because the worker does not mark a job before running it.

## Model

| member | source | states |
|---|---|---|
| Configs.ParseRadioConfig | simulation/app/models/configs.py:5-7 | Succeeds exactly on an object whose given fields are numbers; each field holds its given value, or its default (frequency 6e9, bandwidth 500e6) when absent |
| Configs.ParseAntennaConfig | simulation/app/models/configs.py:9-15 | Succeeds exactly on an object whose given fields have the right types; each field holds its given value, or its default when absent (1 row, 1 column, spacings 0, pattern "iso", polarization "H") |
| Configs.ParseMotion | simulation/app/models/configs.py:17-20 | Succeeds exactly on an object with a `motion_type` string, a numeric `radius` if given and a numeric list or `null` as `end_position` if given; it keeps the motion type, the given radius or 0.0, and the given end position or None when absent or `null` |
| Configs.ParseDrone | simulation/app/models/configs.py:22-25 | Succeeds exactly on an object with a numeric `location` list, a boolean `has_motion` if given and a parsable motion or `null` as `motion` if given; it keeps the location, the given `has_motion` or false, and the parsed motion or None when absent or `null` |
| Configs.ParseConfig | simulation/app/models/configs.py:27-34 | Succeeds exactly when `job_id` and `scene_name` are strings, the antenna and radio configs and every drone parse, and any given steps and move_together have the right types; the record holds the given job id and scene, the parsed sub-records, drone i parsed from array element i, and steps and move_together as given or 5 and true when absent |
| Configs.MinimalConfig | simulation/app/models/configs.py:5-34 | A document with only the required fields and empty sub-objects parses to the record with every default |
| Configs.MinimalDrone | simulation/app/models/configs.py:22-25 | A drone given only its location is stationary, with no motion |
| Configs.DefaultSubConfigs | simulation/app/models/configs.py:5-15 | An empty object gives the antenna and radio records with every default |
| Decimal.ParseShow | database/job_queue.py:142-143 | `int()` of the text stored for an integer progress gives that integer back |
| Decimal.ShowInjective | simulation/app/services/simulate.py:39-42 | Distinct integers have distinct decimal texts, so the integer step keys stay distinct when the completed update is encoded as JSON |
| JobQueue.UpdateFields | database/job_queue.py:174-182 | An update writes status, progress and `updated_at`, plus `result` only when one is carried |
| JobQueue.ReadJob | database/job_queue.py:134-144 | A hash that reads as a job has that job's id and config stored in it |
| JobQueue.JobStore.constructor | database/job_queue.py:13-18 | The empty Redis database behind the client: no hashes, empty `jobs` list |
| JobQueue.JobStore.CreateJob | database/job_queue.py:80-125 | The id is the config's `job_id` when present, otherwise the fresh id; a non-text `job_id` fails and changes nothing; the returned job is pending, progress 0, created = updated = now, no result; its fields are merged into any old hash; the id is prepended to the list |
| JobQueue.JobStore.ListJobs | database/job_queue.py:127-146 | The loop returns the listing: the jobs of the listed ids in list order, ids without a hash skipped, the whole request failing on a hash that does not validate |
| JobQueue.JobStore.GetJob | database/job_queue.py:148-164 | Not found for an id without a hash; otherwise the job that hash validates to, or the validation error |
| JobQueue.JobStore.UpdateJob | database/job_queue.py:166-186 | Not found and no change for an unknown id; otherwise the update's fields are merged into the hash, with no status, progress or transition check; the list is unchanged; the store stays well formed |
| JobQueue.JobStore.DeleteJob | database/job_queue.py:188-201 | Not found and no change for an unknown id; otherwise every occurrence of the id leaves the list and its hash is dropped |
| JobQueue.StoredJobWellFormed | database/job_queue.py:97-107 | Writing a job over an empty or well-formed hash of the same id leaves a hash with every `Job` field in its stored form |
| JobQueue.LaterIdsKeepFailure | database/job_queue.py:133-144 | One hash that fails validation fails the whole listing, wherever it sits in the list |
| JobQueue.LremMembers | database/job_queue.py:196 | LREM removes the id completely, keeps every other id, and shortens the list by the number of occurrences |
| JobQueue.WellFormedReads | database/job_queue.py:134-144 | A well-formed hash always validates, under its own id, and its config names no other id |
| JobQueue.StoredJobReadsBack | database/job_queue.py:97-164 | Reading back a stored job gives the job as written, with config unchanged and progress as an integer, except that an older stored result survives when the job has none |
| JobQueue.UpdatedJobReadsBack | database/job_queue.py:166-184 | After an update, the job read back has the update's status and progress and the new `updated_at`; id, config and `created_at` are kept, and the old result is kept unless the update carries one |
| JobQueue.ListingOfConsistent | database/job_queue.py:127-146 | On a consistent store the listing succeeds with exactly one job per list entry, the entry's id, in list order |
| JobQueue.ValidIsConsistent | database/job_queue.py:107-109 | The store invariant (every hash well formed, list and hashes name the same ids) makes every list entry readable |
| JobQueue.PushedConsistent | database/job_queue.py:107-109 | Storing a job over an empty or well-formed hash and pushing its id keeps every list entry readable |
| JobQueue.PushedListing | database/job_queue.py:127-146 | After a push the listing holds the pushed entry first and then one job per older entry, with that entry's id, in order |
| JobQueue.NewestListedFirst | database/job_queue.py:107-109 | After a create, the listing starts with the new job (with any older result merged in) and then lists every older entry, in order |
| JobQueue.ResubmittedIdListedTwice | database/job_queue.py:84-109 | Submitting an id already listed lists it once more, both copies showing the same merged job |
| JobQueue.LremConsistent | database/job_queue.py:196-199 | Removing an id from the list and its hash from the store keeps the store consistent |
| JobQueue.DeletedJobNotListed | database/job_queue.py:188-201 | After a delete the listing shows no job with that id, and every other listed id is still shown |
| JobQueue.LastPutWins | database/job_queue.py:166-184 | After a run of updates, a job's status and progress are those of the last update addressed to it |
| JobQueue.PutsKeepWellFormed | database/job_queue.py:166-184 | Updates never add or remove a job, nor break the shape of a stored hash |
| JobQueue.ApplyPutsAppend | database/job_queue.py:166-186 | Two runs of updates sent one after the other have the effect of their concatenation |
| Simulate.CirclePoint | simulation/app/services/simulate.py:61-77 | A circle point is three coordinates and keeps the drone's z |
| Simulate.TrajectoryOf | simulation/app/services/simulate.py:52-80 | A drone adds a trajectory exactly when it has no motion or a 'line' or 'circle' motion; it has `steps` points (none when steps is not positive); a stationary drone repeats its location; circle points keep z; only a moving drone can raise |
| Simulate.CalculateTrajectories | simulation/app/services/simulate.py:48-81 | The loop builds the trajectory list of the drones in order, or ends with the exception of the first drone that raises |
| Simulate.FailureSticks | simulation/app/services/simulate.py:51-78 | An exception for one drone ends the whole calculation with that exception |
| Simulate.TrajectoriesShape | simulation/app/services/simulate.py:48-81 | There is one trajectory per contributing drone, at most one per drone, each of exactly `steps` points |
| Simulate.TrajectoryIndex | simulation/app/services/simulate.py:51-81 | A contributing drone's trajectory sits at the index given by the number of contributing drones before it |
| Simulate.AlignedTrajectories | simulation/app/services/simulate.py:202-203 | When every drone contributes, trajectory i belongs to drone i |
| Simulate.Misaligned | simulation/app/services/simulate.py:52-78 | A drone with an unknown motion type makes the next drone's trajectory take its index |
| Simulate.GatherLocations | simulation/app/services/simulate.py:201-204 | The inner loop collects point k of each drone's trajectory, or raises an index error when there are fewer trajectories than drones |
| Simulate.StepDone | simulation/app/services/simulate.py:200-217 | One more simulated step adds its entry to the results and one progress update |
| Simulate.RunTogether | simulation/app/services/simulate.py:196-217 | Move-together mode: on success, results have keys 0..steps-1, entry k holds the drones' k-th points and the engine's answer for them, and one progress update follows each step; an index error exactly when there are fewer trajectories than drones (and steps are run); an engine failure stops at that step |
| Simulate.IndicesWhere | simulation/app/services/simulate.py:221-222 | The moving (or stationary) drone indices are exactly the drones with `has_motion` set (or not set) |
| Simulate.IndicesWhereIncreasing | simulation/app/services/simulate.py:221-222 | The indices come in the drones' order |
| Simulate.Prepend | simulation/app/services/simulate.py:228 | Pairing each head point with each rest gives their product number of combinations |
| Simulate.PrependMembers | simulation/app/services/simulate.py:228 | A sequence is among the pairings exactly when its head is a head point and its rest is one of the rests |
| Simulate.ProductSpec | simulation/app/services/simulate.py:228-230 | The combinations are exactly the choices of one point per moving trajectory, and there are as many as the product of the trajectory lengths |
| Simulate.ProductWidth | simulation/app/services/simulate.py:238-240 | Each combination has one point per moving drone |
| Simulate.PlacementUnique | simulation/app/services/simulate.py:234-247 | A combination determines the location of every drone |
| Simulate.PlaceDrones | simulation/app/services/simulate.py:234-251 | Moving drone j takes the j-th point of the combination; every stationary drone sits at its configured location |
| Simulate.CombinationDone | simulation/app/services/simulate.py:233-262 | One more simulated combination adds its entry to the results and one progress update |
| Simulate.RunCombinations | simulation/app/services/simulate.py:228-262 | On success, results are keyed by combination index, each entry placed by its combination, with one progress update per combination; an engine failure stops at that combination |
| Simulate.RunIndependent | simulation/app/services/simulate.py:218-262 | Independent mode: an index error exactly when a moving drone index has no trajectory, otherwise the combination loop over the moving drones' trajectories |
| Simulate.ResultsDocEntries | simulation/app/services/simulate.py:265 | The results document has exactly one entry per step record |
| Simulate.ShownKeysCard | simulation/app/services/simulate.py:39-42 | A set of step indices gives as many distinct key texts as it has indices |
| Simulate.KeysBelow | simulation/app/services/simulate.py:194-262 | Step records keyed 0..count-1 are exactly count records |
| Simulate.CompletedResultsSize | simulation/app/services/simulate.py:196-265 | The completed result holds one entry per iteration: `steps` entries in move-together mode, the product of the moving trajectories' lengths in independent mode |
| Simulate.RunMode | simulation/app/services/simulate.py:196-262 | Only "processing" updates for the job; on success every step (move-together) or every combination (independent) was simulated |
| Simulate.RunSimulation | simulation/app/services/simulate.py:187-268 | First update ("processing", 0); a trajectory exception ends the run right after it; on failure only "processing" updates were sent; on success the last update is ("completed", 100) with the results document, after the progress updates of the mode |
| Worker.PendingJobs | simulation/app/worker.py:18 | A job is kept exactly when it is listed with status "pending" |
| Worker.PendingJobsAppend | simulation/app/worker.py:18 | The filter keeps list order: it distributes over concatenation |
| Worker.GetPendingJobs | simulation/app/worker.py:12-24 | A 200 answer gives its pending jobs in list order; any other status code, or a request that raised, gives the empty list |
| Worker.PutsLeaveOthers | simulation/app/services/simulate.py:28-46 | Updates addressed to one job leave every other job and the set of jobs as they were |
| Worker.Deliver | simulation/app/services/simulate.py:28-46 | Sending the updates one by one applies them in order; an update for an unknown job is ignored |
| Worker.FailureReported | simulation/app/worker.py:35-40 | A run that raised after its progress updates ends with the "failed" update with progress 0 |
| Worker.CompletionReported | simulation/app/services/simulate.py:265 | A completed run ends with ("completed", 100) and a result, after progress updates only |
| Worker.JobUpdates | simulation/app/worker.py:26-42 | The updates for a job are progress updates followed by one final update: "failed" with progress 0, or "completed" with 100 and a result; a config that does not parse gives only the "failed" update; a config naming the job addresses only that job |
| Worker.ProcessJob | simulation/app/worker.py:26-42 | The store receives exactly the updates returned, in order: progress updates then one final update; `process_job` never raises; a stored job whose config names no other job ends "failed" with 0 or "completed" with 100 |
| Worker.PollPending | simulation/app/worker.py:12-24 | With an answer, the pending jobs of the listing; without one, none; every returned job is stored and its config names no other job |
| Worker.StillFinished | simulation/app/worker.py:51-52 | Processing one job leaves the jobs processed before it in their final state |
| Worker.UnpolledNext | simulation/app/worker.py:51-52 | Processing one more job leaves every job not processed so far as it was |
| Worker.ProcessAll | simulation/app/worker.py:50-52 | The jobs are processed one after the other in their order: the store receives job 0's updates, then job 1's, and so on, each job's updates addressing only that job; every job ends "failed" with 0 or "completed" with 100; every job not polled keeps its hash; no job is added or removed |
| Worker.PollOnce | simulation/app/worker.py:48-56 | One iteration: the pending jobs of one listing, processed one after the other in list order, all end in a final state; jobs not pending keep their hashes; an unreachable registry changes nothing |
| Worker.NewestPendingFirst | database/job_queue.py:107-109 | A freshly created job heads the next poll's pending list |
| HumanMaterial.SkipSpace | simulation/add_human_material.py:33 | A greedy `\s*` takes the longest whitespace run |
| HumanMaterial.BraceAt | simulation/add_human_material.py:33 | What it finds is an opener `NAME\s*=\s*{` at that position |
| HumanMaterial.BraceAtFinds | simulation/add_human_material.py:33 | Whenever the opener occurs at a position, that position's search finds its brace |
| HumanMaterial.BlockAfter | simulation/add_human_material.py:33 | What it finds is a whitespace head after the brace, then an inner part, then a closing line `\n\s*}\s*` |
| HumanMaterial.BlockAfterBest | simulation/add_human_material.py:33 | Any way to finish the match after the brace ranks no higher in backtracking order (longest head, then shortest inner part) than the one found |
| HumanMaterial.MatchAt | simulation/add_human_material.py:33 | What it finds is a match of the whole pattern starting at that position |
| HumanMaterial.MatchAtBest | simulation/add_human_material.py:33 | Any match at a position ranks no higher than the one found there |
| HumanMaterial.Search | simulation/add_human_material.py:33 | A found match lies within the text, at or after the start position |
| HumanMaterial.SearchSpec | simulation/add_human_material.py:33 | The search returns the match `re.search` returns: a match of the pattern at the leftmost position that has one, first in backtracking order there; nothing exactly when no position matches |
| HumanMaterial.RStrip | simulation/add_human_material.py:38 | The result is a prefix that does not end in whitespace, and only whitespace was removed |
| HumanMaterial.WithComma | simulation/add_human_material.py:39-40 | The result ends in a comma; it is unchanged exactly when it already ended in one, otherwise one comma is appended |
| HumanMaterial.Splice | simulation/add_human_material.py:37-44 | The new text keeps everything up to the end of the head and everything from the start of the tail; between them sit the stripped inner part with its comma and the entry |
| HumanMaterial.Patch | simulation/add_human_material.py:27-46 | The skip outcome occurs exactly when the text already contains `"human"` |
| HumanMaterial.PatchNotFound | simulation/add_human_material.py:33-35 | The script exits without writing exactly when the block pattern matches nowhere |
| HumanMaterial.SpliceContains | simulation/add_human_material.py:42-44 | The patched text contains `"human"` |
| HumanMaterial.PatchIdempotent | simulation/add_human_material.py:29-44 | Patching a patched text changes nothing |
| HumanMaterial.PatchColorsIdempotent | simulation/add_human_material.py:27-46 | Running `patch_colors` twice is the same as running it once |
| HumanMaterial.PatchPropertiesIdempotent | simulation/add_human_material.py:48-70 | Running `patch_properties` twice is the same as running it once |
| HumanMaterial.EmptyBlockGetsLoneComma | simulation/add_human_material.py:37-40 | A block whose inner part is empty or whitespace still gets the comma, so the entry follows a lone `,` |

## Left out

- JSON text is not modelled. `json.dumps` and `json.loads` are treated as a round trip: a stored document is its value.
- Pydantic's lax coercions are not modelled. Examples are the text "5" for an int, or a number for a str. A JSON value of the wrong type is a validation error in the model. This includes a non-text `job_id` in `create_job`.
- Floating-point geometry is a parameter (`Geometry`) and is not interpreted:
  - line interpolation, `polar_to_cartesian` and its rounding;
  - the circle centre's offset sum.
- A NumPy shape mismatch between `location` and `end_position` of a 'line' motion raises in the source, and the job then ends "failed". The model's interpolation cannot fail, so it gives that drone a normal trajectory instead.
- Line motion with one step divides by zero in NumPy, which gives inf/nan rather than raising; the geometry parameter absorbs it.
- The progress percentage `int(done / total * 100)` is a parameter (`Percent`). Its truncation and rounding are not modelled.
- `np.prod` overflow is not modelled.
- `_run_sionna_step` is an opaque `Engine` parameter that returns a results object or fails. The engine is not given the step id, which is only used for naming. The model leaves out the index lookup that builds the step id, which always succeeds.
- HTTP transport is not modelled. A PUT becomes a call of `JobStore.UpdateJob`, and the list request becomes `JobStore.ListJobs` or no answer (`reachable`). A PUT that raises in transport or gets a non-200 reply is only logged in the source, and the model does not represent it.
- The simulation's updates are delivered after the run rather than interleaved with it. The simulation never reads the registry and ignores every reply, so the final store is the same, provided no other client writes during the run.
- Concurrency is left out:
  - the `/start_simulation` notification sent by `create_job`;
  - the background task it starts;
  - other clients writing during a run.
- Clocks and fresh ids are parameters. One `now` serves all the updates of one poll iteration.
- Logging, `tqdm`, the `while True` loop and `time.sleep(10)` of the worker are left out. `Worker.PollOnce` is one iteration.
- LastPutWins: states the status and progress of the last update, not the result (the result is covered, one update at a time, by `JobQueue.UpdatedJobReadsBack`).
- The patch script's file reads and writes, `print`, `sys.exit`, `find_site_packages` and `main` are left out. `PatchOutcome` stands for their outcomes.
- `get_model_folders`, `list_models`, `root`, the static-file mount and the `Response` record are not part of this model.
- simulation_ui.py, simulation/app/main.py, simulation/app/api/health.py, simulation/app/api/simulation.py and simulation/app/bootstrap_mitsuba.py are not part of this model.
