/**
 * The job registry: one Redis hash per job (key `job:<id>`) and one Redis list `jobs`
 * of job ids, edited by the create, list, get, update and delete endpoints.
 *
 * The hash of a job is a map from field names to stored values. HSET merges the
 * given fields into the hash, LPUSH prepends to the list, LRANGE 0 -1 reads the
 * whole list, LREM with count 0 removes every occurrence and DELETE drops the hash.
 * Integers are stored as their decimal text and documents as their serialisation.
 */
module JobQueue {
  import opened Wrappers
  import opened Json
  import Decimal

  /** The field names of a stored job hash (the attributes of `Job`). */
  datatype Field = IdField | StatusField | ProgressField | CreatedAtField | UpdatedAtField | ConfigField | ResultField

  /** A stored field value: plain text, or a document kept in serialised form. */
  datatype Value = Text(text: string) | Serialized(doc: Object)

  /** The hash stored for one job. */
  type Record = map<Field, Value>

  /** The `Job` response model. */
  datatype Job = Job(
    id: string,
    status: string,
    progress: int,
    createdAt: string,
    updatedAt: string,
    config: Object,
    result: Option<Object>)

  /** The `JobStatusUpdate` request body of `PUT /jobs/{id}`. */
  datatype StatusUpdate = StatusUpdate(status: string, progress: int, result: Option<Object>)

  /** One `PUT /jobs/{id}` request. */
  datatype Put = Put(jobId: string, update: StatusUpdate)

  /** The HTTP errors of the endpoints: 404, and the 500 a failed `Job(...)` validation gives. */
  datatype ApiError = NotFound | InvalidJobId | InvalidRecord

  const PendingStatus := "pending"

  // ---- the hash encoding of a job ----

  /** HSET with a mapping: the given fields overwrite, all other fields stay. */
  function Hset(rec: Record, fields: Record): (r: Record)
    ensures r.Keys == rec.Keys + fields.Keys
    ensures forall f :: f in fields ==> r[f] == fields[f]
    ensures forall f :: f in rec && f !in fields ==> r[f] == rec[f]
  {
    rec + fields
  }

  /** The fields of a job prepared for HSET: config serialised, result dropped when None. */
  function ToRecord(job: Job): Record {
    var base := map[
      IdField := Text(job.id),
      StatusField := Text(job.status),
      ProgressField := Text(Decimal.Show(job.progress)),
      CreatedAtField := Text(job.createdAt),
      UpdatedAtField := Text(job.updatedAt),
      ConfigField := Serialized(job.config)];
    if job.result.Some? then base[ResultField := Serialized(job.result.value)] else base
  }

  /** The fields of an update plus `updated_at`, prepared for HSET: result dropped when None. */
  function UpdateFields(u: StatusUpdate, now: string): (r: Record)
    ensures r.Keys == {StatusField, ProgressField, UpdatedAtField} + (if u.result.Some? then {ResultField} else {})
  {
    var base := map[
      StatusField := Text(u.status),
      ProgressField := Text(Decimal.Show(u.progress)),
      UpdatedAtField := Text(now)];
    if u.result.Some? then base[ResultField := Serialized(u.result.value)] else base
  }

  /** The result a record holds, if any. */
  function StoredResult(rec: Record): Option<Object> {
    if ResultField in rec && rec[ResultField].Serialized? then Some(rec[ResultField].doc) else None
  }

  function TextOr(rec: Record, f: Field, default: string): Option<string> {
    if f !in rec then Some(default)
    else if rec[f].Text? then Some(rec[f].text) else None
  }

  function RequiredText(rec: Record, f: Field): Option<string> {
    if f in rec && rec[f].Text? then Some(rec[f].text) else None
  }

  /**
   * Validation of a stored hash as a `Job`, after the endpoint has deserialised config
   * and result and converted progress to an integer: status and progress take their model defaults
   * when absent, id, timestamps and config are required. None is a failed validation.
   */
  function ReadJob(rec: Record): (r: Option<Job>)
    ensures r.Some? ==> IdField in rec && rec[IdField] == Text(r.value.id)
    ensures r.Some? ==> ConfigField in rec && rec[ConfigField] == Serialized(r.value.config)
  {
    var id := RequiredText(rec, IdField);
    var status := TextOr(rec, StatusField, PendingStatus);
    var progress :=
      if ProgressField !in rec then Some(0)
      else if rec[ProgressField].Text? then Decimal.Parse(rec[ProgressField].text)
      else None;
    var created := RequiredText(rec, CreatedAtField);
    var updated := RequiredText(rec, UpdatedAtField);
    var config := if ConfigField in rec && rec[ConfigField].Serialized? then Some(rec[ConfigField].doc) else None;
    var resultOk := ResultField !in rec || rec[ResultField].Serialized?;
    if id.Some? && status.Some? && progress.Some? && created.Some? && updated.Some? && config.Some? && resultOk then
      Some(Job(id.value, status.value, progress.value, created.value, updated.value, config.value, StoredResult(rec)))
    else None
  }

  // ---- store-level specification ----

  /** The id `create_job` uses: the config's `job_id` if present, otherwise the fresh one. */
  function IdFor(config: Object, freshId: string): Result<string, ApiError> {
    if "job_id" !in config then Success(freshId)
    else if config["job_id"].JStr? then Success(config["job_id"].s)
    else Failure(InvalidJobId)
  }

  /** The hash currently under an id; an absent key reads as the empty hash. */
  function Lookup(records: map<string, Record>, id: string): Record {
    if id in records then records[id] else map[]
  }

  /** The stored config names no other job id than the key it is stored under. */
  predicate ConfigIdAgrees(id: string, config: Object) {
    "job_id" in config ==> config["job_id"] == JStr(id)
  }

  /** What every stored hash looks like: all `Job` fields present, each in its stored form. */
  predicate WellFormed(id: string, rec: Record) {
    && IdField in rec && rec[IdField] == Text(id)
    && StatusField in rec && rec[StatusField].Text?
    && ProgressField in rec && rec[ProgressField].Text? && Decimal.Parse(rec[ProgressField].text).Some?
    && CreatedAtField in rec && rec[CreatedAtField].Text?
    && UpdatedAtField in rec && rec[UpdatedAtField].Text?
    && ConfigField in rec && rec[ConfigField].Serialized? && ConfigIdAgrees(id, rec[ConfigField].doc)
    && (ResultField in rec ==> rec[ResultField].Serialized?)
  }

  /** LREM jobs 0 id: every occurrence of `x` removed, the rest kept in order. */
  function Lrem(s: seq<string>, x: string): (r: seq<string>)
    decreases |s|
  {
    if s == [] then []
    else if s[0] == x then Lrem(s[1..], x)
    else [s[0]] + Lrem(s[1..], x)
  }

  /** Number of occurrences of `x` in `s`. */
  function Count<T(==)>(s: seq<T>, x: T): nat
    decreases |s|
  {
    if s == [] then 0 else (if s[0] == x then 1 else 0) + Count(s[1..], x)
  }

  /**
   * The `list_jobs` response: the records of the listed ids in list order, ids
   * without a record skipped; a record that fails validation fails the whole request.
   */
  function Listing(ids: seq<string>, records: map<string, Record>): Result<seq<Job>, ApiError>
    decreases |ids|
  {
    if ids == [] then Success([])
    else match Listing(ids[..|ids| - 1], records)
      case Failure(e) => Failure(e)
      case Success(jobs) =>
        var id := ids[|ids| - 1];
        if id !in records then Success(jobs)
        else match ReadJob(records[id])
          case None => Failure(InvalidRecord)
          case Some(job) => Success(jobs + [job])
  }

  /** The effect of one PUT on the records: an unknown id changes nothing. */
  function ApplyPut(records: map<string, Record>, p: Put, now: string): map<string, Record> {
    if p.jobId in records then records[p.jobId := Hset(records[p.jobId], UpdateFields(p.update, now))]
    else records
  }

  /** The effect of a sequence of PUTs, applied in order. */
  function ApplyPuts(records: map<string, Record>, puts: seq<Put>, now: string): map<string, Record>
    decreases |puts|
  {
    if puts == [] then records
    else ApplyPut(ApplyPuts(records, puts[..|puts| - 1], now), puts[|puts| - 1], now)
  }

  /** Sending two runs of PUTs one after the other is sending their concatenation. */
  lemma {:induction false} ApplyPutsAppend(records: map<string, Record>, a: seq<Put>, b: seq<Put>, now: string)
    ensures ApplyPuts(records, a + b, now) == ApplyPuts(ApplyPuts(records, a, now), b, now)
    decreases |b|
  {
    if b == [] {
      assert a + b == a;
    } else {
      var b' := b[..|b| - 1];
      assert (a + b)[..|a + b| - 1] == a + b';
      assert (a + b)[|a + b| - 1] == b[|b| - 1];
      ApplyPutsAppend(records, a, b', now);
    }
  }

  // ---- the registry ----

  class JobStore {
    /** The job hashes, by job id. */
    var records: map<string, Record>
    /** The `jobs` list, head first. */
    var ids: seq<string>

    ghost predicate Valid()
      reads this
    {
      && (forall id :: id in records ==> WellFormed(id, records[id]))
      && (forall id :: id in ids <==> id in records)
    }

    constructor ()
      ensures Valid() && records == map[] && ids == []
    {
      records := map[];
      ids := [];
    }

    /** POST /jobs. The notification of the simulation service is not part of the model. */
    method CreateJob(config: Object, freshId: string, now: string) returns (r: Result<Job, ApiError>)
      requires Valid()
      modifies this
      ensures Valid()
      ensures IdFor(config, freshId).Failure? ==>
                r == Failure(InvalidJobId) && records == old(records) && ids == old(ids)
      ensures IdFor(config, freshId).Success? ==>
                var id := IdFor(config, freshId).value;
                && r == Success(Job(id, PendingStatus, 0, now, now, config, None))
                && records == old(records)[id := Hset(Lookup(old(records), id), ToRecord(r.value))]
                && ids == [id] + old(ids)
    {
      var id: string;
      if "job_id" in config {
        if !config["job_id"].JStr? {
          r := Failure(InvalidJobId);
          return;
        }
        id := config["job_id"].s;
      } else {
        id := freshId;
      }
      var job := Job(id, PendingStatus, 0, now, now, config, None);
      StoredJobWellFormed(Lookup(records, id), job);
      records := records[id := Hset(Lookup(records, id), ToRecord(job))];
      ids := [id] + ids;
      r := Success(job);
    }

    /** GET /jobs. */
    method ListJobs() returns (r: Result<seq<Job>, ApiError>)
      ensures r == Listing(ids, records)
    {
      var jobIds := ids;
      var jobs: seq<Job> := [];
      var i := 0;
      while i < |jobIds|
        invariant 0 <= i <= |jobIds|
        invariant Listing(jobIds[..i], records) == Success(jobs)
      {
        var id := jobIds[i];
        assert jobIds[..i + 1][..i] == jobIds[..i];
        if id in records {
          var job := ReadJob(records[id]);
          if job.None? {
            r := Failure(InvalidRecord);
            LaterIdsKeepFailure(jobIds, i + 1, records);
            return;
          }
          jobs := jobs + [job.value];
        }
        i := i + 1;
      }
      assert jobIds[..i] == jobIds;
      r := Success(jobs);
    }

    /** GET /jobs/{id}. */
    method GetJob(id: string) returns (r: Result<Job, ApiError>)
      ensures id !in records ==> r == Failure(NotFound)
      ensures id in records ==> r == (match ReadJob(records[id])
                                      case None => Failure(InvalidRecord)
                                      case Some(job) => Success(job))
    {
      if id !in records {
        return Failure(NotFound);
      }
      var job := ReadJob(records[id]);
      if job.None? {
        return Failure(InvalidRecord);
      }
      r := Success(job.value);
    }

    /** PUT /jobs/{id}: no status, progress or transition check. */
    method UpdateJob(id: string, u: StatusUpdate, now: string) returns (r: Result<(), ApiError>)
      requires Valid()
      modifies this
      ensures Valid()
      ensures id !in old(records) ==> r == Failure(NotFound) && records == old(records)
      ensures id in old(records) ==> r == Success(())
      ensures records == ApplyPut(old(records), Put(id, u), now)
      ensures ids == old(ids)
    {
      if id !in records {
        return Failure(NotFound);
      }
      UpdatedJobReadsBack(id, records[id], u, now);
      records := records[id := Hset(records[id], UpdateFields(u, now))];
      r := Success(());
    }

    /** DELETE /jobs/{id}. */
    method DeleteJob(id: string) returns (r: Result<(), ApiError>)
      requires Valid()
      modifies this
      ensures Valid()
      ensures id !in old(records) ==> r == Failure(NotFound) && records == old(records) && ids == old(ids)
      ensures id in old(records) ==> r == Success(()) && records == old(records) - {id} && ids == Lrem(old(ids), id)
    {
      if id !in records {
        return Failure(NotFound);
      }
      LremMembers(ids, id);
      ids := Lrem(ids, id);
      records := records - {id};
      r := Success(());
    }
  }

  /** Writing a job's fields over an empty or well-formed hash of the same id gives a well-formed hash. */
  lemma StoredJobWellFormed(prior: Record, job: Job)
    requires prior == map[] || WellFormed(job.id, prior)
    requires ConfigIdAgrees(job.id, job.config)
    ensures WellFormed(job.id, Hset(prior, ToRecord(job)))
  {
    Decimal.ParseShow(job.progress);
    var r := Hset(prior, ToRecord(job));
    assert r[ProgressField] == Text(Decimal.Show(job.progress));
  }

  /** Once a prefix of the list fails to read, every longer prefix fails the same way. */
  lemma {:induction false} LaterIdsKeepFailure(ids: seq<string>, k: nat, records: map<string, Record>)
    requires 0 < k <= |ids|
    requires ids[k - 1] in records && ReadJob(records[ids[k - 1]]).None?
    requires Listing(ids[..k - 1], records).Success?
    ensures Listing(ids, records) == Failure(InvalidRecord)
    decreases |ids| - k
  {
    if k == |ids| {
      assert ids[..k - 1] == ids[..|ids| - 1];
    } else {
      assert ids[..|ids| - 1][..k - 1] == ids[..k - 1];
      LaterIdsKeepFailure(ids[..|ids| - 1], k, records);
    }
  }

  /** LREM removes exactly the given id. */
  lemma {:induction false} LremMembers(s: seq<string>, x: string)
    ensures x !in Lrem(s, x)
    ensures forall y :: y != x ==> (y in Lrem(s, x) <==> y in s)
    ensures |Lrem(s, x)| == |s| - Count(s, x)
    decreases |s|
  {
    if s != [] {
      LremMembers(s[1..], x);
    }
  }

  /** A well-formed hash always validates as a `Job`, under its own id. */
  lemma WellFormedReads(id: string, rec: Record)
    requires WellFormed(id, rec)
    ensures ReadJob(rec).Some? && ReadJob(rec).value.id == id
    ensures ConfigIdAgrees(id, ReadJob(rec).value.config)
  {
  }

  /**
   * Storing a job and reading it back gives the job as written (config exactly as
   * submitted, progress as an integer), except that a result already in the hash
   * survives when the job carries none.
   */
  lemma StoredJobReadsBack(prior: Record, job: Job)
    requires prior == map[] || WellFormed(job.id, prior)
    ensures ReadJob(Hset(prior, ToRecord(job)))
         == Some(job.(result := if job.result.Some? then job.result else StoredResult(prior)))
  {
    var fields := ToRecord(job);
    var r := Hset(prior, fields);
    Decimal.ParseShow(job.progress);
    assert fields[ProgressField] == Text(Decimal.Show(job.progress));
    assert fields[IdField] == Text(job.id) && fields[StatusField] == Text(job.status);
    assert fields[CreatedAtField] == Text(job.createdAt) && fields[UpdatedAtField] == Text(job.updatedAt);
    assert fields[ConfigField] == Serialized(job.config);
    assert ResultField in r ==> r[ResultField].Serialized?;
  }

  /**
   * An update changes the status, progress and `updated_at` to what it carries, the
   * result only when it carries one, and keeps id, config and `created_at`; any
   * status and any progress are accepted.
   */
  lemma UpdatedJobReadsBack(id: string, rec: Record, u: StatusUpdate, now: string)
    requires WellFormed(id, rec)
    ensures WellFormed(id, Hset(rec, UpdateFields(u, now)))
    ensures var before := ReadJob(rec).value;
            ReadJob(Hset(rec, UpdateFields(u, now)))
            == Some(before.(status := u.status, progress := u.progress, updatedAt := now,
                            result := if u.result.Some? then u.result else before.result))
  {
    var fields := UpdateFields(u, now);
    var r := Hset(rec, fields);
    Decimal.ParseShow(u.progress);
    assert fields[ProgressField] == Text(Decimal.Show(u.progress));
    assert fields[StatusField] == Text(u.status) && fields[UpdatedAtField] == Text(now);
    assert StoredResult(r) == if u.result.Some? then u.result else StoredResult(rec);
  }

  /** Every id in the list has a well-formed hash: the invariant of the store. */
  predicate Consistent(ids: seq<string>, records: map<string, Record>) {
    forall i :: 0 <= i < |ids| ==> ids[i] in records && WellFormed(ids[i], records[ids[i]])
  }

  /** On a consistent store the listing has one job per list entry, in list order. */
  lemma {:induction false} ListingOfConsistent(ids: seq<string>, records: map<string, Record>)
    requires Consistent(ids, records)
    ensures Listing(ids, records).Success?
    ensures |Listing(ids, records).value| == |ids|
    ensures forall i :: 0 <= i < |ids| ==> Listing(ids, records).value[i] == ReadJob(records[ids[i]]).value
    ensures forall i :: 0 <= i < |ids| ==> Listing(ids, records).value[i].id == ids[i]
    decreases |ids|
  {
    if ids != [] {
      var front := ids[..|ids| - 1];
      assert Consistent(front, records) by {
        forall i | 0 <= i < |front| ensures front[i] in records && WellFormed(front[i], records[front[i]]) {
          assert front[i] == ids[i];
        }
      }
      ListingOfConsistent(front, records);
      WellFormedReads(ids[|ids| - 1], records[ids[|ids| - 1]]);
      forall i | 0 <= i < |ids| ensures Listing(ids, records).value[i].id == ids[i] {
        WellFormedReads(ids[i], records[ids[i]]);
      }
    }
  }

  lemma ValidIsConsistent(ids: seq<string>, records: map<string, Record>)
    requires forall id :: id in records ==> WellFormed(id, records[id])
    requires forall id :: id in ids <==> id in records
    ensures Consistent(ids, records)
  {
    forall i | 0 <= i < |ids| ensures ids[i] in records && WellFormed(ids[i], records[ids[i]]) {
      assert ids[i] in ids;
    }
  }

  /**
   * After a successful create, the listing starts with the new job (LPUSH: newest
   * first) and then lists the older entries.
   */
  lemma NewestListedFirst(ids: seq<string>, records: map<string, Record>, job: Job)
    requires Consistent(ids, records)
    requires Lookup(records, job.id) == map[] || WellFormed(job.id, Lookup(records, job.id))
    requires ConfigIdAgrees(job.id, job.config)
    ensures var records' := records[job.id := Hset(Lookup(records, job.id), ToRecord(job))];
            && Listing([job.id] + ids, records').Success?
            && |Listing([job.id] + ids, records').value| == |ids| + 1
            && Listing([job.id] + ids, records').value[0]
               == job.(result := if job.result.Some? then job.result else StoredResult(Lookup(records, job.id)))
            && forall i :: 0 <= i < |ids| ==> Listing([job.id] + ids, records').value[i + 1].id == ids[i]
  {
    var records' := records[job.id := Hset(Lookup(records, job.id), ToRecord(job))];
    PushedConsistent(ids, records, job);
    PushedListing(job.id, ids, records');
    StoredJobReadsBack(Lookup(records, job.id), job);
  }

  /** The listing of a consistent store after a push: the pushed entry, then the older entries in order. */
  lemma PushedListing(x: string, ids: seq<string>, records: map<string, Record>)
    requires Consistent([x] + ids, records)
    ensures Listing([x] + ids, records).Success?
    ensures |Listing([x] + ids, records).value| == |ids| + 1
    ensures x in records && ReadJob(records[x]).Some?
    ensures Listing([x] + ids, records).value[0] == ReadJob(records[x]).value
    ensures forall i :: 0 <= i < |ids| ==> Listing([x] + ids, records).value[i + 1].id == ids[i]
  {
    var ids' := [x] + ids;
    assert ids'[0] == x;
    WellFormedReads(x, records[x]);
    ListingOfConsistent(ids', records);
    forall i | 0 <= i < |ids| ensures Listing(ids', records).value[i + 1].id == ids[i] {
      assert ids'[i + 1] == ids[i];
    }
  }

  /** Storing a job and pushing its id keeps the store consistent. */
  lemma PushedConsistent(ids: seq<string>, records: map<string, Record>, job: Job)
    requires Consistent(ids, records)
    requires Lookup(records, job.id) == map[] || WellFormed(job.id, Lookup(records, job.id))
    requires ConfigIdAgrees(job.id, job.config)
    ensures Consistent([job.id] + ids, records[job.id := Hset(Lookup(records, job.id), ToRecord(job))])
  {
    var records' := records[job.id := Hset(Lookup(records, job.id), ToRecord(job))];
    var ids' := [job.id] + ids;
    StoredJobWellFormed(Lookup(records, job.id), job);
    forall i | 0 <= i < |ids'| ensures ids'[i] in records' && WellFormed(ids'[i], records'[ids'[i]]) {
      if i > 0 { assert ids'[i] == ids[i - 1]; }
    }
  }

  /**
   * Submitting an id that is already listed lists it once more: no duplicate check,
   * and every listed copy shows the merged record.
   */
  lemma ResubmittedIdListedTwice(ids: seq<string>, records: map<string, Record>, k: nat)
    requires Consistent(ids, records)
    requires k < |ids|
    ensures Listing([ids[k]] + ids, records).Success?
    ensures var jobs := Listing([ids[k]] + ids, records).value;
            |jobs| == |ids| + 1 && jobs[0].id == ids[k] && jobs[k + 1].id == ids[k] && jobs[0] == jobs[k + 1]
  {
    var ids' := [ids[k]] + ids;
    assert Consistent(ids', records) by {
      forall i | 0 <= i < |ids'| ensures ids'[i] in records && WellFormed(ids'[i], records[ids'[i]]) {
        if i > 0 { assert ids'[i] == ids[i - 1]; }
      }
    }
    ListingOfConsistent(ids', records);
  }

  /** DELETE keeps the store consistent: the list loses the id exactly when the records do. */
  lemma LremConsistent(ids: seq<string>, records: map<string, Record>, x: string)
    requires Consistent(ids, records)
    ensures Consistent(Lrem(ids, x), records - {x})
  {
    var ids' := Lrem(ids, x);
    LremMembers(ids, x);
    forall i | 0 <= i < |ids'| ensures ids'[i] in records - {x} && WellFormed(ids'[i], records[ids'[i]]) {
      assert ids'[i] in ids';
      var j :| 0 <= j < |ids| && ids[j] == ids'[i];
    }
  }

  /** After DELETE, the listing no longer shows the job and everything else stays listed. */
  lemma DeletedJobNotListed(ids: seq<string>, records: map<string, Record>, x: string)
    requires Consistent(ids, records)
    ensures Listing(Lrem(ids, x), records - {x}).Success?
    ensures forall job :: job in Listing(Lrem(ids, x), records - {x}).value ==> job.id != x
    ensures forall y :: y != x ==> (y in ids <==> exists job :: job in Listing(Lrem(ids, x), records - {x}).value && job.id == y)
  {
    var ids' := Lrem(ids, x);
    var records' := records - {x};
    LremMembers(ids, x);
    LremConsistent(ids, records, x);
    ListingOfConsistent(ids', records');
    var jobs := Listing(ids', records').value;
    forall job | job in jobs ensures job.id != x {
      var i :| 0 <= i < |jobs| && jobs[i] == job;
    }
    forall y | y != x && y in ids ensures exists job :: job in jobs && job.id == y {
      var i :| 0 <= i < |ids'| && ids'[i] == y;
      assert jobs[i] in jobs;
    }
    forall y | y != x && (exists job :: job in jobs && job.id == y) ensures y in ids {
      var job :| job in jobs && job.id == y;
      var i :| 0 <= i < |jobs| && jobs[i] == job;
      assert ids'[i] in ids';
    }
  }

  /**
   * After a sequence of PUTs to a stored job, its status and progress are those of
   * the last PUT addressed to it.
   */
  lemma {:induction false} LastPutWins(records: map<string, Record>, puts: seq<Put>, now: string, id: string, k: nat)
    requires id in records && WellFormed(id, records[id])
    requires k < |puts| && puts[k].jobId == id
    requires forall j :: k < j < |puts| ==> puts[j].jobId != id
    ensures id in ApplyPuts(records, puts, now) && WellFormed(id, ApplyPuts(records, puts, now)[id])
    ensures var job := ReadJob(ApplyPuts(records, puts, now)[id]).value;
            job.status == puts[k].update.status && job.progress == puts[k].update.progress
    decreases |puts|
  {
    PutsKeepWellFormed(records, puts, now, id);
    var front := puts[..|puts| - 1];
    var last := puts[|puts| - 1];
    if k == |puts| - 1 {
      PutsKeepWellFormed(records, front, now, id);
      UpdatedJobReadsBack(id, ApplyPuts(records, front, now)[id], last.update, now);
    } else {
      LastPutWins(records, front, now, id, k);
      assert ApplyPuts(records, puts, now)[id] == ApplyPuts(records, front, now)[id];
    }
  }

  /** PUTs never remove a job nor break the shape of its hash. */
  lemma {:induction false} PutsKeepWellFormed(records: map<string, Record>, puts: seq<Put>, now: string, id: string)
    requires id in records && WellFormed(id, records[id])
    ensures id in ApplyPuts(records, puts, now) && WellFormed(id, ApplyPuts(records, puts, now)[id])
    ensures ApplyPuts(records, puts, now).Keys == records.Keys
    decreases |puts|
  {
    if puts != [] {
      var front := puts[..|puts| - 1];
      PutsKeepWellFormed(records, front, now, id);
      var before := ApplyPuts(records, front, now);
      var p := puts[|puts| - 1];
      if p.jobId == id {
        UpdatedJobReadsBack(id, before[id], p.update, now);
      }
    }
  }
}
