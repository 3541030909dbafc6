/**
 * The polling worker: each poll lists the jobs, keeps the pending ones and runs
 * them one after the other; any exception while parsing a config or simulating
 * turns into a PUT with status "failed" and progress 0.
 *
 * The registry is the `JobStore` of `JobQueue`; the HTTP calls the worker and the
 * simulation make become calls of its endpoint methods. The simulation never reads
 * the store and ignores the replies to its PUTs, so its updates are delivered in
 * order after the run (`Deliver`), which leaves the store in the same state.
 */
module Worker {
  import opened Wrappers
  import opened Json
  import Configs
  import opened JobQueue
  import Simulate

  const ProcessingStatus := "processing"
  const CompletedStatus := "completed"
  const FailedStatus := "failed"

  /** The answer to `GET /jobs`: a status code and the decoded job list, or no answer at all. */
  datatype Reply = Reply(statusCode: int, jobs: seq<Job>) | NoReply

  /** The jobs whose status is "pending", in list order. */
  function PendingJobs(jobs: seq<Job>): (r: seq<Job>)
    ensures forall job :: job in r <==> job in jobs && job.status == PendingStatus
    ensures |r| <= |jobs|
    decreases |jobs|
  {
    if jobs == [] then []
    else
      var front := PendingJobs(jobs[..|jobs| - 1]);
      var last := jobs[|jobs| - 1];
      if last.status == PendingStatus then front + [last] else front
  }

  /** The filter keeps the order of the list: it distributes over concatenation. */
  lemma {:induction false} PendingJobsAppend(a: seq<Job>, b: seq<Job>)
    ensures PendingJobs(a + b) == PendingJobs(a) + PendingJobs(b)
    decreases |b|
  {
    if b == [] {
      assert a + b == a;
    } else {
      var b' := b[..|b| - 1];
      assert (a + b)[..|a + b| - 1] == a + b';
      PendingJobsAppend(a, b');
    }
  }

  /**
   * `get_pending_jobs`: the pending jobs of a 200 answer, in list order; any other
   * status code, and a request that raised, give the empty list.
   */
  function GetPendingJobs(reply: Reply): (r: seq<Job>)
    ensures forall job :: job in r <==>
              reply.Reply? && reply.statusCode == 200 && job in reply.jobs && job.status == PendingStatus
    ensures reply.Reply? && reply.statusCode == 200 ==> r == PendingJobs(reply.jobs)
  {
    if reply.Reply? && reply.statusCode == 200 then PendingJobs(reply.jobs) else []
  }

  /** The update `process_job` sends when anything went wrong. */
  function FailedPut(id: string): Put {
    Put(id, StatusUpdate(FailedStatus, 0, None))
  }

  /** PUTs that all address one job leave every other job, and the set of jobs, as they were. */
  lemma {:induction false} PutsLeaveOthers(records: map<string, Record>, puts: seq<Put>, now: string, id: string)
    requires ForJob(id, puts)
    ensures ApplyPuts(records, puts, now).Keys == records.Keys
    ensures forall other :: other != id && other in records ==> ApplyPuts(records, puts, now)[other] == records[other]
    decreases |puts|
  {
    if puts != [] {
      PutsLeaveOthers(records, puts[..|puts| - 1], now, id);
    }
  }

  /** Sends the PUTs one by one; a 404 for an unknown job is logged and ignored. */
  method Deliver(store: JobStore, puts: seq<Put>, now: string)
    requires store.Valid()
    modifies store
    ensures store.Valid()
    ensures store.records == ApplyPuts(old(store.records), puts, now)
    ensures store.ids == old(store.ids)
  {
    var i := 0;
    while i < |puts|
      invariant 0 <= i <= |puts|
      invariant store.Valid()
      invariant store.records == ApplyPuts(old(store.records), puts[..i], now)
      invariant store.ids == old(store.ids)
    {
      assert puts[..i + 1][..i] == puts[..i];
      var _ := store.UpdateJob(puts[i].jobId, puts[i].update, now);
      i := i + 1;
    }
    assert puts[..i] == puts;
  }

  /** Every update reports "processing" without a result. */
  predicate ProgressOnly(puts: seq<Put>) {
    forall j :: 0 <= j < |puts| ==> puts[j].update.status == ProcessingStatus && puts[j].update.result.None?
  }

  /**
   * What `process_job` reports for a job: progress updates, then one final update,
   * "failed" with progress 0 or "completed" with progress 100 and the results.
   */
  predicate Reported(id: string, sent: seq<Put>) {
    && |sent| >= 1
    && ProgressOnly(sent[..|sent| - 1])
    && var last := sent[|sent| - 1];
       || last == FailedPut(id)
       || (last.update.status == CompletedStatus && last.update.progress == 100 && last.update.result.Some?)
  }

  /** Every update addresses job `id`. */
  predicate ForJob(id: string, sent: seq<Put>) {
    forall j :: 0 <= j < |sent| ==> sent[j].jobId == id
  }

  /** A run that raised after its progress updates is reported as failed. */
  lemma FailureReported(jobId: string, id: string, puts: seq<Put>)
    requires Simulate.ProcessingUpdates(jobId, puts)
    ensures Reported(id, puts + [FailedPut(id)])
    ensures jobId == id ==> ForJob(id, puts + [FailedPut(id)])
  {
    assert (puts + [FailedPut(id)])[..|puts|] == puts;
  }

  /** A run that completed is reported by its own updates. */
  lemma CompletionReported(jobId: string, id: string, puts: seq<Put>, results: Object)
    requires |puts| >= 1 && Simulate.ProcessingUpdates(jobId, puts[..|puts| - 1])
    requires puts[|puts| - 1] == Simulate.StatusPut(jobId, CompletedStatus, 100, Some(results))
    ensures Reported(id, puts)
    ensures ForJob(jobId, puts)
  {
  }

  /**
   * The updates `process_job` sends, in order: those of the simulation run, then
   * the "failed" update if parsing the config or the run raised.
   */
  method JobUpdates(job: Job, geo: Simulate.Geometry, engine: Simulate.Engine, pct: Simulate.Percent)
    returns (sent: seq<Put>)
    ensures Reported(job.id, sent)
    ensures Configs.ParseConfig(job.config).None? ==> sent == [FailedPut(job.id)]
    ensures ConfigIdAgrees(job.id, job.config) ==> ForJob(job.id, sent)
  {
    var config := Configs.ParseConfig(job.config);
    if config.None? {
      sent := [FailedPut(job.id)];
      FailureReported(job.id, job.id, []);
      return;
    }
    assert ConfigIdAgrees(job.id, job.config) ==> config.value.jobId == job.id;
    var puts, outcome := Simulate.RunSimulation(config.value, geo, engine, pct);
    if outcome.Failure? {
      sent := puts + [FailedPut(job.id)];
      FailureReported(config.value.jobId, job.id, puts);
    } else {
      sent := puts;
      CompletionReported(config.value.jobId, job.id, puts, Simulate.ResultsDoc(outcome.value));
    }
  }

  /** The job's stored status is final: "failed" with progress 0, or "completed" with progress 100. */
  predicate Finished(records: map<string, Record>, id: string) {
    && id in records
    && ReadJob(records[id]).Some?
    && var job := ReadJob(records[id]).value;
       || (job.status == FailedStatus && job.progress == 0)
       || (job.status == CompletedStatus && job.progress == 100)
  }

  /** `process_job`: computes its updates and sends them to the registry; it never raises. */
  method ProcessJob(store: JobStore, job: Job, geo: Simulate.Geometry, engine: Simulate.Engine,
                    pct: Simulate.Percent, now: string) returns (sent: seq<Put>)
    requires store.Valid()
    modifies store
    ensures store.Valid() && store.ids == old(store.ids)
    ensures store.records == ApplyPuts(old(store.records), sent, now)
    ensures Reported(job.id, sent)
    ensures Configs.ParseConfig(job.config).None? ==> sent == [FailedPut(job.id)]
    ensures ConfigIdAgrees(job.id, job.config) ==> ForJob(job.id, sent)
    ensures ConfigIdAgrees(job.id, job.config) && job.id in old(store.records) ==> Finished(store.records, job.id)
  {
    sent := JobUpdates(job, geo, engine, pct);
    if ConfigIdAgrees(job.id, job.config) && job.id in store.records {
      LastPutWins(store.records, sent, now, job.id, |sent| - 1);
      WellFormedReads(job.id, ApplyPuts(store.records, sent, now)[job.id]);
    }
    Deliver(store, sent, now);
  }

  /**
   * `get_pending_jobs` against the registry: `reachable` says whether the list
   * request got an answer. Every job it returns is stored, and its config names
   * no other job.
   */
  method PollPending(store: JobStore, reachable: bool) returns (pending: seq<Job>)
    requires store.Valid()
    ensures !reachable ==> pending == []
    ensures reachable ==>
              && Listing(store.ids, store.records).Success?
              && pending == PendingJobs(Listing(store.ids, store.records).value)
    ensures forall k :: 0 <= k < |pending| ==>
              pending[k].id in store.records && ConfigIdAgrees(pending[k].id, pending[k].config)
  {
    var reply: Reply;
    if !reachable {
      reply := NoReply;
    } else {
      var listed := store.ListJobs();
      reply := if listed.Success? then Reply(200, listed.value) else Reply(500, []);
    }
    pending := GetPendingJobs(reply);
    ValidIsConsistent(store.ids, store.records);
    ListingOfConsistent(store.ids, store.records);
    forall k | 0 <= k < |pending|
      ensures pending[k].id in store.records && ConfigIdAgrees(pending[k].id, pending[k].config)
    {
      assert pending[k] in pending;
      var jobs := Listing(store.ids, store.records).value;
      var i :| 0 <= i < |jobs| && jobs[i] == pending[k];
      WellFormedReads(store.ids[i], store.records[store.ids[i]]);
    }
  }

  /**
   * Processing job `jobs[i]` leaves the jobs processed before it finished: its
   * updates touch no other record.
   */
  lemma StillFinished(before: map<string, Record>, sent: seq<Put>, now: string, jobs: seq<Job>, i: nat)
    requires i < |jobs| && ForJob(jobs[i].id, sent)
    requires forall j :: 0 <= j < i ==> Finished(before, jobs[j].id)
    requires Finished(ApplyPuts(before, sent, now), jobs[i].id)
    ensures ApplyPuts(before, sent, now).Keys == before.Keys
    ensures forall j :: 0 <= j <= i ==> Finished(ApplyPuts(before, sent, now), jobs[j].id)
  {
    var after := ApplyPuts(before, sent, now);
    PutsLeaveOthers(before, sent, now, jobs[i].id);
    forall j | 0 <= j < i ensures Finished(after, jobs[j].id) {
      if jobs[j].id != jobs[i].id {
        assert after[jobs[j].id] == before[jobs[j].id];
      }
    }
  }

  /** The updates of several jobs, sent one job after the other. */
  function Concat(sent: seq<seq<Put>>): seq<Put>
    decreases |sent|
  {
    if sent == [] then [] else Concat(sent[..|sent| - 1]) + sent[|sent| - 1]
  }

  /** What `process_job` reports for `job`: its own updates, a final one last, only "failed" for a bad config. */
  predicate ReportedFor(job: Job, s: seq<Put>) {
    && Reported(job.id, s)
    && ForJob(job.id, s)
  }

  /** `sent[k]` is what `process_job` reported for `pending[k]`, for every k. */
  predicate ReportedEach(pending: seq<Job>, sent: seq<seq<Put>>) {
    |sent| == |pending| && forall k :: 0 <= k < |pending| ==> ReportedFor(pending[k], sent[k])
  }

  /** One more job reported keeps every job's report in place. */
  lemma ReportedNext(pending: seq<Job>, i: nat, sent: seq<seq<Put>>, s: seq<Put>)
    requires i < |pending| && ReportedEach(pending[..i], sent) && ReportedFor(pending[i], s)
    ensures ReportedEach(pending[..i + 1], sent + [s])
  {
    assert pending[..i + 1][..i] == pending[..i];
  }

  /** The updates of one more job are sent after those of the jobs before it. */
  lemma SentNext(start: map<string, Record>, sent: seq<seq<Put>>, s: seq<Put>, now: string)
    ensures ApplyPuts(ApplyPuts(start, Concat(sent), now), s, now) == ApplyPuts(start, Concat(sent + [s]), now)
  {
    assert (sent + [s])[..|sent|] == sent;
    ApplyPutsAppend(start, Concat(sent), s, now);
  }

  /** The updates of job `pending[i]` touch no job outside `pending[..i + 1]`. */
  lemma UnpolledNext(start: map<string, Record>, before: map<string, Record>, pending: seq<Job>, i: nat,
                     s: seq<Put>, now: string)
    requires i < |pending| && ForJob(pending[i].id, s) && before.Keys == start.Keys
    requires forall id :: id in start && (forall k :: 0 <= k < i ==> pending[k].id != id) ==> before[id] == start[id]
    ensures ApplyPuts(before, s, now).Keys == start.Keys
    ensures forall id :: id in start && (forall k :: 0 <= k < i + 1 ==> pending[k].id != id) ==>
              ApplyPuts(before, s, now)[id] == start[id]
  {
    PutsLeaveOthers(before, s, now, pending[i].id);
  }

  /**
   * The loop over the pending jobs, one after the other in their order: the store
   * receives the updates of the first job, then those of the second, and so on;
   * each job ends "failed" or "completed", and every job not in `pending` keeps its hash.
   */
  method ProcessAll(store: JobStore, pending: seq<Job>, geo: Simulate.Geometry, engine: Simulate.Engine,
                    pct: Simulate.Percent, now: string) returns (sent: seq<seq<Put>>)
    requires store.Valid()
    requires forall k :: 0 <= k < |pending| ==>
               pending[k].id in store.records && ConfigIdAgrees(pending[k].id, pending[k].config)
    modifies store
    ensures store.Valid() && store.ids == old(store.ids)
    ensures ReportedEach(pending, sent)
    ensures store.records == ApplyPuts(old(store.records), Concat(sent), now)
    ensures store.records.Keys == old(store.records).Keys
    ensures forall id :: id in old(store.records) && (forall k :: 0 <= k < |pending| ==> pending[k].id != id) ==>
              store.records[id] == old(store.records)[id]
    ensures forall k :: 0 <= k < |pending| ==> Finished(store.records, pending[k].id)
  {
    sent := [];
    var i := 0;
    while i < |pending|
      invariant 0 <= i <= |pending|
      invariant store.Valid() && store.ids == old(store.ids)
      invariant ReportedEach(pending[..i], sent)
      invariant store.records == ApplyPuts(old(store.records), Concat(sent), now)
      invariant store.records.Keys == old(store.records).Keys
      invariant forall id :: id in old(store.records) && (forall k :: 0 <= k < i ==> pending[k].id != id) ==>
                  store.records[id] == old(store.records)[id]
      invariant forall j :: 0 <= j < i ==> Finished(store.records, pending[j].id)
    {
      ghost var before := store.records;
      var s := ProcessJob(store, pending[i], geo, engine, pct, now);
      StillFinished(before, s, now, pending, i);
      ReportedNext(pending, i, sent, s);
      SentNext(old(store.records), sent, s, now);
      UnpolledNext(old(store.records), before, pending, i, s, now);
      sent := sent + [s];
      i := i + 1;
    }
    assert pending[..i] == pending;
  }

  /**
   * One iteration of the `main` loop: poll, then process the pending jobs of that
   * poll in list order. The sleep that follows is not part of the model.
   */
  method PollOnce(store: JobStore, reachable: bool, geo: Simulate.Geometry, engine: Simulate.Engine,
                  pct: Simulate.Percent, now: string) returns (pending: seq<Job>, sent: seq<seq<Put>>)
    requires store.Valid()
    modifies store
    ensures store.Valid() && store.ids == old(store.ids)
    ensures !reachable ==> pending == [] && store.records == old(store.records)
    ensures reachable ==>
              && Listing(old(store.ids), old(store.records)).Success?
              && pending == PendingJobs(Listing(old(store.ids), old(store.records)).value)
    ensures ReportedEach(pending, sent)
    ensures store.records == ApplyPuts(old(store.records), Concat(sent), now)
    ensures store.records.Keys == old(store.records).Keys
    ensures forall id :: id in old(store.records) && (forall k :: 0 <= k < |pending| ==> pending[k].id != id) ==>
              store.records[id] == old(store.records)[id]
    ensures forall k :: 0 <= k < |pending| ==> Finished(store.records, pending[k].id)
  {
    pending := PollPending(store, reachable);
    sent := ProcessAll(store, pending, geo, engine, pct, now);
  }

  /**
   * Right after a job is created it heads the next poll's pending list: the `jobs`
   * list is newest first and nothing marks a job before the worker runs it.
   */
  lemma NewestPendingFirst(ids: seq<string>, records: map<string, Record>, job: Job)
    requires Consistent(ids, records)
    requires Lookup(records, job.id) == map[] || WellFormed(job.id, Lookup(records, job.id))
    requires ConfigIdAgrees(job.id, job.config)
    requires job.status == PendingStatus
    ensures var records' := records[job.id := Hset(Lookup(records, job.id), ToRecord(job))];
            && Listing([job.id] + ids, records').Success?
            && var pending := PendingJobs(Listing([job.id] + ids, records').value);
               |pending| > 0 && pending[0].id == job.id && pending[0].config == job.config
  {
    var records' := records[job.id := Hset(Lookup(records, job.id), ToRecord(job))];
    NewestListedFirst(ids, records, job);
    var jobs := Listing([job.id] + ids, records').value;
    assert jobs == [jobs[0]] + jobs[1..];
    PendingJobsAppend([jobs[0]], jobs[1..]);
    assert PendingJobs([jobs[0]]) == [jobs[0]] by {
      assert [jobs[0]][..0] == [];
    }
  }
}
