/** The coordinator of one host. It keeps the jobs it knows, the coordinator-side
    writers, the executors it runs and the enrollments it has heard, keyed by job
    id (a Java HashMap, so a null id is a key like any other). Messages it sends
    to the job topic and the management topic are appended to `outbox`; the JSON
    mapping and the JMS transport are left out. */
module Coordinator {
  import opened Wrappers
  import opened Strings
  import opened Records
  import opened Model
  import opened WorkQueue
  import Writers
  import Executor

  const UNKNOWN_JOB_MSG: string := "UNKNOWN_JOB"
  const HOST_KEY: string := "host"
  const NODE_KEY: string := "nodeId"
  const SIZE_KEY: string := "modSize"
  /** The message of the RuntimeException a listener wraps any failure in. */
  const JOB_MESSAGE_ERROR: string := "Could not process job message"

  /** A message sent: a job announcement on the job topic, or a management message. */
  datatype Outgoing = JobAnnouncement(job: Job) | Management(msg: ManagementMessage)

  /** sendEnrollment's message: ENROLLMENT for the job, naming this host. */
  function EnrollmentMessage(jobId: Option<string>, hostId: string): (m: ManagementMessage)
    ensures m.msgType == Enrollment && m.jobId == jobId
    ensures m.data.Keys == {HOST_KEY} && m.data[HOST_KEY] == hostId
  {
    ManagementMessage(Enrollment, map[HOST_KEY := hostId], jobId)
  }

  /** sendAssignment's message: ASSIGNMENT with the node id and the ensemble size as text. */
  function AssignmentMessage(jobId: Option<string>, nodeId: int, modSize: int): (m: ManagementMessage)
    ensures m.msgType == Assignment && m.jobId == jobId
    ensures m.data.Keys == {NODE_KEY, SIZE_KEY}
  {
    ManagementMessage(Assignment, map[NODE_KEY := IntToString(nodeId), SIZE_KEY := IntToString(modSize)], jobId)
  }

  /** The first `k` messages of the assignment task for an ensemble of `n`. */
  function Assignments(jobId: Option<string>, k: nat, n: int): (r: seq<Outgoing>)
    ensures |r| == k
    ensures forall i :: 0 <= i < k ==> r[i] == Management(AssignmentMessage(jobId, i, n))
  {
    if k == 0 then [] else Assignments(jobId, k - 1, n) + [Management(AssignmentMessage(jobId, k - 1, n))]
  }

  /** Integer.parseInt of a data entry; a missing entry is parseInt(null), which
      throws a NumberFormatException. */
  function ParseEntry(data: map<string, string>, key: string): (r: Result<int>)
    ensures key !in data ==> r.Failure?
    ensures key in data ==> r == ParseInt(data[key])
  {
    if key in data then ParseInt(data[key]) else Failure(NumberFormat("null"))
  }

  /** The node id and ensemble size an ASSIGNMENT carries, parsed in that order. */
  function ParseAssignment(data: map<string, string>): (r: Result<(int, int)>)
    ensures r.Success? <==> ParseEntry(data, NODE_KEY).Success? && ParseEntry(data, SIZE_KEY).Success?
    ensures r.Success? ==> r.value == (ParseEntry(data, NODE_KEY).value, ParseEntry(data, SIZE_KEY).value)
  {
    match ParseEntry(data, NODE_KEY)
    case Failure(e) => Failure(e)
    case Success(nodeId) =>
      match ParseEntry(data, SIZE_KEY)
      case Failure(e) => Failure(e)
      case Success(modSize) => Success((nodeId, modSize))
  }

  /** Every participant receives the assignment it was sent: the i-th message of
      the assignment task for n enrollments parses back to node i of n. */
  lemma {:induction false} AssignmentsParse(jobId: Option<string>, n: nat)
    requires n <= INT_MAX
    ensures forall i :: 0 <= i < n ==>
      Assignments(jobId, n, n)[i].Management?
      && Assignments(jobId, n, n)[i].msg.msgType == Assignment
      && Assignments(jobId, n, n)[i].msg.jobId == jobId
      && ParseAssignment(Assignments(jobId, n, n)[i].msg.data) == Success((i, n))
  {
    forall i | 0 <= i < n
      ensures ParseAssignment(Assignments(jobId, n, n)[i].msg.data) == Success((i, n))
    {
      AssignmentRoundTrip(jobId, i, n);
    }
  }

  /** The participant reads back what sendAssignment wrote: any node id and ensemble
      size in int range survive the trip through their decimal text. */
  lemma AssignmentRoundTrip(jobId: Option<string>, nodeId: int, modSize: int)
    requires IsInt32(nodeId) && IsInt32(modSize)
    ensures ParseAssignment(AssignmentMessage(jobId, nodeId, modSize).data) == Success((nodeId, modSize))
  {
    ParseIntOfIntToString(nodeId);
    ParseIntOfIntToString(modSize);
  }

  /** Whether starting a job's executor fails: seeding on the coordinating host
      meets a relative start url, which enqueue with a null page cannot resolve. */
  ghost predicate SeedFails(job: Job, doSeed: bool) {
    doSeed && job.startUrls.Some?
    && exists s :: s in job.startUrls.value && Normalize(Some(s), None) == Some(Failure(NullPointer))
  }

  /** An executor just initialised with `job`: its settings come from the job, it is
      not done, and its fresh queue holds the job's patterns and, when it was to seed,
      the normalised start urls the patterns admit, each pending and processed once. */
  ghost predicate Started(ex: Executor.JobExecutor, job: Job, doSeed: bool)
    reads ex, ex.workQueue
  {
    && ex.workQueue.Valid()
    && ex.jobDefinition == Some(job) && !ex.done
    && ex.maxThreads == (if job.maxThreads > 0 then job.maxThreads else Executor.DEFAULT_THREADS)
    && ex.workQueue.includeList == job.includePatterns && ex.workQueue.ignoreList == job.ignorePatterns
    && (doSeed && job.startUrls.Some? ==> ex.SeedOutcome(job.startUrls.value, {}, [], Pass))
    && (forall u :: u in ex.workQueue.queue <==> u in ex.workQueue.processedUrls)
    && (!doSeed || job.startUrls.None? ==> ex.workQueue.State() == QueueState({}, []))
  }

  /** componentFactory.buildJobExecutor followed by init: init fails exactly when seeding does. */
  method BuildExecutor(job: Job, nodeId: int, modSize: int, doSeed: bool, matches: (string, string) -> bool)
    returns (ex: Executor.JobExecutor, o: Outcome)
    ensures fresh(ex) && fresh(ex.workQueue)
    ensures o.Pass? <==> !SeedFails(job, doSeed)
    ensures o.Pass? ==> Started(ex, job, doSeed)
  {
    var queue := new CrawlerWorkqueue({}, {}, matches);
    ex := new Executor.JobExecutor(queue);
    o := ex.Init(job, nodeId, modSize, doSeed, matches);
    assert ex.workQueue.queue[0..] == ex.workQueue.queue;
  }

  class JobCoordinator {
    /** HOST_ID: a random UUID, fixed for the life of the host. */
    const hostId: string
    var jobMap: map<Option<string>, Job>
    var dataWriterMap: map<Option<string>, Writers.DataWriter>
    var jobExecutorMap: map<Option<string>, Executor.JobExecutor>
    var enrollmentMap: map<Option<string>, seq<JobEnrollment>>
    var outbox: seq<Outgoing>

    /** Every coordinator writer keeps its batch by identity and is open (a finished
        writer is dropped at once), and each job has its own. */
    ghost predicate Valid()
      reads this, dataWriterMap.Values
    {
      && (forall k :: k in dataWriterMap ==> dataWriterMap[k].Valid() && !dataWriterMap[k].closed)
      && (forall k1, k2 :: k1 in dataWriterMap && k2 in dataWriterMap && k1 != k2 ==>
            dataWriterMap[k1] != dataWriterMap[k2])
    }

    /** A coordinator that knows no job and has sent nothing. */
    constructor (hostId: string)
      ensures Valid() && this.hostId == hostId
      ensures jobMap == map[] && dataWriterMap == map[] && jobExecutorMap == map[]
      ensures enrollmentMap == map[] && outbox == []
    {
      this.hostId := hostId;
      jobMap := map[];
      dataWriterMap := map[];
      jobExecutorMap := map[];
      enrollmentMap := map[];
      outbox := [];
    }

    /** getJobStatus: the job's status name, or UNKNOWN_JOB exactly when the job is unknown. */
    function GetJobStatus(guid: Option<string>): (r: string)
      reads this
      ensures r == UNKNOWN_JOB_MSG <==> guid !in jobMap
      ensures guid in jobMap ==> r == StatusName(jobMap[guid].status)
    {
      if guid in jobMap then StatusName(jobMap[guid].status) else UNKNOWN_JOB_MSG
    }

    /** isJobCoordinator: the id is non-null, the job is known and names this host as
        its coordinator. */
    function IsJobCoordinator(jobId: Option<string>): (b: bool)
      reads this
      ensures jobId.None? ==> !b
      ensures b ==> GetJobStatus(jobId) != UNKNOWN_JOB_MSG && jobMap[jobId].coordinatorId == Some(hostId)
      ensures jobId.Some? && GetJobStatus(jobId) != UNKNOWN_JOB_MSG && jobMap[jobId].coordinatorId == Some(hostId) ==> b
    {
      if jobId.Some? then
        jobId in jobMap && jobMap[jobId].coordinatorId.Some? && hostId == jobMap[jobId].coordinatorId.value
      else false
    }

    /** submitJob: a null job is returned as is. Otherwise the job gets the fresh `guid`
        and this host as coordinator, its coordinator writer (`adapter`, built by the
        component factory) is registered when it names one, and the job is recorded,
        announced and enrolled in, in that order. This host then coordinates it. */
    method SubmitJob(j: Option<Job>, guid: string, adapter: Writers.DataWriter) returns (r: Option<Job>)
      requires Valid() && adapter.Valid() && !adapter.closed && adapter !in dataWriterMap.Values
      modifies this
      ensures Valid()
      ensures j.None? ==> r.None? && unchanged(this)
      ensures j.Some? ==>
        var job := j.value.(guid := Some(guid), coordinatorId := Some(hostId));
        r == Some(job)
        && jobMap == old(jobMap)[Some(guid) := job]
        && outbox == old(outbox) + [JobAnnouncement(job), Management(EnrollmentMessage(Some(guid), hostId))]
        && dataWriterMap == (if job.coordinatorDataWriter.Some? then old(dataWriterMap)[Some(guid) := adapter]
                             else old(dataWriterMap))
        && jobExecutorMap == old(jobExecutorMap) && enrollmentMap == old(enrollmentMap)
      ensures j.Some? ==> IsJobCoordinator(Some(guid))
    {
      if j.None? {
        return None;
      }
      var job := j.value.(guid := Some(guid), coordinatorId := Some(hostId));
      if job.coordinatorDataWriter.Some? {
        dataWriterMap := dataWriterMap[Some(guid) := adapter];
      }
      jobMap := jobMap[Some(guid) := job];
      outbox := outbox + [JobAnnouncement(job)];
      SendEnrollment(Some(guid));
      r := Some(job);
    }

    /** sendEnrollment: one ENROLLMENT for this host on the management topic. */
    method SendEnrollment(jobId: Option<string>)
      modifies this
      ensures outbox == old(outbox) + [Management(EnrollmentMessage(jobId, hostId))]
      ensures jobMap == old(jobMap) && dataWriterMap == old(dataWriterMap)
      ensures jobExecutorMap == old(jobExecutorMap) && enrollmentMap == old(enrollmentMap)
    {
      outbox := outbox + [Management(EnrollmentMessage(jobId, hostId))];
    }

    /** The assignment task submitJob schedules: one ASSIGNMENT per enrollment heard, node ids
        0 to n - 1 in order, each with the ensemble size n; none without a list. */
    method RunAssignmentTask(guid: Option<string>)
      modifies this
      ensures guid !in enrollmentMap ==> outbox == old(outbox)
      ensures guid in enrollmentMap ==>
        outbox == old(outbox) + Assignments(guid, |enrollmentMap[guid]|, |enrollmentMap[guid]|)
      ensures jobMap == old(jobMap) && dataWriterMap == old(dataWriterMap)
      ensures jobExecutorMap == old(jobExecutorMap) && enrollmentMap == old(enrollmentMap)
    {
      if guid in enrollmentMap {
        var n := |enrollmentMap[guid]|;
        for i := 0 to n
          invariant outbox == old(outbox) + Assignments(guid, i, n)
          invariant enrollmentMap == old(enrollmentMap)
          invariant jobMap == old(jobMap) && dataWriterMap == old(dataWriterMap)
          invariant jobExecutorMap == old(jobExecutorMap)
        {
          SendAssignment(guid, i, n);
        }
      }
    }

    /** sendAssignment: one ASSIGNMENT on the management topic. */
    method SendAssignment(jobId: Option<string>, nodeId: int, modSize: int)
      modifies this
      ensures outbox == old(outbox) + [Management(AssignmentMessage(jobId, nodeId, modSize))]
      ensures jobMap == old(jobMap) && dataWriterMap == old(dataWriterMap)
      ensures jobExecutorMap == old(jobExecutorMap) && enrollmentMap == old(enrollmentMap)
    {
      outbox := outbox + [Management(AssignmentMessage(jobId, nodeId, modSize))];
    }

    /** handleJobMessage: a job not known yet is recorded and enrolled in; a known
        one (such as the echo of a job this host submitted) changes nothing. */
    method HandleJobMessage(job: Job)
      modifies this
      ensures job.guid !in old(jobMap) ==>
        jobMap == old(jobMap)[job.guid := job]
        && outbox == old(outbox) + [Management(EnrollmentMessage(job.guid, hostId))]
        && dataWriterMap == old(dataWriterMap)
        && jobExecutorMap == old(jobExecutorMap) && enrollmentMap == old(enrollmentMap)
      ensures job.guid in old(jobMap) ==> unchanged(this)
    {
      if job.guid !in jobMap {
        jobMap := jobMap[job.guid := job];
        SendEnrollment(job.guid);
      }
    }

    /** handleEnrollmentMessage: one enrollment for the payload's host at the end of
        the job's list, which is created when missing; repeats are kept. */
    method HandleEnrollmentMessage(msg: ManagementMessage)
      modifies this
      ensures enrollmentMap ==
        old(enrollmentMap)[msg.jobId :=
          (if msg.jobId in old(enrollmentMap) then old(enrollmentMap)[msg.jobId] else [])
          + [NewEnrollment(msg.jobId, if HOST_KEY in msg.data then Some(msg.data[HOST_KEY]) else None)]]
      ensures jobMap == old(jobMap) && dataWriterMap == old(dataWriterMap)
      ensures jobExecutorMap == old(jobExecutorMap) && outbox == old(outbox)
    {
      var jobId := msg.jobId;
      var enrollments := if jobId in enrollmentMap then enrollmentMap[jobId] else [];
      var host := if HOST_KEY in msg.data then Some(msg.data[HOST_KEY]) else None;
      enrollmentMap := enrollmentMap[jobId := enrollments + [NewEnrollment(jobId, host)]];
    }

    /** handleManagementMessage: ENROLLMENT is recorded; ASSIGNMENT starts an executor
        for the job, replacing any earlier one, that seeds the queue iff this host
        coordinates the job; every other type changes nothing. An ASSIGNMENT fails
        (with the listener's RuntimeException, and no executor installed) when its
        numbers do not parse, when the job is unknown (init of null) or when seeding
        fails. `matches` is the pattern matcher the new queue uses. */
    method HandleManagementMessage(msg: ManagementMessage, matches: (string, string) -> bool)
      returns (o: Outcome)
      requires Valid()
      modifies this
      ensures Valid()
      ensures jobMap == old(jobMap) && dataWriterMap == old(dataWriterMap) && outbox == old(outbox)
      ensures msg.msgType == Enrollment ==>
        o == Pass && jobExecutorMap == old(jobExecutorMap)
        && enrollmentMap ==
          old(enrollmentMap)[msg.jobId :=
            (if msg.jobId in old(enrollmentMap) then old(enrollmentMap)[msg.jobId] else [])
            + [NewEnrollment(msg.jobId, if HOST_KEY in msg.data then Some(msg.data[HOST_KEY]) else None)]]
      ensures msg.msgType != Enrollment ==> enrollmentMap == old(enrollmentMap)
      ensures msg.msgType !in {Enrollment, Assignment} ==> o == Pass && unchanged(this)
      ensures msg.msgType == Assignment ==>
        (o.Pass? <==> ParseAssignment(msg.data).Success? && msg.jobId in jobMap
                      && !SeedFails(jobMap[msg.jobId], IsJobCoordinator(msg.jobId)))
      ensures o.Fail? ==> o == Fail(RuntimeFailure(JOB_MESSAGE_ERROR)) && jobExecutorMap == old(jobExecutorMap)
      ensures msg.msgType == Assignment && o.Pass? ==>
        msg.jobId in jobExecutorMap && msg.jobId in jobMap
        && jobExecutorMap == old(jobExecutorMap)[msg.jobId := jobExecutorMap[msg.jobId]]
        && fresh(jobExecutorMap[msg.jobId]) && fresh(jobExecutorMap[msg.jobId].workQueue)
        && Started(jobExecutorMap[msg.jobId], jobMap[msg.jobId], IsJobCoordinator(msg.jobId))
    {
      match msg.msgType {
        case Enrollment =>
          HandleEnrollmentMessage(msg);
          o := Pass;
        case Assignment =>
          var parsed := ParseAssignment(msg.data);
          if parsed.Failure? {
            return Fail(RuntimeFailure(JOB_MESSAGE_ERROR));
          }
          var doSeed := IsJobCoordinator(msg.jobId);
          o := InitializeEngineForJob(msg.jobId, parsed.value.0, parsed.value.1, doSeed, matches);
        case _ =>
          o := Pass;
      }
    }

    /** initializeEngineForJob: a new executor is initialised with the job and, when
        that succeeds, installed under the job id. */
    method InitializeEngineForJob(jobId: Option<string>, nodeId: int, modSize: int, doSeed: bool,
                                  matches: (string, string) -> bool)
      returns (o: Outcome)
      requires Valid()
      modifies this
      ensures Valid()
      ensures jobMap == old(jobMap) && dataWriterMap == old(dataWriterMap) && outbox == old(outbox)
      ensures enrollmentMap == old(enrollmentMap)
      ensures o.Pass? <==> jobId in jobMap && !SeedFails(jobMap[jobId], doSeed)
      ensures o.Fail? ==> o == Fail(RuntimeFailure(JOB_MESSAGE_ERROR)) && jobExecutorMap == old(jobExecutorMap)
      ensures o.Pass? ==>
        jobId in jobExecutorMap && jobId in jobMap
        && jobExecutorMap == old(jobExecutorMap)[jobId := jobExecutorMap[jobId]]
        && fresh(jobExecutorMap[jobId]) && fresh(jobExecutorMap[jobId].workQueue)
        && Started(jobExecutorMap[jobId], jobMap[jobId], doSeed)
    {
      if jobId !in jobMap {
        return Fail(RuntimeFailure(JOB_MESSAGE_ERROR));
      }
      var ex, io := BuildExecutor(jobMap[jobId], nodeId, modSize, doSeed, matches);
      if io.Fail? {
        return Fail(RuntimeFailure(JOB_MESSAGE_ERROR));
      }
      jobExecutorMap := jobExecutorMap[jobId := ex];
      o := Pass;
    }

    /** handleOutputMessage: a record from a participant joins the batch of the job's
        coordinator writer, when it has one. */
    method HandleOutputMessage(record: DataRecord, jobId: Option<string>)
      requires Valid()
      modifies dataWriterMap.Values
      ensures Valid()
      ensures jobId in dataWriterMap ==>
        var w := dataWriterMap[jobId];
        w.pending == (if record.Key() in old(w.pending) then old(w.pending) else old(w.pending)[record.Key() := record])
        && w.out == old(w.out) && w.closed == old(w.closed)
      ensures forall k :: k in dataWriterMap && k != jobId ==> unchanged(dataWriterMap[k])
    {
      if jobId in dataWriterMap {
        dataWriterMap[jobId].AddItem(record);
      }
    }

    /** flushOutput: every coordinator writer's batch is written out, each record once;
        `written[w]` is the order in which writer w wrote its batch. */
    method FlushOutput() returns (written: map<Writers.DataWriter, seq<DataRecord>>)
      requires Valid()
      modifies dataWriterMap.Values
      ensures Valid()
      ensures written.Keys == dataWriterMap.Values
      ensures forall w :: w in dataWriterMap.Values ==>
        Writers.Flushed(w.format, old((w.pending, w.out, w.trace)), (w.pending, w.out, w.trace), written[w])
      ensures forall k :: k in jobExecutorMap ==> jobExecutorMap[k].done == old(jobExecutorMap[k].done)
    {
      written := map[];
      var writers := dataWriterMap.Values;
      while writers != {}
        invariant writers <= dataWriterMap.Values
        invariant forall w :: w in dataWriterMap.Values ==> w.Valid() && !w.closed
        invariant written.Keys == dataWriterMap.Values - writers
        invariant forall w :: w in written ==>
          Writers.Flushed(w.format, old((w.pending, w.out, w.trace)), (w.pending, w.out, w.trace), written[w])
        invariant forall w :: w in writers ==> unchanged(w)
        decreases writers
      {
        var w :| w in writers;
        var o, batch := w.FlushBatch();
        written := written[w := batch];
        writers := writers - {w};
      }
    }

    /** checkJobStatus: every writer is flushed (`written` as for flushOutput); then each
        done executor is removed, its writer (if any) is finished and removed, and its
        job becomes COMPLETE. Executors that are not done, and their writers, stay. */
    method CheckJobStatus() returns (completed: set<Option<string>>, written: map<Writers.DataWriter, seq<DataRecord>>)
      requires Valid()
      modifies this, dataWriterMap.Values
      ensures Valid()
      ensures completed == set k | k in old(jobExecutorMap) && old(jobExecutorMap[k].done)
      ensures jobExecutorMap == old(jobExecutorMap) - completed
      ensures dataWriterMap == old(dataWriterMap) - completed
      ensures written.Keys == old(dataWriterMap).Values
      ensures forall k :: k in old(dataWriterMap) ==>
        var w := old(dataWriterMap)[k];
        Writers.Flushed(w.format, old((w.pending, w.out, w.trace)), (w.pending, w.out, w.trace), written[w])
        && w.closed == (k in completed && w.format.Csv?)
      ensures jobMap.Keys == old(jobMap).Keys
      ensures forall k :: k in jobMap ==>
        jobMap[k] == if k in completed then old(jobMap)[k].(status := Complete) else old(jobMap)[k]
      ensures enrollmentMap == old(enrollmentMap) && outbox == old(outbox)
    {
      written := FlushOutput();
      completed := FinishCompleted();
      assert dataWriterMap == old(dataWriterMap) - completed;
    }

    /** The loops of checkJobStatus: the done executors are removed, their writers
        finished and removed, their jobs COMPLETE. Batches and output stay as they are. */
    method FinishCompleted() returns (completed: set<Option<string>>)
      requires Valid()
      modifies this, dataWriterMap.Values
      ensures Valid()
      ensures completed == set k | k in old(jobExecutorMap) && old(jobExecutorMap[k].done)
      ensures jobExecutorMap == old(jobExecutorMap) - completed
      ensures dataWriterMap == old(dataWriterMap) - completed
      ensures forall k :: k in old(dataWriterMap) ==>
        var w := old(dataWriterMap)[k];
        (w.pending, w.out, w.trace) == old((w.pending, w.out, w.trace))
        && w.closed == (old(w.closed) || (k in completed && w.format.Csv?))
      ensures jobMap.Keys == old(jobMap).Keys
      ensures forall k :: k in jobMap ==>
        jobMap[k] == if k in completed then old(jobMap)[k].(status := Complete) else old(jobMap)[k]
      ensures enrollmentMap == old(enrollmentMap) && outbox == old(outbox)
    {
      completed := CollectCompleted();
      FinishWriters(completed);
      RemoveCompleted(completed);
    }

    /** The first loop of checkJobStatus: the ids of the executors that are done. */
    method CollectCompleted() returns (completed: set<Option<string>>)
      ensures completed == set k | k in jobExecutorMap && jobExecutorMap[k].done
    {
      completed := {};
      var keys := jobExecutorMap.Keys;
      while keys != {}
        invariant keys <= jobExecutorMap.Keys
        invariant forall k :: k in completed <==> k in jobExecutorMap && k !in keys && jobExecutorMap[k].done
        decreases keys
      {
        var k :| k in keys;
        var isDone := jobExecutorMap[k].IsDone();
        if isDone {
          completed := completed + {k};
        }
        keys := keys - {k};
      }
      assert completed == set k | k in jobExecutorMap && jobExecutorMap[k].done;
    }

    /** Within the same loop: the writer of each completed job, if any, is finished and
        dropped. */
    method FinishWriters(completed: set<Option<string>>)
      requires Valid()
      modifies this, dataWriterMap.Values
      ensures Valid()
      ensures jobExecutorMap == old(jobExecutorMap) && jobMap == old(jobMap)
      ensures enrollmentMap == old(enrollmentMap) && outbox == old(outbox)
      ensures dataWriterMap == old(dataWriterMap) - completed
      ensures forall k :: k in old(dataWriterMap) ==>
        var w := old(dataWriterMap)[k];
        (w.pending, w.out, w.trace) == old((w.pending, w.out, w.trace))
        && w.closed == (old(w.closed) || (k in completed && w.format.Csv?))
    {
      ghost var writers0 := dataWriterMap;
      var ids := completed;
      while ids != {}
        invariant ids <= completed
        invariant jobExecutorMap == old(jobExecutorMap) && jobMap == old(jobMap)
        invariant enrollmentMap == old(enrollmentMap) && outbox == old(outbox)
        invariant dataWriterMap == writers0 - (completed - ids)
        invariant forall k1, k2 :: k1 in writers0 && k2 in writers0 && k1 != k2 ==> writers0[k1] != writers0[k2]
        invariant Valid()
        invariant forall k :: k in writers0 ==>
          (writers0[k].pending, writers0[k].out, writers0[k].trace)
          == old((writers0[k].pending, writers0[k].out, writers0[k].trace))
          && writers0[k].closed == (old(writers0[k].closed) || (k in completed - ids && writers0[k].format.Csv?))
        decreases ids
      {
        var k :| k in ids;
        ghost var before := dataWriterMap;
        FinishWriter(k);
        forall j | j in writers0
          ensures (writers0[j].pending, writers0[j].out, writers0[j].trace)
                  == old((writers0[j].pending, writers0[j].out, writers0[j].trace))
          ensures writers0[j].closed == (old(writers0[j].closed) || (j in completed - (ids - {k}) && writers0[j].format.Csv?))
        {
          if j !in before {
            assert writers0[j] !in before.Values;
          }
        }
        ids := ids - {k};
      }
    }

    /** One completed job's writer, if it has one, is finished and dropped. */
    method FinishWriter(k: Option<string>)
      requires Valid()
      modifies this, dataWriterMap.Values
      ensures Valid()
      ensures jobExecutorMap == old(jobExecutorMap) && jobMap == old(jobMap)
      ensures enrollmentMap == old(enrollmentMap) && outbox == old(outbox)
      ensures dataWriterMap == old(dataWriterMap) - {k}
      ensures forall j :: j in old(dataWriterMap) ==>
        var w := old(dataWriterMap)[j];
        (w.pending, w.out, w.trace) == old((w.pending, w.out, w.trace))
        && w.closed == (old(w.closed) || (j == k && w.format.Csv?))
    {
      if k in dataWriterMap {
        dataWriterMap[k].Finish();
        dataWriterMap := dataWriterMap - {k};
      }
    }

    /** The second loop of checkJobStatus: drops each completed executor and marks its job COMPLETE. */
    method RemoveCompleted(completed: set<Option<string>>)
      requires Valid()
      modifies this
      ensures Valid()
      ensures jobExecutorMap == old(jobExecutorMap) - completed
      ensures jobMap.Keys == old(jobMap).Keys
      ensures forall k :: k in jobMap ==>
        jobMap[k] == if k in completed then old(jobMap)[k].(status := Complete) else old(jobMap)[k]
      ensures dataWriterMap == old(dataWriterMap) && enrollmentMap == old(enrollmentMap) && outbox == old(outbox)
    {
      var ids := completed;
      while ids != {}
        invariant ids <= completed
        invariant jobExecutorMap == old(jobExecutorMap) - (completed - ids)
        invariant jobMap.Keys == old(jobMap).Keys
        invariant forall k :: k in jobMap ==>
          jobMap[k] == if k in completed - ids then old(jobMap)[k].(status := Complete) else old(jobMap)[k]
        invariant dataWriterMap == old(dataWriterMap) && enrollmentMap == old(enrollmentMap) && outbox == old(outbox)
        decreases ids
      {
        var id :| id in ids;
        jobExecutorMap := jobExecutorMap - {id};
        if id in jobMap {
          jobMap := jobMap[id := jobMap[id].(status := Complete)];
        }
        ids := ids - {id};
      }
    }
  }
}
