/** The beans exchanged by the coordinator, the executors and the REST surface:
    a crawl Job, a host's JobEnrollment in a job, a ManagementMessage on the
    management topic and the PluginConfig that names an extractor, writer or
    enhancer. A Java `null` is `None`. Getters and setters are field selection
    and datatype update. */
module Model {
  import opened Wrappers
  import Strings

  // ---------------------------------------------------------------- Job

  datatype Status = Submitted | Processing | Complete

  datatype Mode = Once | Continuous

  /** Enum.toString of a job status. */
  function StatusName(s: Status): string {
    match s
    case Submitted => "SUBMITTED"
    case Processing => "PROCESSING"
    case Complete => "COMPLETE"
  }

  datatype PluginType = DataExtractor | DataWriter | DataEnhancer

  datatype PluginConfig = PluginConfig(
    pluginType: Option<PluginType>,
    className: Option<string>,
    pluginProperties: Option<map<string, string>>)

  datatype Job = Job(
    jobName: Option<string>,
    submissionTime: int,
    startUrls: Option<set<string>>,
    includePatterns: set<string>,
    ignorePatterns: set<string>,
    maxThreads: int,
    dataExtractor: Option<PluginConfig>,
    dataWriter: Option<PluginConfig>,
    coordinatorDataWriter: Option<PluginConfig>,
    dataEnhancers: Option<seq<PluginConfig>>,
    status: Status,
    mode: Option<Mode>,
    guid: Option<string>,
    coordinatorId: Option<string>,
    continuousCrawlInterval: Option<int>)

  /** new Job(): submitted now, with no guid, no coordinator and no settings. */
  function NewJob(now: int): (j: Job)
    ensures j.status == Submitted && j.submissionTime == now
    ensures j.guid.None? && j.coordinatorId.None?
    ensures j.mode.None? && j.maxThreads == 0 && j.startUrls.None?
  {
    Job(None, now, None, {}, {}, 0, None, None, None, None, Submitted, None, None, None, None)
  }

  /** The status names are exactly the three statuses, each named once. */
  lemma StatusNamesDistinct(a: Status, b: Status)
    ensures StatusName(a) == StatusName(b) <==> a == b
  {
  }

  // ---------------------------------------------------------------- JobEnrollment

  datatype JobEnrollment = JobEnrollment(
    jobId: Option<string>,
    hostId: Option<string>,
    lastHeartbeat: int,
    complete: bool)
  {
    /** equals: jobId and hostId agree, two nulls counting as equal. */
    predicate Equals(other: JobEnrollment) {
      jobId == other.jobId && hostId == other.hostId
    }

    /** hashCode: 31 * (31 + hash(hostId)) + hash(jobId), a null hashing to 0. */
    function HashCode(): int {
      var h1 := Strings.Wrap32(31 * 1 + NullableHash(hostId));
      Strings.Wrap32(31 * h1 + NullableHash(jobId))
    }
  }

  function NullableHash(s: Option<string>): int {
    if s.None? then 0 else Strings.StringHash(s.value)
  }

  /** new JobEnrollment(job, host): no heartbeat yet and not complete. */
  function NewEnrollment(job: Option<string>, host: Option<string>): (e: JobEnrollment)
    ensures e.jobId == job && e.hostId == host
    ensures e.lastHeartbeat == 0 && !e.complete
  {
    JobEnrollment(job, host, 0, false)
  }

  /** equals looks only at the identity pair: equal enrollments differ at most in
      their heartbeat and completion, and recording a heartbeat or completion keeps
      an enrollment equal to what it was. */
  lemma EnrollmentEquality(a: JobEnrollment, b: JobEnrollment, heartbeat: int, complete: bool)
    ensures a.Equals(b) <==> a.(lastHeartbeat := b.lastHeartbeat, complete := b.complete) == b
    ensures a.(lastHeartbeat := heartbeat, complete := complete).Equals(a)
    ensures a.Equals(b) ==> a.(lastHeartbeat := heartbeat, complete := complete).Equals(b)
  {
  }

  /** Equal enrollments hash alike. */
  lemma EnrollmentHashConsistent(a: JobEnrollment, b: JobEnrollment)
    requires a.Equals(b)
    ensures a.HashCode() == b.HashCode()
  {
  }

  // ---------------------------------------------------------------- ManagementMessage

  datatype MessageType = Heartbeat | Enrollment | Assignment | Ack | Abort

  datatype ManagementMessage = ManagementMessage(
    msgType: MessageType,
    data: map<string, string>,
    jobId: Option<string>)
}
