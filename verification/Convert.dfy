/** Conversions that must agree with each other: a reserved job read from the wire
    (job_from_pb); a dead-lettered one (dead_letter_record_from_pb), replayed
    (DeadLetterRecord.to_enqueue_request) and sent again (enqueue_request_to_pb,
    _inject_trace_into_jobs).  Protobuf messages are datatypes; a field with presence is an
    Option.  Times off the wire are microseconds.

    Assumption: the protobuf library converts and prints exactly the timestamps of its
    range, the years 1 to 9999, and raises ValueError for any other. */
module Convert {
  import opened Options
  import opened Clock
  import opened Traceparent
  import Dedup
  import Enqueue

  // --------------------------------------------------------------------- primitives

  /** A Python value as `custom` can hold; a float is its bit pattern. */
  datatype PyValue = PyBool(b: bool) | PyInt(i: int) | PyFloat(bits: int) | PyStr(s: string) | PyOther

  datatype PbPrimitive = BoolValue(b: bool) | IntValue(i: int) | DoubleValue(bits: int) | StringValue(s: string) | Unset

  predicate FitsInt64(i: int) {
    -0x8000_0000_0000_0000 <= i < 0x8000_0000_0000_0000
  }

  predicate FitsUInt32(i: int) {
    0 <= i < 0x1_0000_0000
  }

  predicate OnWire(v: PbPrimitive) {
    v.IntValue? ==> FitsInt64(v.i)
  }

  /** isinstance(value, int): bool is a subclass of int. */
  predicate IsInstanceOfInt(v: PyValue) {
    v.PyInt? || v.PyBool?
  }

  /** The number a bool or an int is. */
  function AsInt(v: PyValue): int
    requires IsInstanceOfInt(v)
  {
    match v
    case PyInt(i) => i
    case PyBool(b) => if b then 1 else 0
  }

  datatype ConvertError =
    | TypeError
    | ValueError                 // out of range for its field, or an empty name
    | JobConversionError         // a SeppError
    | LibraryError               // ValueError of the protobuf library: no SeppError

  datatype Result<+T> = Ok(value: T) | Err(error: ConvertError)

  /** primitive_to_pb */
  function PrimitiveToPb(v: PyValue): Result<PbPrimitive> {
    if v.PyBool? then Ok(BoolValue(v.b))
    else if IsInstanceOfInt(v) then
      if FitsInt64(AsInt(v)) then Ok(IntValue(AsInt(v))) else Err(ValueError)
    else if v.PyFloat? then Ok(DoubleValue(v.bits))
    else if v.PyStr? then Ok(StringValue(v.s))
    else Err(TypeError)
  }

  /** primitive_from_pb */
  function PrimitiveFromPb(p: PbPrimitive): Option<PyValue> {
    match p
    case BoolValue(b) => Some(PyBool(b))
    case IntValue(i) => Some(PyInt(i))
    case DoubleValue(bits) => Some(PyFloat(bits))
    case StringValue(s) => Some(PyStr(s))
    case Unset => None
  }

  /** The same value under the same tag. */
  predicate SameValue(v: PyValue, p: PbPrimitive) {
    match v
    case PyBool(b) => p == BoolValue(b)
    case PyInt(i) => p == IntValue(i)
    case PyFloat(bits) => p == DoubleValue(bits)
    case PyStr(s) => p == StringValue(s)
    case PyOther => false
  }

  /** Tags survive: a value read from the wire goes back as the very same message, and a
      value that can be sent comes back as itself. */
  lemma PrimitiveRoundTrip(p: PbPrimitive, v: PyValue)
    requires OnWire(p)
    ensures PrimitiveFromPb(p).Some? <==> !p.Unset?
    ensures PrimitiveFromPb(p).Some? ==> PrimitiveToPb(PrimitiveFromPb(p).value) == Ok(p)
    ensures PrimitiveToPb(v).Ok? ==> PrimitiveFromPb(PrimitiveToPb(v).value) == Some(v)
    ensures PrimitiveToPb(v).Ok? <==>
              !v.PyOther? && (v.PyInt? ==> -9_223_372_036_854_775_808 <= v.i <= 9_223_372_036_854_775_807)
    ensures PrimitiveToPb(v).Ok? ==> SameValue(v, PrimitiveToPb(v).value)
    ensures PrimitiveFromPb(p) == Some(v) <==> SameValue(v, p)
  {
  }

  // ----------------------------------------------------------------------- messages

  datatype Payload = Payload(data: seq<bv8>, encoding: string)

  /** google.protobuf.Timestamp */
  datatype PbTimestamp = PbTimestamp(seconds: int, nanos: int)

  const TIMESTAMP_SECONDS_MIN := -62_135_596_800  // 0001-01-01T00:00:00Z
  const TIMESTAMP_SECONDS_MAX := 253_402_300_799  // 9999-12-31T23:59:59Z

  /** ToDatetime() and ToJsonString() return; else they raise. */
  predicate InRange(t: PbTimestamp) {
    TIMESTAMP_SECONDS_MIN <= t.seconds <= TIMESTAMP_SECONDS_MAX && 0 <= t.nanos < 1_000_000_000
  }

  /** timestamp_to_datetime, in microseconds. */
  function TimestampToDatetime(t: PbTimestamp): Option<int> {
    if t.seconds < 0 || t.nanos < 0 || !InRange(t) then None
    else Some(t.seconds * 1_000_000 + t.nanos / 1000)
  }

  predicate Representable(t: PbTimestamp) {
    TimestampToDatetime(t).Some?
  }

  /** The time in microseconds, cut off. */
  predicate IsTime(us: int, t: PbTimestamp) {
    1000 * us <= 1_000_000_000 * t.seconds + t.nanos < 1000 * (us + 1)
  }

  /** From 1970 up to the year 9999, to the microsecond. */
  lemma TimesAreKept(t: PbTimestamp)
    ensures Representable(t) <==> 0 <= t.seconds < 253_402_300_800 && 0 <= t.nanos < 1_000_000_000
    ensures Representable(t) ==> IsTime(TimestampToDatetime(t).value, t)
  {
  }

  datatype PbJob = PbJob(
    id: string,
    jobType: string,
    queue: string,
    attempt: nat,
    payload: Option<Payload>,
    priority: nat,
    traceContext: Option<PbTraceContext>,
    enqueuedAt: PbTimestamp,
    leaseExpiresAt: PbTimestamp,
    maxAttempts: nat,
    custom: map<string, PbPrimitive>,
    scheduledAt: Option<PbTimestamp>)

  datatype PbDeadLetterRecord = PbDeadLetterRecord(
    job: Option<PbJob>,
    cause: int,
    failedAt: PbTimestamp,
    finalAttempt: nat,
    lastReason: Option<string>)

  datatype PbEnqueueRequest = PbEnqueueRequest(
    queue: string,
    jobType: string,
    payload: Option<Payload>,
    idempotencyKey: Option<string>,
    priority: Option<nat>,
    maxAttempts: Option<nat>,
    traceContext: Option<PbTraceContext>,
    custom: map<string, PbPrimitive>,
    scheduledAt: Option<int>)

  predicate JobOnWire(j: PbJob) {
    && FitsUInt32(j.priority) && FitsUInt32(j.maxAttempts)
    && forall k :: k in j.custom ==> OnWire(j.custom[k])
  }

  // ------------------------------------------------------------------- domain types

  datatype DeadLetterCause = Unspecified | AttemptsExhausted | Rejected | LeaseExpired | Admin

  /** The causes known to the client, by their numbers on the wire. */
  const CAUSE_FROM_PB: map<int, DeadLetterCause> :=
    map[1 := AttemptsExhausted, 2 := Rejected, 3 := LeaseExpired, 4 := Admin]

  datatype DeadLetterRecord = DeadLetterRecord(
    queue: string,
    jobId: string,
    jobType: string,
    payload: Option<Payload>,
    priority: nat,
    maxAttempts: nat,
    custom: map<string, PyValue>,
    traceContext: Option<TraceContext>,
    enqueuedAt: int,
    scheduledAt: Option<int>,
    cause: DeadLetterCause,
    failedAt: int,
    finalAttempt: nat,
    lastReason: Option<string>)

  datatype EnqueueRequest = EnqueueRequest(
    queue: string,
    jobType: string,
    payload: Option<Payload>,
    idempotencyKey: Option<string>,
    priority: Option<int>,
    maxAttempts: Option<int>,
    custom: map<string, PyValue>,
    traceContext: Option<TraceContext>,
    scheduledAt: Option<int>)

  /** Priority(value) */
  predicate PriorityInRange(p: int) {
    0 <= p <= 9
  }

  /** EnqueueRequest.__post_init__ */
  function MakeEnqueueRequest(r: EnqueueRequest): Result<EnqueueRequest> {
    if r.queue == "" || r.jobType == "" then Err(ValueError)
    else if r.priority.Some? && !PriorityInRange(r.priority.value) then Err(ValueError)
    else Ok(r)
  }

  /** A request needs a queue, a type, and if any a priority from 0 to 9; it is not altered. */
  lemma RequestIsChecked(r: EnqueueRequest)
    ensures MakeEnqueueRequest(r).Ok? <==>
              r.queue != "" && r.jobType != "" && (r.priority.Some? ==> 0 <= r.priority.value <= 9)
    ensures MakeEnqueueRequest(r).Ok? ==> MakeEnqueueRequest(r).value == r
  {
  }

  // ------------------------------------------------------------------- the custom map

  predicate AllSet(custom: map<string, PbPrimitive>) {
    forall k :: k in custom ==> !custom[k].Unset?
  }

  function CustomFromPb(custom: map<string, PbPrimitive>): map<string, PyValue>
    requires AllSet(custom)
  {
    map k | k in custom :: PrimitiveFromPb(custom[k]).value
  }

  /** The loop that builds `custom`; the order of a protobuf map is unspecified. */
  method BuildCustom(custom: map<string, PbPrimitive>) returns (r: Result<map<string, PyValue>>)
    ensures r == if AllSet(custom) then Ok(CustomFromPb(custom)) else Err(JobConversionError)
  {
    var built: map<string, PyValue> := map[];
    var rest := custom.Keys;
    while rest != {}
      invariant rest <= custom.Keys && built.Keys == custom.Keys - rest
      invariant forall k :: k in built ==> !custom[k].Unset? && Some(built[k]) == PrimitiveFromPb(custom[k])
      decreases rest
    {
      var key :| key in rest;
      var value := PrimitiveFromPb(custom[key]);
      if value.None? {
        return Err(JobConversionError);
      }
      built := built[key := value.value];
      rest := rest - {key};
    }
    assert built == CustomFromPb(custom);
    return Ok(built);
  }

  predicate AllSendable(custom: map<string, PyValue>) {
    forall k :: k in custom ==> PrimitiveToPb(custom[k]).Ok?
  }

  function CustomToPb(custom: map<string, PyValue>): map<string, PbPrimitive>
    requires AllSendable(custom)
  {
    map k | k in custom :: PrimitiveToPb(custom[k]).value
  }

  /** The loop that fills the message's `custom`; which bad entry raises is unspecified. */
  method SendCustom(custom: map<string, PyValue>) returns (r: Result<map<string, PbPrimitive>>)
    ensures r.Ok? <==> AllSendable(custom)
    ensures r.Ok? ==> r.value == CustomToPb(custom)
    ensures r.Err? ==> !r.error.JobConversionError?
  {
    var sent: map<string, PbPrimitive> := map[];
    var rest := custom.Keys;
    while rest != {}
      invariant rest <= custom.Keys && sent.Keys == custom.Keys - rest
      invariant forall k :: k in sent ==> PrimitiveToPb(custom[k]) == Ok(sent[k])
      decreases rest
    {
      var key :| key in rest;
      var value := PrimitiveToPb(custom[key]);
      if value.Err? {
        return Err(value.error);
      }
      sent := sent[key := value.value];
      rest := rest - {key};
    }
    assert sent == CustomToPb(custom);
    return Ok(sent);
  }

  /** Entry for entry the same values. */
  predicate SameCustom(custom: map<string, PyValue>, pb: map<string, PbPrimitive>) {
    custom.Keys == pb.Keys && forall k :: k in pb ==> SameValue(custom[k], pb[k])
  }

  lemma CustomIsSame(custom: map<string, PyValue>, pb: map<string, PbPrimitive>)
    ensures AllSendable(custom) ==> SameCustom(custom, CustomToPb(custom))
    ensures AllSet(pb) ==> SameCustom(CustomFromPb(pb), pb)
  {
  }

  lemma CustomRoundTrip(custom: map<string, PbPrimitive>)
    requires AllSet(custom) && forall k :: k in custom ==> OnWire(custom[k])
    ensures AllSendable(CustomFromPb(custom))
    ensures CustomToPb(CustomFromPb(custom)) == custom
  {
    forall k | k in custom ensures PrimitiveToPb(CustomFromPb(custom)[k]) == Ok(custom[k]) {
      PrimitiveRoundTrip(custom[k], PyOther);
    }
  }

  // ------------------------------------------------------ jobs and records from the wire

  /** timestamp_to_datetime, and the error if there is no such time: its text quotes the
      timestamp through ToJsonString(). */
  function TimeFromPb(t: PbTimestamp): Result<int> {
    match TimestampToDatetime(t)
    case Some(us) => Ok(us)
    case None => Err(if InRange(t) then JobConversionError else LibraryError)
  }

  /** _scheduled_at_from_pb */
  function ScheduledAtFromPb(t: Option<PbTimestamp>): Option<int> {
    if t.Some? then TimestampToDatetime(t.value) else None
  }

  predicate Named(j: PbJob) {
    j.id != "" && j.jobType != "" && PriorityInRange(j.priority)
  }

  /** job_from_pb accepts the job. */
  predicate JobConverts(j: PbJob) {
    Named(j) && Representable(j.enqueuedAt) && Representable(j.leaseExpiresAt) && AllSet(j.custom)
  }

  /** The first time of the job that is not representable is out of the library's range. */
  predicate JobCrashes(j: PbJob) {
    Named(j) && (!InRange(j.enqueuedAt) || (Representable(j.enqueuedAt) && !InRange(j.leaseExpiresAt)))
  }

  /** A Job, with its JobCtx. */
  datatype ReservedJob = ReservedJob(
    id: string,
    queue: string,
    jobType: string,
    payload: Option<Payload>,
    priority: nat,
    attempt: nat,
    maxAttempts: nat,
    enqueuedAt: int,
    custom: map<string, PyValue>,
    traceContext: Option<TraceContext>,
    leaseExpiresAt: int,
    scheduledAt: Option<int>)

  function ReservedFromPb(j: PbJob): ReservedJob
    requires JobConverts(j)
  {
    ReservedJob(j.id, j.queue, j.jobType, j.payload, j.priority, j.attempt, j.maxAttempts,
                TimestampToDatetime(j.enqueuedAt).value, CustomFromPb(j.custom), TraceOf(j.traceContext),
                TimestampToDatetime(j.leaseExpiresAt).value, ScheduledAtFromPb(j.scheduledAt))
  }

  predicate SameTrace(t: Option<TraceContext>, m: Option<PbTraceContext>) {
    && (t.Some? <==> m.Some? && Positional(m.value.traceparent))
    && (t.Some? ==> (t.value.traceparent, t.value.tracestate) == (m.value.traceparent, m.value.tracestate))
  }

  /** A schedule is kept if it is a representable time. */
  predicate SameSchedule(at: Option<int>, t: Option<PbTimestamp>) {
    && (at.Some? <==> t.Some? && Representable(t.value))
    && (at.Some? ==> IsTime(at.value, t.value))
  }

  /** Field by field, what the handler sees is what the server sent. */
  predicate IsJob(r: ReservedJob, j: PbJob) {
    && (r.id, r.queue, r.jobType, r.payload) == (j.id, j.queue, j.jobType, j.payload)
    && (r.priority, r.attempt, r.maxAttempts) == (j.priority, j.attempt, j.maxAttempts)
    && IsTime(r.enqueuedAt, j.enqueuedAt) && IsTime(r.leaseExpiresAt, j.leaseExpiresAt)
    && SameCustom(r.custom, j.custom) && SameTrace(r.traceContext, j.traceContext)
    && SameSchedule(r.scheduledAt, j.scheduledAt)
  }

  lemma ReservedIsJob(j: PbJob)
    requires JobConverts(j)
    ensures IsJob(ReservedFromPb(j), j) && 0 <= j.priority <= 9
  {
    CustomIsSame(map[], j.custom);
    TimesAreKept(j.enqueuedAt);
    TimesAreKept(j.leaseExpiresAt);
    if j.traceContext.Some? {
      TraceContextRoundTrip(j.traceContext.value);
    }
    if j.scheduledAt.Some? {
      TimesAreKept(j.scheduledAt.value);
    }
  }

  /** job_from_pb */
  method JobFromPb(j: PbJob) returns (r: Result<ReservedJob>)
    ensures r.Ok? <==> JobConverts(j)
    ensures r.Ok? ==> r.value == ReservedFromPb(j) && (r.value.id, r.value.attempt) == (j.id, j.attempt)
    ensures r.Ok? ==> IsJob(r.value, j) && 0 <= j.priority <= 9
    ensures r == Err(LibraryError) <==> JobCrashes(j)
    ensures r.Err? ==> r.error.LibraryError? || r.error.JobConversionError?
  {
    if j.id == "" || j.jobType == "" {
      return Err(JobConversionError);
    }
    if !PriorityInRange(j.priority) {
      return Err(JobConversionError);
    }
    var enqueuedAt := TimeFromPb(j.enqueuedAt);
    if enqueuedAt.Err? {
      return Err(enqueuedAt.error);
    }
    var leaseExpiresAt := TimeFromPb(j.leaseExpiresAt);
    if leaseExpiresAt.Err? {
      return Err(leaseExpiresAt.error);
    }
    var custom := BuildCustom(j.custom);
    if custom.Err? {
      return Err(custom.error);
    }
    var traceContext: Option<TraceContext> := None;
    if j.traceContext.Some? {
      traceContext := TraceContextFromPb(j.traceContext.value);
    }
    ReservedIsJob(j);
    return Ok(ReservedJob(j.id, j.queue, j.jobType, j.payload, j.priority, j.attempt, j.maxAttempts,
                          enqueuedAt.value, custom.value, traceContext, leaseExpiresAt.value,
                          ScheduledAtFromPb(j.scheduledAt)));
  }

  /** A job without fault but for its enqueue time, one second after the year 9999. */
  lemma FarJob() returns (j: PbJob)
    ensures j.enqueuedAt == PbTimestamp(TIMESTAMP_SECONDS_MAX + 1, 0) && JobCrashes(j)
    ensures !JobConverts(j) && JobConverts(j.(enqueuedAt := PbTimestamp(TIMESTAMP_SECONDS_MAX, 0)))
  {
    j := PbJob("a", "t", "q", 1, None, 0, None, PbTimestamp(TIMESTAMP_SECONDS_MAX + 1, 0), PbTimestamp(0, 0),
               0, map[], None);
  }

  predicate RecordConverts(r: PbDeadLetterRecord) {
    && r.job.Some? && Representable(r.failedAt)
    && Named(r.job.value) && Representable(r.job.value.enqueuedAt) && AllSet(r.job.value.custom)
  }

  predicate RecordCrashes(r: PbDeadLetterRecord) {
    && r.job.Some? && Named(r.job.value)
    && (!InRange(r.job.value.enqueuedAt)
        || (Representable(r.job.value.enqueuedAt) && !InRange(r.failedAt)))
  }

  function TraceOf(m: Option<PbTraceContext>): Option<TraceContext> {
    if m.Some? then TraceContextFromPb(m.value) else None
  }

  function RecordFromPb(r: PbDeadLetterRecord): DeadLetterRecord
    requires RecordConverts(r)
  {
    var j := r.job.value;
    DeadLetterRecord(j.queue, j.id, j.jobType, j.payload, j.priority, j.maxAttempts,
                     CustomFromPb(j.custom), TraceOf(j.traceContext),
                     TimestampToDatetime(j.enqueuedAt).value, ScheduledAtFromPb(j.scheduledAt),
                     if r.cause in CAUSE_FROM_PB then CAUSE_FROM_PB[r.cause] else Unspecified,
                     TimestampToDatetime(r.failedAt).value, r.finalAttempt, r.lastReason)
  }

  /** Field by field, the record is what the server kept. */
  predicate IsRecord(d: DeadLetterRecord, r: PbDeadLetterRecord) {
    && r.job.Some?
    && var j := r.job.value;
       && (d.jobId, d.queue, d.jobType, d.payload) == (j.id, j.queue, j.jobType, j.payload)
       && (d.priority, d.maxAttempts) == (j.priority, j.maxAttempts)
       && IsTime(d.enqueuedAt, j.enqueuedAt) && IsTime(d.failedAt, r.failedAt)
       && SameCustom(d.custom, j.custom) && SameTrace(d.traceContext, j.traceContext)
       && SameSchedule(d.scheduledAt, j.scheduledAt)
       && (d.finalAttempt, d.lastReason) == (r.finalAttempt, r.lastReason)
       && d.cause == match r.cause
            case 1 => AttemptsExhausted
            case 2 => Rejected
            case 3 => LeaseExpired
            case 4 => Admin
            case _ => Unspecified
  }

  lemma RecordIsRecord(r: PbDeadLetterRecord)
    requires RecordConverts(r)
    ensures IsRecord(RecordFromPb(r), r) && 0 <= r.job.value.priority <= 9
  {
    var j := r.job.value;
    CustomIsSame(map[], j.custom);
    TimesAreKept(j.enqueuedAt);
    TimesAreKept(r.failedAt);
    if j.traceContext.Some? {
      TraceContextRoundTrip(j.traceContext.value);
    }
    if j.scheduledAt.Some? {
      TimesAreKept(j.scheduledAt.value);
    }
  }

  /** dead_letter_record_from_pb */
  method DeadLetterRecordFromPb(r: PbDeadLetterRecord) returns (record: Result<DeadLetterRecord>)
    ensures record.Ok? <==> RecordConverts(r)
    ensures record.Ok? ==> record.value == RecordFromPb(r)
    ensures record.Ok? ==> IsRecord(record.value, r) && 0 <= r.job.value.priority <= 9
    ensures record == Err(LibraryError) <==> RecordCrashes(r)
    ensures record.Err? ==> record.error.LibraryError? || record.error.JobConversionError?
  {
    if r.job.None? {
      return Err(JobConversionError);
    }
    var j := r.job.value;
    if j.id == "" || j.jobType == "" {
      return Err(JobConversionError);
    }
    if !PriorityInRange(j.priority) {
      return Err(JobConversionError);
    }
    var enqueuedAt := TimeFromPb(j.enqueuedAt);
    if enqueuedAt.Err? {
      return Err(enqueuedAt.error);
    }
    var failedAt := TimeFromPb(r.failedAt);
    if failedAt.Err? {
      return Err(failedAt.error);
    }
    var custom := BuildCustom(j.custom);
    if custom.Err? {
      return Err(custom.error);
    }
    var traceContext: Option<TraceContext> := None;
    if j.traceContext.Some? {
      traceContext := TraceContextFromPb(j.traceContext.value);
    }
    var cause := Unspecified;
    if r.cause in CAUSE_FROM_PB {
      cause := CAUSE_FROM_PB[r.cause];
    }
    RecordIsRecord(r);
    return Ok(DeadLetterRecord(j.queue, j.id, j.jobType, j.payload, j.priority, j.maxAttempts,
                               custom.value, traceContext, enqueuedAt.value,
                               ScheduledAtFromPb(j.scheduledAt),
                               cause, failedAt.value, r.finalAttempt, r.lastReason));
  }

  // ----------------------------------------------------------------- replay and sending

  /** DeadLetterRecord.to_enqueue_request */
  function ToEnqueueRequest(d: DeadLetterRecord): Result<EnqueueRequest> {
    MakeEnqueueRequest(EnqueueRequest(
      d.queue, d.jobType, d.payload, None, Some(d.priority),
      if d.maxAttempts == 0 then None else Some(d.maxAttempts),
      d.custom, d.traceContext, None))
  }

  predicate Sendable(r: EnqueueRequest) {
    && (r.priority.Some? ==> FitsUInt32(r.priority.value))
    && (r.maxAttempts.Some? ==> FitsUInt32(r.maxAttempts.value))
    && AllSendable(r.custom)
  }

  function ToPb(r: EnqueueRequest): PbEnqueueRequest
    requires Sendable(r)
  {
    PbEnqueueRequest(
      r.queue, r.jobType, r.payload, r.idempotencyKey,
      if r.priority.Some? then Some(r.priority.value) else None,
      if r.maxAttempts.Some? then Some(r.maxAttempts.value) else None,
      if r.traceContext.Some? then Some(TraceContextToPb(r.traceContext.value)) else None,
      CustomToPb(r.custom),
      if r.scheduledAt.Some? && Millis(r.scheduledAt.value) >= 0 then r.scheduledAt else None)
  }

  /** Field by field, the message asks for what the caller did: a key goes out as it is, and
      a schedule unless it lies before 1970. */
  predicate Carries(m: PbEnqueueRequest, r: EnqueueRequest) {
    && (m.queue, m.jobType, m.payload, m.idempotencyKey) == (r.queue, r.jobType, r.payload, r.idempotencyKey)
    && m.priority.Some? == r.priority.Some? && (r.priority.Some? ==> m.priority.value == r.priority.value)
    && m.maxAttempts.Some? == r.maxAttempts.Some?
    && (r.maxAttempts.Some? ==> m.maxAttempts.value == r.maxAttempts.value)
    && SameCustom(r.custom, m.custom)
    && m.traceContext.Some? == r.traceContext.Some? && SameTrace(r.traceContext, m.traceContext)
    && m.scheduledAt == (if r.scheduledAt.Some? && r.scheduledAt.value >= 0 then r.scheduledAt else None)
  }

  /** The numbers fit their fields, and every custom entry has a tag. */
  predicate FitsMessage(r: EnqueueRequest) {
    && (r.priority.Some? ==> 0 <= r.priority.value <= 4_294_967_295)
    && (r.maxAttempts.Some? ==> 0 <= r.maxAttempts.value <= 4_294_967_295)
    && forall k :: k in r.custom ==>
         && !r.custom[k].PyOther?
         && (r.custom[k].PyInt? ==> -9_223_372_036_854_775_808 <= r.custom[k].i <= 9_223_372_036_854_775_807)
  }

  lemma MessageCarriesRequest(r: EnqueueRequest)
    ensures Sendable(r) <==> FitsMessage(r)
    ensures Sendable(r) ==> Carries(ToPb(r), r)
  {
    CustomIsSame(r.custom, map[]);
    forall k | k in r.custom
      ensures PrimitiveToPb(r.custom[k]).Ok? <==>
                && !r.custom[k].PyOther?
                && (r.custom[k].PyInt? ==> -9_223_372_036_854_775_808 <= r.custom[k].i <= 9_223_372_036_854_775_807)
    {
      PrimitiveRoundTrip(Unset, r.custom[k]);
    }
    if r.traceContext.Some? {
      ValidatorIsGrammar(r.traceContext.value.traceparent);
    }
  }

  /** enqueue_request_to_pb */
  method EnqueueRequestToPb(r: EnqueueRequest) returns (m: Result<PbEnqueueRequest>)
    ensures m.Ok? <==> FitsMessage(r)
    ensures m.Ok? ==> Carries(m.value, r)
    ensures m.Ok? ==> Sendable(r) && m.value == ToPb(r)
  {
    MessageCarriesRequest(r);
    var pb := PbEnqueueRequest(r.queue, r.jobType, None, None, None, None, None, map[], None);
    if r.payload.Some? {
      pb := pb.(payload := r.payload);
    }
    if r.idempotencyKey.Some? {
      pb := pb.(idempotencyKey := r.idempotencyKey);
    }
    if r.priority.Some? {
      if !FitsUInt32(r.priority.value) {
        return Err(ValueError);
      }
      pb := pb.(priority := Some(r.priority.value));
    }
    if r.maxAttempts.Some? {
      if !FitsUInt32(r.maxAttempts.value) {
        return Err(ValueError);
      }
      pb := pb.(maxAttempts := Some(r.maxAttempts.value));
    }
    if r.traceContext.Some? {
      pb := pb.(traceContext := Some(TraceContextToPb(r.traceContext.value)));
    }
    var custom := SendCustom(r.custom);
    if custom.Err? {
      return Err(custom.error);
    }
    pb := pb.(custom := custom.value);
    if r.scheduledAt.Some? {
      // A time before 1970 goes out as no schedule at all: run now.
      if Millis(r.scheduledAt.value) >= 0 {
        pb := pb.(scheduledAt := r.scheduledAt);
      }
    }
    return Ok(pb);
  }

  /** A job with the same content, to run now, under no key. */
  predicate Replays(j: PbJob, m: PbEnqueueRequest) {
    && m.queue == j.queue && m.jobType == j.jobType && m.payload == j.payload
    && m.priority == Some(j.priority)
    && m.maxAttempts == (if j.maxAttempts == 0 then None else Some(j.maxAttempts))
    && m.custom == j.custom
    && m.traceContext == (if j.traceContext.Some? && Positional(j.traceContext.value.traceparent)
                          then j.traceContext else None)
    && m.scheduledAt.None? && m.idempotencyKey.None?
  }

  /** Record, replay request and message: the replay goes through exactly when the record
      converts and names its queue, and then it is the original job, wire to wire. */
  lemma ReplayPreservesJob(r: PbDeadLetterRecord)
    requires r.job.Some? ==> JobOnWire(r.job.value)
    requires RecordConverts(r)
    ensures var request := ToEnqueueRequest(RecordFromPb(r));
            && (request.Ok? <==> r.job.value.queue != "")
            && (request.Ok? ==> Sendable(request.value) && Replays(r.job.value, ToPb(request.value)))
  {
    var j := r.job.value;
    CustomRoundTrip(j.custom);
    if j.traceContext.Some? {
      TraceContextRoundTrip(j.traceContext.value);
    }
  }

  function KeysOf(jobs: seq<PbEnqueueRequest>): seq<Dedup.Key> {
    seq(|jobs|, i requires 0 <= i < |jobs| => jobs[i].idempotencyKey)
  }

  /** The messages of a batch carry keys exactly where its requests do. */
  lemma BatchKeepsKeys(requests: seq<EnqueueRequest>, messages: seq<PbEnqueueRequest>)
    requires |requests| == |messages|
    requires forall i :: 0 <= i < |requests| ==> Carries(messages[i], requests[i])
    ensures |KeysOf(messages)| == |requests|
    ensures forall i :: 0 <= i < |requests| ==> KeysOf(messages)[i] == requests[i].idempotencyKey
    ensures Enqueue.AllKeyed(KeysOf(messages)) <==>
              forall i :: 0 <= i < |requests| ==> requests[i].idempotencyKey.Some?
  {
    assert forall i :: 0 <= i < |requests| ==> KeysOf(messages)[i] == requests[i].idempotencyKey;
  }

  /** A batch with a replay in it never has an ambiguous code retried. */
  lemma ReplaysAreNotRetriedBlindly(j: PbJob, jobs: seq<PbEnqueueRequest>, i: nat)
    requires i < |jobs| && Replays(j, jobs[i])
    ensures Enqueue.EnqueueRetryableCodes(KeysOf(jobs)) <= Enqueue.NOT_COMMITTED
  {
    Enqueue.KeylessBatchCodes(KeysOf(jobs), i);
  }

  // ------------------------------------------------------------------ trace injection

  /** The current span's headers; tracestate may be absent or empty. */
  datatype Headers = Headers(traceparent: string, tracestate: Option<string>)

  function Injected(m: PbEnqueueRequest, headers: Headers): PbEnqueueRequest {
    if m.traceContext.Some? then m
    else m.(traceContext := Some(PbTraceContext(headers.traceparent,
              if headers.tracestate == Some("") then None else headers.tracestate)))
  }

  /** Injection fills a gap and nothing else: a message with a trace is sent as it is, one
      without continues the current trace. */
  predicate Continues(m: PbEnqueueRequest, headers: Headers, sent: PbEnqueueRequest) {
    if m.traceContext.Some? then sent == m
    else
      && sent.(traceContext := None) == m
      && sent.traceContext.Some? && sent.traceContext.value.traceparent == headers.traceparent
      && sent.traceContext.value.tracestate
         == match headers.tracestate case Some("") => None case tracestate => tracestate
  }

  lemma InjectionFillsGap(m: PbEnqueueRequest, headers: Headers)
    ensures Continues(m, headers, Injected(m, headers))
  {
  }

  /** _inject_trace_into_jobs edits the batch in place. */
  method InjectTraceIntoJobs(jobs: array<PbEnqueueRequest>, current: Option<Headers>)
    modifies jobs
    ensures forall i :: 0 <= i < jobs.Length ==>
              if current.None? then jobs[i] == old(jobs[i])
              else jobs[i] == Injected(old(jobs[i]), current.value) && Continues(old(jobs[i]), current.value, jobs[i])
  {
    if current.None? {
      return;
    }
    var headers := current.value;
    for k := 0 to jobs.Length
      invariant forall i :: 0 <= i < k ==> jobs[i] == Injected(old(jobs[i]), headers)
      invariant forall i :: k <= i < jobs.Length ==> jobs[i] == old(jobs[i])
    {
      if jobs[k].traceContext.Some? {
        continue;
      }
      var trace := PbTraceContext(headers.traceparent, None);
      if headers.tracestate.Some? && headers.tracestate.value != "" {
        trace := trace.(tracestate := headers.tracestate);
      }
      jobs[k] := jobs[k].(traceContext := Some(trace));
    }
  }

  /** A replay that kept its trace is sent as it is, and one that lost it continues the
      current trace; no job gains or loses a key. */
  lemma InjectionKeepsReplays(j: PbJob, m: PbEnqueueRequest, headers: Headers)
    requires Replays(j, m)
    ensures m.traceContext.Some? ==> Replays(j, Injected(m, headers)) && Injected(m, headers) == m
    ensures m.traceContext.None? ==> Continues(m, headers, Injected(m, headers))
    ensures Injected(m, headers).idempotencyKey.None?
  {
    InjectionFillsGap(m, headers);
  }
}
