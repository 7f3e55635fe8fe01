/** Values shared by every part of the job queue: the job row, its status,
    the audit log entry and the error/option wrappers. */
module Types {

  datatype Option<+T> = None | Some(value: T)

  /** The errors the services raise: an error carrying an HTTP status code,
      or a failure of the underlying store. */
  datatype ServiceError = HttpError(status: int, message: string) | StorageFailure

  datatype Result<+T> = Ok(value: T) | Err(error: ServiceError)

  /** Job ids are UUID strings; user ids are compared as strings (String(owner_id)). */
  type JobId = string
  type UserId = string

  datatype Status = Pending | Running | Done | Failed | Dlq

  /** The text stored in the status column. */
  function StatusName(s: Status): string {
    match s
    case Pending => "pending"
    case Running => "running"
    case Done => "done"
    case Failed => "failed"
    case Dlq => "dlq"
  }

  /** A JavaScript value as far as the queue looks at it: falsy, or truthy
      together with its JSON serialization. */
  datatype Value = Falsy | Truthy(json: string)

  /** What a handler receives as `payload`: the parsed value, the raw stored
      string when it does not parse, or null when the column is null. */
  datatype HandlerPayload = Parsed(value: Value) | Raw(text: string) | NullPayload

  /** One row of the jobs table. */
  datatype Job = Job(
    id: JobId,
    ownerId: UserId,
    taskType: string,
    payload: Option<string>,
    status: Status,
    retries: nat,
    maxRetries: int,
    leaseWorker: Option<string>,
    leaseUntil: Option<int>,
    createdAt: int,
    startedAt: Option<int>,
    finishedAt: Option<int>,
    nextAttemptAfter: Option<int>,
    result: Option<string>,
    error: Option<string>,
    dlqRedrives: Option<nat>,
    jobHash: Option<string>)

  /** COALESCE(dlq_redrives, 0) */
  function Redrives(j: Job): nat {
    match j.dlqRedrives
    case None => 0
    case Some(n) => n
  }

  datatype Level = Info | Warn | Error

  /** The structured `meta` objects the core attaches to log entries; each
      stands for its JSON serialization. */
  datatype Meta =
    | PayloadMeta(handlerPayload: HandlerPayload)
    | ResultMeta(result: Value)
    | StackMeta(stack: Option<string>)
    | RequeuedAtMeta(requeuedAt: int)
    | ScheduledMeta(taskType: string, submitter: UserId, submittedPayload: Option<string>)
    | EmptyMeta

  /** One row of the logs table (its ISO timestamp is not modelled). */
  datatype LogEntry = LogEntry(
    ownerType: string,
    ownerId: Option<string>,
    level: Level,
    message: string,
    meta: Option<Meta>)

  function Min(a: int, b: int): int {
    if a <= b then a else b
  }

  /** Decimal rendering of a natural number, as template strings print it. */
  function DecimalString(n: nat): string {
    if n < 10 then [DigitChar(n)] else DecimalString(n / 10) + [DigitChar(n % 10)]
  }

  function DigitChar(d: nat): char
    requires d < 10
  {
    "0123456789"[d]
  }
}
