/** The stored entities of the relay and the timing constants its tasks share. */
module Messages {
  import opened Options

  type MsgId = string
  type TaskId = string

  /** Points in time and durations, in microseconds (the resolution of the stored timestamps). */
  type Time = int

  const SECOND: Time := 1_000_000
  const MINUTE: Time := 60 * SECOND

  /** Celery's hard limit on one run of a task. */
  const TASK_TIME_LIMIT: Time := 60 * SECOND
  /** The longest countdown before a retry. */
  const RETRY_BACKOFF_MAX: Time := 3600 * SECOND
  /** The broker redelivers a task that was not acknowledged for this long. */
  const VISIBILITY_TIMEOUT: Time := 3900 * SECOND
  const REENQUEUE_AFTER: Time := 15 * MINUTE
  const STALE_SENDING_AFTER: Time := 120 * MINUTE
  const CLEANUP_AGE: Time := 90 * 24 * 60 * MINUTE

  const MAX_RETRIES: nat := 6
  const DISPATCH_BATCH_SIZE: nat := 200
  const CLEANUP_BATCH_SIZE: nat := 1000

  datatype Status = Queued | Sending | Sent | Failed | Dead

  predicate Terminal(status: Status) {
    status.Sent? || status.Failed? || status.Dead?
  }

  /** The fields fixed when a message is accepted. */
  datatype Content = Content(
    channel: string,
    recipient: string,
    renderedSubject: string,
    renderedBody: string,
    context: string,
    priority: string)

  datatype Row = Row(
    status: Status,
    claimedBy: TaskId,
    scheduledAt: Option<Time>,
    enqueuedAt: Option<Time>,
    createdAt: Time,
    updatedAt: Time,
    content: Content)

  datatype ChannelResult = ChannelResult(success: bool, transient: bool, error: string)

  /** What a channel call gives back: a result, or an exception that escaped it. */
  datatype Answer = Returns(result: ChannelResult) | Raises(error: string)

  /** An escaped exception is handled as a transient failure. */
  function Handled(answer: Answer): ChannelResult {
    match answer
    case Returns(result) => result
    case Raises(error) => ChannelResult(false, true, error)
  }

  datatype AttemptResult = Success | TransientError | PermanentError

  function MapResult(result: ChannelResult): AttemptResult {
    if result.success then Success
    else if result.transient then TransientError
    else PermanentError
  }

  datatype Attempt = Attempt(number: nat, result: AttemptResult, error: string)

  datatype Snapshot = Snapshot(
    id: MsgId,
    channel: string,
    recipient: string,
    renderedSubject: string,
    renderedBody: string,
    context: string,
    priority: string)

  function TakeSnapshot(id: MsgId, c: Content): Snapshot {
    Snapshot(id, c.channel, c.recipient, c.renderedSubject, c.renderedBody, c.context, c.priority)
  }

  /** The snapshot of message `m`, field by field. */
  ghost predicate IsCopyOf(s: Snapshot, m: MsgId, c: Content) {
    && s.id == m && s.channel == c.channel && s.recipient == c.recipient
    && s.renderedSubject == c.renderedSubject && s.renderedBody == c.renderedBody
    && s.context == c.context && s.priority == c.priority
  }

  datatype DeadLetter = DeadLetter(reason: string, snapshot: Snapshot)

  /** A message may be handed to the broker at `t`: it has no schedule, or its time has come. */
  predicate Due(scheduledAt: Option<Time>, t: Time) {
    scheduledAt.None? || scheduledAt.value <= t
  }

  /** The filter of a dispatch pass that read the clock as `now`: due, stranded or stale. */
  predicate Selected(row: Row, now: Time) {
    var due := row.enqueuedAt.None? && row.scheduledAt.Some? && row.scheduledAt.value <= now;
    var stranded := row.enqueuedAt.Some? && row.enqueuedAt.value < now - REENQUEUE_AFTER;
    var stale := row.status.Sending? && row.updatedAt < now - STALE_SENDING_AFTER;
    ((due || stranded) && row.status.Queued?) || stale
  }

  /** What a dispatch pass writes to a row it selected. */
  function Stamped(row: Row, now: Time): Row {
    row.(status := Queued, claimedBy := "", enqueuedAt := Some(now), updatedAt := now)
  }

  function StampAll(rows: map<MsgId, Row>, batch: set<MsgId>, now: Time): map<MsgId, Row> {
    map m | m in rows :: if m in batch then Stamped(rows[m], now) else rows[m]
  }

  /** The filter of the cleanup job that read the clock as `now`. */
  predicate Expired(row: Row, now: Time) {
    Terminal(row.status) && row.createdAt < now - CLEANUP_AGE
  }

  /** The three tables; a message's attempts are kept in insertion order. */
  datatype Db = Db(
    rows: map<MsgId, Row>,
    attempts: map<MsgId, seq<Attempt>>,
    letters: map<MsgId, DeadLetter>)

  function AttemptsOf(db: Db, m: MsgId): seq<Attempt> {
    if m in db.attempts then db.attempts[m] else []
  }

  function Inserted(db: Db, m: MsgId, row: Row): Db {
    db.(rows := db.rows[m := row], attempts := db.attempts[m := []])
  }

  datatype Decision = Missing | Noop | Duplicate | Claims

  /** The decision a task takes under the row lock. */
  function Decide(rows: map<MsgId, Row>, m: MsgId, owner: TaskId): Decision {
    if m !in rows then Missing
    else if Terminal(rows[m].status) then Noop
    else if rows[m].status.Sending? && rows[m].claimedBy != owner then Duplicate
    else Claims
  }

  function ClaimedRow(row: Row, owner: TaskId, now: Time): Row {
    row.(status := Sending, claimedBy := owner, updatedAt := now)
  }

  /** The unique constraint on (message, number) and the foreign key to the message. */
  predicate InsertFails(db: Db, m: MsgId, number: nat) {
    m !in db.rows || exists a :: a in AttemptsOf(db, m) && a.number == number
  }

  function WithAttempt(db: Db, m: MsgId, number: nat, result: ChannelResult): Db {
    db.(attempts := db.attempts[m := AttemptsOf(db, m) + [Attempt(number, MapResult(result), result.error)]])
  }

  /** The status a recorded result leads to; `None` stands for raising TransientError. */
  function Verdict(result: ChannelResult, retries: nat): Option<Status> {
    if result.success then Some(Sent)
    else if !result.transient then Some(Failed)
    else if retries >= MAX_RETRIES then Some(Dead)
    else None
  }

  function Letter(m: MsgId, copy: Content, status: Status, error: string): DeadLetter {
    DeadLetter((if status.Failed? then "permanent: " else "exhausted: ") + error, TakeSnapshot(m, copy))
  }

  function FinalRow(row: Row, status: Status, now: Time): Row {
    row.(status := status, updatedAt := now)
  }

  /** The final status write, with the dead letter unless one exists: nothing is rechecked. */
  function WithVerdict(db: Db, m: MsgId, copy: Content, status: Status, error: string, now: Time): Db
    requires m in db.rows
  {
    db.(rows := db.rows[m := FinalRow(db.rows[m], status, now)],
        letters := if status.Sent? || m in db.letters then db.letters
                   else db.letters[m := Letter(m, copy, status, error)])
  }

  /** Deleting messages cascades to their attempts and dead letters. */
  function Deleted(db: Db, ids: set<MsgId>): Db {
    Db(db.rows - ids, db.attempts - ids, db.letters - ids)
  }
}
