/**
 The delivery protocol as a state machine: API processes, workers, the broker, the dispatch and
 cleanup jobs and the clock, interleaved at the level of single database statements.

 Every sequence of events is a run (`Exec`): an event that is not enabled changes nothing.
 */
module Protocol {
  import opened Options
  import opened Messages

  /** Names one delivery of a task by the broker; two live deliveries may carry one task id. */
  type Tag = nat

  /** How far a claiming run has come through the unlocked part of the task body. */
  datatype Progress =
    | Claimed
    | Answered(result: ChannelResult)
    | Numbered(result: ChannelResult, number: nat)
    | Recorded(result: ChannelResult)

  /**
   - `Waiting`: held by the broker; `since` is the end of the run it follows, if any.
   - `Running`: claimed the row at `at` and holds the content it read then.
   - `Finished`: wrote its outcome and has not been acknowledged yet.
   */
  datatype Phase =
    | Waiting(since: Option<Time>)
    | Running(at: Time, copy: Content, progress: Progress)
    | Finished

  datatype Delivery = Delivery(task: TaskId, msg: MsgId, retries: nat, phase: Phase)

  datatype Publication = Publication(msg: MsgId, stamp: Time)

  /** What happened outside the database, counted per message or per task. */
  datatype Ledger = Ledger(
    successes: multiset<MsgId>,  // channel calls that succeeded
    lost: multiset<MsgId>,       // runs that died between a successful call and its status write
    crashes: multiset<MsgId>,    // claiming runs that died, for whatever reason
    completed: multiset<TaskId>, // claiming runs of a task that did not die
    redelivered: multiset<MsgId>, // deliveries handed out while an earlier one was alive
    recopied: multiset<TaskId>)   // the same, per task

  /** What has been handed out so far, and by which ids. */
  datatype Log = Log(
    outbox: set<Publication>,            // stamps committed, task not handed to the broker yet
    published: map<TaskId, Publication>, // every task id ever used
    publishedAt: map<TaskId, Time>,      // when the broker took each of them
    doomed: set<MsgId>,                  // ids a cleanup pass has read and not deleted yet
    originals: map<MsgId, Row>,          // every row as inserted
    stamps: map<MsgId, seq<Time>>)       // every value enqueued_at has had, oldest first

  datatype State = State(now: Time, db: Db, live: map<Tag, Delivery>, log: Log, ledger: Ledger)

  datatype Event =
    | Tick(to: Time)
    | Create(m: MsgId, content: Content, scheduledAt: Option<Time>, readAt: Time)
    | Publish(p: Publication, task: TaskId, tag: Tag)
    | PublishFails(p: Publication)
    | Lose(tag: Tag)
    | Redeliver(tag: Tag, other: Tag)
    | Claim(tag: Tag)
    | Return(tag: Tag, answer: Answer)
    | Number(tag: Tag)
    | Record(tag: Tag)
    | Finish(tag: Tag)
    | Ack(tag: Tag)
    | Crash(tag: Tag, redelivered: bool)
    | Dispatch(readAt: Time, batch: set<MsgId>)
    | CleanupSelect(readAt: Time, ids: set<MsgId>)
    | CleanupDelete(ids: set<MsgId>)

  function Init(now: Time): State {
    State(now, Db(map[], map[], map[]), map[], Log({}, map[], map[], {}, map[], map[]),
          Ledger(multiset{}, multiset{}, multiset{}, multiset{}, multiset{}, multiset{}))
  }

  predicate IsWaiting(s: State, tag: Tag) { tag in s.live && s.live[tag].phase.Waiting? }
  predicate IsRunning(s: State, tag: Tag) { tag in s.live && s.live[tag].phase.Running? }

  /** A claiming run of message `m`. */
  predicate RunsFor(live: map<Tag, Delivery>, tag: Tag, m: MsgId) {
    tag in live && live[tag].msg == m && live[tag].phase.Running?
  }

  /**
   When an event can happen. The clauses on the environment are: the clock does not run
   backwards and no run outlives the hard time limit (`Tick`), task and message ids are fresh and
   task ids are not empty (`Publish`, `Create`), and a clock that was read is not ahead of the
   clock (`Create`, `Dispatch`, `CleanupSelect`).
   */
  predicate Enabled(s: State, e: Event) {
    match e
    case Tick(to) =>
      && s.now <= to
      && forall tag :: tag in s.live && s.live[tag].phase.Running? ==> to <= s.live[tag].phase.at + TASK_TIME_LIMIT
    case Create(m, _, _, readAt) => m !in s.log.originals && readAt <= s.now
    case Publish(p, task, tag) => p in s.log.outbox && task !in s.log.published && task != "" && tag !in s.live
    case PublishFails(p) => p in s.log.outbox
    case Lose(tag) => IsWaiting(s, tag)
    case Redeliver(tag, other) => tag in s.live && other !in s.live
    case Claim(tag) => IsWaiting(s, tag)
    case Return(tag, _) => IsRunning(s, tag) && s.live[tag].phase.progress.Claimed?
    case Number(tag) => IsRunning(s, tag) && s.live[tag].phase.progress.Answered?
    case Record(tag) => IsRunning(s, tag) && s.live[tag].phase.progress.Numbered?
    case Finish(tag) => IsRunning(s, tag) && s.live[tag].phase.progress.Recorded?
    case Ack(tag) => tag in s.live && s.live[tag].phase.Finished?
    case Crash(tag, _) => tag in s.live && !s.live[tag].phase.Waiting?
    case Dispatch(readAt, batch) =>
      && readAt <= s.now
      && |batch| <= DISPATCH_BATCH_SIZE
      && forall m :: m in batch ==> m in s.db.rows && Selected(s.db.rows[m], readAt)
    case CleanupSelect(readAt, ids) =>
      && readAt <= s.now
      && |ids| <= CLEANUP_BATCH_SIZE
      && forall m :: m in ids ==> m in s.db.rows && Expired(s.db.rows[m], readAt)
    case CleanupDelete(ids) => ids <= s.log.doomed
  }

  // ----- effects, one function per event that does more than drop an entry

  function ApplyCreate(s: State, m: MsgId, content: Content, scheduledAt: Option<Time>, readAt: Time): State {
    var sendNow := Due(scheduledAt, readAt);
    var row := Row(Queued, "", scheduledAt, if sendNow then Some(readAt) else None, s.now, s.now, content);
    s.(db := Inserted(s.db, m, row),
       log := s.log.(originals := s.log.originals[m := row],
                     stamps := s.log.stamps[m := if sendNow then [readAt] else []],
                     outbox := if sendNow then s.log.outbox + {Publication(m, readAt)} else s.log.outbox))
  }

  function ApplyPublish(s: State, p: Publication, task: TaskId, tag: Tag): State {
    s.(log := s.log.(outbox := s.log.outbox - {p}, published := s.log.published[task := p],
                     publishedAt := s.log.publishedAt[task := s.now]),
       live := s.live[tag := Delivery(task, p.msg, 0, Waiting(None))])
  }

  /** The broker hands out a delivery again although it is still alive. */
  function ApplyRedeliver(s: State, tag: Tag, other: Tag): State
    requires tag in s.live
  {
    var d := s.live[tag];
    s.(live := s.live[other := d.(phase := if d.phase.Waiting? then d.phase else Waiting(Some(s.now)))],
       ledger := s.ledger.(redelivered := s.ledger.redelivered + multiset{d.msg},
                           recopied := s.ledger.recopied + multiset{d.task}))
  }

  function ApplyClaim(s: State, tag: Tag): State
    requires tag in s.live
  {
    var d := s.live[tag];
    if Decide(s.db.rows, d.msg, d.task).Claims? then
      var row := ClaimedRow(s.db.rows[d.msg], d.task, s.now);
      s.(db := s.db.(rows := s.db.rows[d.msg := row]),
         live := s.live[tag := d.(phase := Running(s.now, row.content, Claimed))])
    else
      s.(live := s.live - {tag})
  }

  function Advanced(d: Delivery, progress: Progress): Delivery
    requires d.phase.Running?
  {
    d.(phase := d.phase.(progress := progress))
  }

  function ApplyReturn(s: State, tag: Tag, answer: Answer): State
    requires IsRunning(s, tag)
  {
    var d, result := s.live[tag], Handled(answer);
    s.(live := s.live[tag := Advanced(d, Answered(result))],
       ledger := if result.success then s.ledger.(successes := s.ledger.successes + multiset{d.msg}) else s.ledger)
  }

  /** The attempt number is read here and used by a later statement. */
  function ApplyNumber(s: State, tag: Tag): State
    requires IsRunning(s, tag) && s.live[tag].phase.progress.Answered?
  {
    var d := s.live[tag];
    s.(live := s.live[tag := Advanced(d, Numbered(d.phase.progress.result, |AttemptsOf(s.db, d.msg)| + 1))])
  }

  /** The channel call of this run succeeded and its outcome is not in the row yet. */
  predicate HoldsSuccess(d: Delivery) {
    d.phase.Running? && !d.phase.progress.Claimed? && d.phase.progress.result.success
  }

  function CountDeath(l: Ledger, d: Delivery): Ledger {
    l.(crashes := if d.phase.Running? then l.crashes + multiset{d.msg} else l.crashes,
       lost := if HoldsSuccess(d) then l.lost + multiset{d.msg} else l.lost)
  }

  /** The run ends by an exception, a kill or a crash, and the broker forgets its task. */
  function Die(s: State, tag: Tag): State
    requires tag in s.live
  {
    s.(live := s.live - {tag}, ledger := CountDeath(s.ledger, s.live[tag]))
  }

  function ApplyCrash(s: State, tag: Tag, redelivered: bool): State
    requires tag in s.live
  {
    if redelivered then
      s.(live := s.live[tag := s.live[tag].(phase := Waiting(Some(s.now)))],
         ledger := CountDeath(s.ledger, s.live[tag]))
    else Die(s, tag)
  }

  function ApplyRecord(s: State, tag: Tag): State
    requires IsRunning(s, tag) && s.live[tag].phase.progress.Numbered?
  {
    var d := s.live[tag];
    var result, number := d.phase.progress.result, d.phase.progress.number;
    if InsertFails(s.db, d.msg, number) then Die(s, tag)
    else
      s.(db := WithAttempt(s.db, d.msg, number, result),
         live := s.live[tag := Advanced(d, Recorded(result))])
  }

  function CountCompleted(l: Ledger, d: Delivery): Ledger {
    l.(completed := l.completed + multiset{d.task})
  }

  /** TransientError: the row stays as it is and the task waits for its next try. */
  function Retry(s: State, tag: Tag): State
    requires tag in s.live
  {
    var d := s.live[tag];
    s.(live := s.live[tag := d.(retries := d.retries + 1, phase := Waiting(Some(s.now)))],
       ledger := CountCompleted(s.ledger, d))
  }

  function Conclude(s: State, tag: Tag, status: Status): State
    requires Enabled(s, Finish(tag)) && s.live[tag].msg in s.db.rows
  {
    var d := s.live[tag];
    s.(db := WithVerdict(s.db, d.msg, d.phase.copy, status, d.phase.progress.result.error, s.now),
       live := s.live[tag := d.(phase := Finished)],
       ledger := CountCompleted(s.ledger, d))
  }

  function ApplyFinish(s: State, tag: Tag): State
    requires Enabled(s, Finish(tag))
  {
    var d := s.live[tag];
    match Verdict(d.phase.progress.result, d.retries)
    case None => Retry(s, tag)
    case Some(status) => if d.msg in s.db.rows then Conclude(s, tag, status) else Die(s, tag)
  }

  function ApplyDispatch(s: State, readAt: Time, batch: set<MsgId>): State {
    var stamps := map m | m in s.log.stamps :: if m in batch then s.log.stamps[m] + [readAt] else s.log.stamps[m];
    s.(db := s.db.(rows := StampAll(s.db.rows, batch, readAt)),
       log := s.log.(stamps := stamps,
                     outbox := s.log.outbox + set m | m in batch :: Publication(m, readAt)))
  }

  function Apply(s: State, e: Event): State
    requires Enabled(s, e)
  {
    match e
    case Tick(to) => s.(now := to)
    case Create(m, content, scheduledAt, readAt) => ApplyCreate(s, m, content, scheduledAt, readAt)
    case Publish(p, task, tag) => ApplyPublish(s, p, task, tag)
    case PublishFails(p) => s.(log := s.log.(outbox := s.log.outbox - {p}))
    case Lose(tag) => s.(live := s.live - {tag})
    case Redeliver(tag, other) => ApplyRedeliver(s, tag, other)
    case Claim(tag) => ApplyClaim(s, tag)
    case Return(tag, answer) => ApplyReturn(s, tag, answer)
    case Number(tag) => ApplyNumber(s, tag)
    case Record(tag) => ApplyRecord(s, tag)
    case Finish(tag) => ApplyFinish(s, tag)
    case Ack(tag) => s.(live := s.live - {tag})
    case Crash(tag, redelivered) => ApplyCrash(s, tag, redelivered)
    case Dispatch(readAt, batch) => ApplyDispatch(s, readAt, batch)
    case CleanupSelect(_, ids) => s.(log := s.log.(doomed := s.log.doomed + ids))
    case CleanupDelete(ids) => s.(db := Deleted(s.db, ids), log := s.log.(doomed := s.log.doomed - ids))
  }

  function Step(s: State, e: Event): State {
    if Enabled(s, e) then Apply(s, e) else s
  }

  /** The state after a run that starts with an empty database at time `start`. */
  function Exec(start: Time, es: seq<Event>): State {
    if es == [] then Init(start) else Step(Exec(start, es[..|es| - 1]), es[|es| - 1])
  }
}
