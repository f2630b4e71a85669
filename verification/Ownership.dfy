/**
 What every run keeps, whatever the broker does: a claiming run carries the row's `claimed_by`,
 the claim of a live task is not taken away, nothing is handed out early, and the stamps of one
 row are spaced. No assumption is made here on how many live deliveries carry one task id.
 */
module Ownership {
  import opened Options
  import opened Messages
  import opened Protocol

  ghost predicate RowOk(now: Time, row: Row, original: Row) {
    && row.content == original.content
    && row.scheduledAt == original.scheduledAt
    && row.createdAt == original.createdAt
    && row.updatedAt <= now
    && (row.enqueuedAt.Some? ==>
          row.enqueuedAt.value <= row.updatedAt && Due(row.scheduledAt, row.enqueuedAt.value))
    && (row.enqueuedAt.None? ==> row.status.Queued? && row.scheduledAt.Some?)
    && (row.status.Queued? <==> row.claimedBy == "")
  }

  /** No live row: the message was deleted or has reached its final status. */
  ghost predicate Settled(rows: map<MsgId, Row>, m: MsgId) {
    m in rows ==> Terminal(rows[m].status)
  }

  ghost predicate OwnedSince(rows: map<MsgId, Row>, m: MsgId, task: TaskId, at: Time) {
    m in rows ==> rows[m].claimedBy == task && rows[m].updatedAt >= at
  }

  /** If the row is still claimed by `task`, its last claim is no older than one run before `since`. */
  ghost predicate WaitsSince(rows: map<MsgId, Row>, m: MsgId, task: TaskId, since: Time) {
    m in rows && rows[m].status.Sending? && rows[m].claimedBy == task ==>
      since <= rows[m].updatedAt + TASK_TIME_LIMIT
  }

  ghost predicate PhaseOk(now: Time, rows: map<MsgId, Row>, original: Row, d: Delivery) {
    match d.phase
    case Waiting(None) => true
    case Waiting(Some(since)) => since <= now && WaitsSince(rows, d.msg, d.task, since)
    case Running(at, copy, _) =>
      && at <= now <= at + TASK_TIME_LIMIT
      && copy == original.content
      && OwnedSince(rows, d.msg, d.task, at)
    case Finished => Settled(rows, d.msg)
  }

  ghost predicate DeliveryOk(s: State, d: Delivery) {
    && d.task != ""
    && d.task in s.log.published
    && s.log.published[d.task].msg == d.msg
    && d.msg in s.log.originals
    && d.retries <= MAX_RETRIES
    && (d.msg in s.db.rows ==> s.db.rows[d.msg].enqueuedAt.Some?)
    && PhaseOk(s.now, s.db.rows, s.log.originals[d.msg], d)
  }

  ghost predicate RowsOk(s: State) {
    && s.db.rows.Keys <= s.log.originals.Keys
    && forall m :: m in s.db.rows ==> RowOk(s.now, s.db.rows[m], s.log.originals[m])
  }

  ghost predicate LiveOk(s: State) {
    forall tag :: tag in s.live ==> DeliveryOk(s, s.live[tag])
  }

  ghost predicate DoomedOk(s: State) {
    forall m :: m in s.log.doomed ==>
      && m in s.log.originals && Settled(s.db.rows, m)
      && s.log.originals[m].createdAt < s.now - CLEANUP_AGE
  }

  /** Any two stamps are more than fifteen minutes apart for every position between them. */
  ghost predicate Spaced(ts: seq<Time>) {
    forall i, j :: 0 <= i < j < |ts| ==> ts[i] + (j - i) * REENQUEUE_AFTER < ts[j]
  }

  function Latest(ts: seq<Time>): Option<Time> {
    if ts == [] then None else Some(ts[|ts| - 1])
  }

  ghost predicate StampsOk(now: Time, original: Row, ts: seq<Time>) {
    && Spaced(ts)
    && forall i :: 0 <= i < |ts| ==> ts[i] <= now && Due(original.scheduledAt, ts[i])
  }

  ghost predicate OnRecord(s: State, p: Publication) {
    p.msg in s.log.stamps && p.stamp in s.log.stamps[p.msg]
  }

  ghost predicate HistoryOk(s: State) {
    && s.log.stamps.Keys == s.log.originals.Keys
    && (forall m :: m in s.log.stamps ==> StampsOk(s.now, s.log.originals[m], s.log.stamps[m]))
    && (forall m :: m in s.db.rows ==> m in s.log.stamps && Latest(s.log.stamps[m]) == s.db.rows[m].enqueuedAt)
  }

  ghost predicate PublishedOk(s: State) {
    && (forall p :: p in s.log.outbox ==> OnRecord(s, p))
    && (forall t :: t in s.log.published ==> OnRecord(s, s.log.published[t]) && s.log.published[t] !in s.log.outbox)
    && (forall t, u :: t in s.log.published && u in s.log.published && s.log.published[t] == s.log.published[u] ==>
          t == u)
    && (forall t :: t in s.log.published ==>
          t in s.log.publishedAt && s.log.published[t].stamp <= s.log.publishedAt[t])
  }

  ghost predicate Inv(s: State) {
    RowsOk(s) && LiveOk(s) && DoomedOk(s) && HistoryOk(s) && PublishedOk(s)
  }

  lemma InvParts(s: State)
    ensures Inv(s) <==> RowsOk(s) && LiveOk(s) && DoomedOk(s) && HistoryOk(s) && PublishedOk(s)
  {
  }

  // ----- rows

  /** How one event may change one row: a claim, a final status, a stamp, or nothing. */
  ghost predicate RowMove(now: Time, r: Row, r': Row) {
    && (r.enqueuedAt.Some? ==> r'.enqueuedAt.Some?)
    && StatusMove(now, r, r')
  }

  ghost predicate StatusMove(now: Time, r: Row, r': Row) {
    || r' == r
    || (!Terminal(r.status) && r'.status.Sending? && r'.updatedAt == now
        && (r.status.Queued? || r'.claimedBy == r.claimedBy))
    || (!r.status.Queued? && Terminal(r'.status) && r'.updatedAt == now && r'.claimedBy == r.claimedBy)
    || (!Terminal(r.status) && r'.status.Queued?
        && (r.status.Queued? || r.updatedAt < now - STALE_SENDING_AFTER))
  }

  /** Rows only move, appear under new ids and disappear when settled; ids are never reused. */
  ghost predicate RowsMove(s: State, t: State) {
    && s.now <= t.now
    && (forall m :: m in t.db.rows && m in s.log.originals ==>
          m in s.db.rows && RowMove(t.now, s.db.rows[m], t.db.rows[m]))
    && (forall m :: m in s.log.originals ==> m in t.log.originals && t.log.originals[m] == s.log.originals[m])
  }

  /** Writing one existing row. */
  lemma RowWrite(s: State, t: State, m: MsgId, r: Row)
    requires RowsOk(s) && m in s.db.rows && t.db.rows == s.db.rows[m := r]
    requires t.now == s.now && t.log.originals == s.log.originals
    requires RowMove(s.now, s.db.rows[m], r) && RowOk(s.now, r, s.log.originals[m])
    ensures RowsOk(t) && RowsMove(s, t)
  {
  }

  /** Writing no row, or deleting some. */
  lemma RowsFrame(s: State, t: State)
    requires RowsOk(s) && s.now <= t.now && t.log.originals == s.log.originals
    requires forall m :: m in t.db.rows ==> m in s.db.rows && t.db.rows[m] == s.db.rows[m]
    ensures RowsOk(t) && RowsMove(s, t)
  {
  }

  lemma ClaimMoves(s: State, tag: Tag)
    requires RowsOk(s) && IsWaiting(s, tag) && DeliveryOk(s, s.live[tag])
    ensures RowsOk(ApplyClaim(s, tag)) && RowsMove(s, ApplyClaim(s, tag))
  {
  }

  lemma FinishMoves(s: State, tag: Tag)
    requires RowsOk(s) && Enabled(s, Finish(tag)) && DeliveryOk(s, s.live[tag])
    ensures RowsOk(ApplyFinish(s, tag)) && RowsMove(s, ApplyFinish(s, tag))
  {
    var d, t := s.live[tag], ApplyFinish(s, tag);
    if t.db.rows == s.db.rows {
      RowsFrame(s, t);
    } else {
      RowWrite(s, t, d.msg, t.db.rows[d.msg]);
    }
  }

  lemma StampMoves(now: Time, r: Row, original: Row, readAt: Time)
    requires RowOk(now, r, original) && Selected(r, readAt) && readAt <= now
    ensures RowOk(now, Stamped(r, readAt), original) && RowMove(now, r, Stamped(r, readAt))
  {
  }

  lemma DispatchMoves(s: State, readAt: Time, batch: set<MsgId>)
    requires RowsOk(s) && Enabled(s, Dispatch(readAt, batch))
    ensures RowsOk(ApplyDispatch(s, readAt, batch)) && RowsMove(s, ApplyDispatch(s, readAt, batch))
  {
    var t := ApplyDispatch(s, readAt, batch);
    forall m | m in t.db.rows
      ensures RowOk(s.now, t.db.rows[m], s.log.originals[m]) && RowMove(s.now, s.db.rows[m], t.db.rows[m])
    {
      hide Selected, Stamped, RowMove, RowOk;
      if m in batch { StampMoves(s.now, s.db.rows[m], s.log.originals[m], readAt); }
      else { Unmoved(s.now, s.db.rows[m]); }
    }
    hide RowMove, RowOk, Selected, Stamped;
  }

  lemma Unmoved(now: Time, r: Row)
    ensures RowMove(now, r, r)
  {
  }

  lemma CreateMoves(s: State, m: MsgId, content: Content, scheduledAt: Option<Time>, readAt: Time)
    requires RowsOk(s) && Enabled(s, Create(m, content, scheduledAt, readAt))
    ensures var t := ApplyCreate(s, m, content, scheduledAt, readAt); RowsOk(t) && RowsMove(s, t)
  {
  }

  /** The events that write no message row. */
  predicate Quiet(e: Event) {
    !(e.Create? || e.Claim? || e.Finish? || e.Dispatch? || e.CleanupDelete?)
  }

  lemma QuietRows(s: State, e: Event)
    requires Enabled(s, e) && Quiet(e)
    ensures Apply(s, e).db.rows == s.db.rows
  {
  }

  lemma QuietLog(s: State, e: Event)
    requires Enabled(s, e) && Quiet(e)
    ensures Apply(s, e).log.originals == s.log.originals && s.now <= Apply(s, e).now
  {
  }

  lemma RowsStep(s: State, e: Event)
    requires RowsOk(s) && LiveOk(s) && Enabled(s, e)
    ensures RowsOk(Apply(s, e)) && RowsMove(s, Apply(s, e))
  {
    hide RowsMove, RowOk, DeliveryOk;
    match e
    case Create(m, content, scheduledAt, readAt) => CreateMoves(s, m, content, scheduledAt, readAt);
    case Claim(tag) => ClaimMoves(s, tag);
    case Finish(tag) => FinishMoves(s, tag);
    case Dispatch(readAt, batch) => DispatchMoves(s, readAt, batch);
    case CleanupDelete(ids) => RowsFrame(s, Apply(s, e));
    case _ => QuietRows(s, e); QuietLog(s, e); RowsFrame(s, Apply(s, e));
  }

  // ----- deliveries

  /** A delivery that takes no part in an event stays consistent, because of how rows may move. */
  lemma DeliveryFrame(s: State, t: State, d: Delivery)
    requires RowsOk(s) && RowsMove(s, t) && DeliveryOk(s, d)
    requires d.task in t.log.published && t.log.published[d.task] == s.log.published[d.task]
    requires d.phase.Running? ==> t.now <= d.phase.at + TASK_TIME_LIMIT
    ensures DeliveryOk(t, d)
  {
  }

  /** The delivery an event acts on, or the new one it makes. */
  function Actor(e: Event): Option<Tag> {
    match e
    case Publish(_, _, tag) => Some(tag)
    case Lose(tag) => Some(tag)
    case Redeliver(_, other) => Some(other)
    case Claim(tag) => Some(tag)
    case Return(tag, _) => Some(tag)
    case Number(tag) => Some(tag)
    case Record(tag) => Some(tag)
    case Finish(tag) => Some(tag)
    case Ack(tag) => Some(tag)
    case Crash(tag, _) => Some(tag)
    case _ => None
  }

  /** Every other delivery is untouched, and no task id is forgotten. */
  lemma OthersUntouched(s: State, e: Event)
    requires Enabled(s, e)
    ensures forall tag :: tag in Apply(s, e).live && Some(tag) != Actor(e) ==>
              tag in s.live && Apply(s, e).live[tag] == s.live[tag]
    ensures forall task :: task in s.log.published ==>
              task in Apply(s, e).log.published && Apply(s, e).log.published[task] == s.log.published[task]
  {
  }

  lemma PublishedIsOk(s: State, p: Publication, task: TaskId, tag: Tag)
    requires Inv(s) && Enabled(s, Publish(p, task, tag))
    ensures DeliveryOk(ApplyPublish(s, p, task, tag), Delivery(task, p.msg, 0, Waiting(None)))
  {
  }

  lemma ClaimerIsOk(s: State, tag: Tag)
    requires RowsOk(s) && Enabled(s, Claim(tag)) && DeliveryOk(s, s.live[tag])
    ensures var t := ApplyClaim(s, tag); tag in t.live ==> DeliveryOk(t, t.live[tag])
  {
  }

  lemma FinisherIsOk(s: State, tag: Tag)
    requires RowsOk(s) && Enabled(s, Finish(tag)) && DeliveryOk(s, s.live[tag])
    ensures var t := ApplyFinish(s, tag); tag in t.live ==> DeliveryOk(t, t.live[tag])
  {
  }

  lemma ActorIsOk(s: State, e: Event)
    requires Inv(s) && Enabled(s, e) && Actor(e).Some?
    ensures var t := Apply(s, e); Actor(e).value in t.live ==> DeliveryOk(t, t.live[Actor(e).value])
  {
    hide HistoryOk, PublishedOk, DoomedOk, RowsOk, DeliveryOk;
    if e.Publish? {
      PublishedIsOk(s, e.p, e.task, e.tag);
    } else if e.Claim? {
      ClaimerIsOk(s, e.tag);
    } else if e.Finish? {
      FinisherIsOk(s, e.tag);
    } else {
      OtherActorIsOk(s, e);
    }
  }

  lemma OtherActorIsOk(s: State, e: Event)
    requires LiveOk(s) && Enabled(s, e) && Actor(e).Some? && !e.Publish? && !e.Claim? && !e.Finish?
    ensures var t := Apply(s, e); Actor(e).value in t.live ==> DeliveryOk(t, t.live[Actor(e).value])
  {
    assert DeliveryOk(s, s.live[e.tag]);
  }

  lemma LiveStep(s: State, e: Event)
    requires Inv(s) && Enabled(s, e)
    ensures LiveOk(Apply(s, e))
  {
    InvParts(s);
    hide Inv, HistoryOk, PublishedOk, DoomedOk, RowsOk, RowsMove, DeliveryOk, Apply, Enabled;
    var t := Apply(s, e);
    RowsStep(s, e);
    OthersUntouched(s, e);
    if Actor(e).Some? { ActorIsOk(s, e); }
    forall tag | tag in t.live && Some(tag) != Actor(e) ensures DeliveryOk(t, t.live[tag]) {
      assert DeliveryOk(s, s.live[tag]);
      KnownTask(s, s.live[tag]);
      RunsEndInTime(s, e, tag);
      DeliveryFrame(s, t, s.live[tag]);
    }
  }

  lemma KnownTask(s: State, d: Delivery)
    requires DeliveryOk(s, d)
    ensures d.task in s.log.published
  {
  }

  /** The clock does not move past the time limit of a claiming run. */
  lemma RunsEndInTime(s: State, e: Event, tag: Tag)
    requires Enabled(s, e) && tag in s.live && DeliveryOk(s, s.live[tag])
    ensures s.live[tag].phase.Running? ==> Apply(s, e).now <= s.live[tag].phase.at + TASK_TIME_LIMIT
  {
  }

  /** Ids a cleanup pass picks up are those of settled rows. */
  ghost predicate DoomedMove(s: State, t: State) {
    forall m :: m in t.log.doomed ==> m in s.log.doomed || (m in s.db.rows && Expired(s.db.rows[m], s.now))
  }

  lemma DoomedMoves(s: State, e: Event)
    requires Enabled(s, e)
    ensures DoomedMove(s, Apply(s, e))
  {
  }

  lemma DoomedFrame(s: State, t: State)
    requires RowsOk(s) && DoomedOk(s) && RowsMove(s, t) && DoomedMove(s, t)
    ensures DoomedOk(t)
  {
  }

  // ----- stamps and publications

  lemma SpacedAppend(ts: seq<Time>, t: Time)
    requires Spaced(ts) && (ts != [] ==> ts[|ts| - 1] + REENQUEUE_AFTER < t)
    ensures Spaced(ts + [t])
  {
  }

  /** A selected row was last stamped more than fifteen minutes before the pass read the clock. */
  lemma SelectedIsOld(now: Time, r: Row, original: Row, readAt: Time)
    requires RowOk(now, r, original) && Selected(r, readAt)
    ensures Due(r.scheduledAt, readAt)
    ensures r.enqueuedAt.Some? ==> r.enqueuedAt.value + REENQUEUE_AFTER < readAt
  {
  }

  lemma RestampOk(now: Time, r: Row, original: Row, ts: seq<Time>, readAt: Time)
    requires RowOk(now, r, original) && Selected(r, readAt) && readAt <= now
    requires StampsOk(now, original, ts) && Latest(ts) == r.enqueuedAt
    ensures StampsOk(now, original, ts + [readAt]) && Latest(ts + [readAt]) == Stamped(r, readAt).enqueuedAt
    ensures readAt !in ts
  {
    SelectedIsOld(now, r, original, readAt);
    SpacedAppend(ts, readAt);
  }

  lemma BatchIsRestamped(s: State, readAt: Time, batch: set<MsgId>)
    requires RowsOk(s) && HistoryOk(s) && Enabled(s, Dispatch(readAt, batch))
    ensures forall m :: m in batch ==>
              && m in s.db.rows && m in s.log.stamps && readAt !in s.log.stamps[m]
              && StampsOk(s.now, s.log.originals[m], s.log.stamps[m] + [readAt])
  {
    forall m | m in batch
      ensures m in s.db.rows && m in s.log.stamps && readAt !in s.log.stamps[m]
      ensures StampsOk(s.now, s.log.originals[m], s.log.stamps[m] + [readAt])
    {
      hide StampsOk, Selected, RowOk, Latest;
      RestampOk(s.now, s.db.rows[m], s.log.originals[m], s.log.stamps[m], readAt);
    }
  }

  lemma HistoryDispatch(s: State, readAt: Time, batch: set<MsgId>)
    requires RowsOk(s) && HistoryOk(s) && Enabled(s, Dispatch(readAt, batch))
    ensures HistoryOk(ApplyDispatch(s, readAt, batch))
  {
    BatchIsRestamped(s, readAt, batch);
    hide StampsOk, Selected, RowOk, RowsOk;
  }

  lemma HistoryCreate(s: State, m: MsgId, content: Content, scheduledAt: Option<Time>, readAt: Time)
    requires RowsOk(s) && HistoryOk(s) && Enabled(s, Create(m, content, scheduledAt, readAt))
    ensures HistoryOk(ApplyCreate(s, m, content, scheduledAt, readAt))
  {
  }

  /** No event but creation and dispatch touches `enqueued_at` or its history. */
  ghost predicate StampsKept(s: State, t: State) {
    && s.now <= t.now
    && t.log.stamps == s.log.stamps && t.log.originals == s.log.originals
    && forall m :: m in t.db.rows ==> m in s.db.rows && t.db.rows[m].enqueuedAt == s.db.rows[m].enqueuedAt
  }

  lemma OtherEventsKeepStamps(s: State, e: Event)
    requires Enabled(s, e) && !e.Create? && !e.Dispatch?
    ensures StampsKept(s, Apply(s, e))
  {
  }

  lemma HistoryFrame(s: State, t: State)
    requires HistoryOk(s) && StampsKept(s, t)
    ensures HistoryOk(t)
  {
  }

  /** Committing stamps: the new entries of the outbox are on record only now. */
  ghost predicate StampsCommitted(s: State, t: State) {
    && t.log.published == s.log.published && t.log.publishedAt == s.log.publishedAt
    && (forall p :: OnRecord(s, p) ==> OnRecord(t, p))
    && (forall p :: p in t.log.outbox ==> p in s.log.outbox || (OnRecord(t, p) && !OnRecord(s, p)))
  }

  lemma PublishedFromCommit(s: State, t: State)
    requires PublishedOk(s) && StampsCommitted(s, t)
    ensures PublishedOk(t)
  {
  }

  lemma PublishedCreate(s: State, m: MsgId, content: Content, scheduledAt: Option<Time>, readAt: Time)
    requires HistoryOk(s) && PublishedOk(s) && Enabled(s, Create(m, content, scheduledAt, readAt))
    ensures PublishedOk(ApplyCreate(s, m, content, scheduledAt, readAt))
  {
  }

  lemma PublishedDispatch(s: State, readAt: Time, batch: set<MsgId>)
    requires RowsOk(s) && HistoryOk(s) && PublishedOk(s) && Enabled(s, Dispatch(readAt, batch))
    ensures PublishedOk(ApplyDispatch(s, readAt, batch))
  {
    hide StampsOk, Latest, RowsOk, HistoryOk, Selected, PublishedOk;
    BatchIsRestamped(s, readAt, batch);
    PublishedFromCommit(s, ApplyDispatch(s, readAt, batch));
  }

  lemma PublishedPublish(s: State, p: Publication, task: TaskId, tag: Tag)
    requires HistoryOk(s) && PublishedOk(s) && Enabled(s, Publish(p, task, tag))
    ensures PublishedOk(ApplyPublish(s, p, task, tag))
  {
  }

  /** No other event hands out tasks. */
  ghost predicate NothingPublished(s: State, t: State) {
    && t.log.outbox <= s.log.outbox && t.log.stamps == s.log.stamps
    && t.log.published == s.log.published && t.log.publishedAt == s.log.publishedAt
  }

  lemma OtherEventsPublishNothing(s: State, e: Event)
    requires Enabled(s, e) && !e.Create? && !e.Dispatch? && !e.Publish?
    ensures NothingPublished(s, Apply(s, e))
  {
  }

  lemma PublishedFrame(s: State, t: State)
    requires PublishedOk(s) && NothingPublished(s, t)
    ensures PublishedOk(t)
  {
  }

  lemma HistoryStep(s: State, e: Event)
    requires Inv(s) && Enabled(s, e)
    ensures HistoryOk(Apply(s, e))
  {
    hide RowsOk, HistoryOk, LiveOk, PublishedOk, StampsKept;
    match e
    case Create(m, content, scheduledAt, readAt) => HistoryCreate(s, m, content, scheduledAt, readAt);
    case Dispatch(readAt, batch) => HistoryDispatch(s, readAt, batch);
    case _ => OtherEventsKeepStamps(s, e); HistoryFrame(s, Apply(s, e));
  }

  lemma PublishedStep(s: State, e: Event)
    requires Inv(s) && Enabled(s, e)
    ensures PublishedOk(Apply(s, e))
  {
    hide RowsOk, HistoryOk, LiveOk, PublishedOk, NothingPublished;
    match e
    case Create(m, content, scheduledAt, readAt) => PublishedCreate(s, m, content, scheduledAt, readAt);
    case Dispatch(readAt, batch) => PublishedDispatch(s, readAt, batch);
    case Publish(p, task, tag) => PublishedPublish(s, p, task, tag);
    case _ => OtherEventsPublishNothing(s, e); PublishedFrame(s, Apply(s, e));
  }

  // ----- the invariant over runs

  lemma InvStep(s: State, e: Event)
    requires Inv(s)
    ensures Inv(Step(s, e))
  {
    if Enabled(s, e) {
      var t := Apply(s, e);
      InvParts(s);
      hide RowsOk, LiveOk, DoomedOk, HistoryOk, PublishedOk, RowsMove, DoomedMove, Apply, Enabled;
      RowsStep(s, e);
      LiveStep(s, e);
      DoomedMoves(s, e);
      DoomedFrame(s, t);
      HistoryStep(s, e);
      PublishedStep(s, e);
    }
  }

  lemma {:induction false} InvHolds(start: Time, es: seq<Event>)
    ensures Inv(Exec(start, es))
  {
    if es != [] {
      InvHolds(start, es[..|es| - 1]);
      InvStep(Exec(start, es[..|es| - 1]), es[|es| - 1]);
    }
  }

  // ----- what the invariant means

  /** A row with a claiming run is never selected by a dispatch pass: the run is too young. */
  lemma RunningIsNotSelected(s: State, tag: Tag, readAt: Time)
    requires Inv(s) && IsRunning(s, tag) && s.live[tag].msg in s.db.rows && readAt <= s.now
    ensures !Selected(s.db.rows[s.live[tag].msg], readAt)
  {
  }

  /**
   In every run a claiming run carries the row's `claimed_by`, and the row has left `queued`;
   two claiming runs of one message therefore belong to one task.
   */
  lemma {:induction false} ClaimingRunsOwnTheRow(start: Time, es: seq<Event>, a: Tag, b: Tag)
    requires var s := Exec(start, es);
             IsRunning(s, a) && IsRunning(s, b) && s.live[a].msg == s.live[b].msg && s.live[a].msg in s.db.rows
    ensures var s := Exec(start, es);
            var row := s.db.rows[s.live[a].msg];
            && s.live[a].task == row.claimedBy == s.live[b].task && !row.status.Queued?
            && s.live[a].phase.at <= s.now <= s.live[a].phase.at + 60 * SECOND
  {
    InvHolds(start, es);
    var s := Exec(start, es);
    assert DeliveryOk(s, s.live[a]) && DeliveryOk(s, s.live[b]);
  }

  /** The task of `d` is running, or waits for a retry or redelivery within the broker's bounds. */
  ghost predicate OwnerAlive(s: State, d: Delivery) {
    match d.phase
    case Running(_, _, _) => true
    case Waiting(Some(since)) =>
      && s.now <= since + (if RETRY_BACKOFF_MAX >= VISIBILITY_TIMEOUT then RETRY_BACKOFF_MAX else VISIBILITY_TIMEOUT)
      && d.msg in s.db.rows && s.db.rows[d.msg].status.Sending? && s.db.rows[d.msg].claimedBy == d.task
    case _ => false
  }

  /** No dispatch pass can select, and so displace, a row whose owner is alive. */
  lemma {:induction false} LiveOwnerIsNotDisplaced(start: Time, es: seq<Event>, tag: Tag, readAt: Time)
    requires var s := Exec(start, es);
             tag in s.live && OwnerAlive(s, s.live[tag]) && s.live[tag].msg in s.db.rows && readAt <= s.now
    ensures var s := Exec(start, es); !Selected(s.db.rows[s.live[tag].msg], readAt)
    ensures forall batch :: Enabled(Exec(start, es), Dispatch(readAt, batch)) ==>
              Exec(start, es).live[tag].msg !in batch
  {
    InvHolds(start, es);
    var s := Exec(start, es);
    assert DeliveryOk(s, s.live[tag]);
    assert RowOk(s.now, s.db.rows[s.live[tag].msg], s.log.originals[s.live[tag].msg]);
  }

  /**
   A claiming run that crashes and is redelivered, or asks for a retry, leaves its task alive as long
   as the row is still its own; so does a copy handed out while it runs.
   */
  lemma {:induction false} OwnersStayAlive(start: Time, es: seq<Event>, e: Event, tag: Tag, after: Tag)
    requires IsRunning(Exec(start, es), tag) && Enabled(Exec(start, es), e)
    requires (after == tag && (e == Crash(tag, true) || e == Finish(tag))) || e == Redeliver(tag, after)
    requires var t := Step(Exec(start, es), e);
             && after in t.live && t.live[after].msg in t.db.rows
             && t.db.rows[t.live[after].msg].status.Sending?
    ensures var t := Step(Exec(start, es), e); OwnerAlive(t, t.live[after])
  {
    InvHolds(start, es);
    var s := Exec(start, es);
    hide HistoryOk, PublishedOk, DoomedOk;
    assert DeliveryOk(s, s.live[tag]);
  }

  /** The time has come, if the message has one. */
  ghost predicate NotBefore(row: Row, now: Time) {
    row.scheduledAt.Some? ==> row.scheduledAt.value <= now
  }

  /** No task of a message exists, and its row is not `sending` or final, before its time. */
  lemma {:induction false} NeverEarly(start: Time, es: seq<Event>)
    ensures var s := Exec(start, es);
            && (forall tag :: tag in s.live ==>
                  s.live[tag].msg in s.log.originals && NotBefore(s.log.originals[s.live[tag].msg], s.now))
            && (forall m :: m in s.db.rows && !s.db.rows[m].status.Queued? ==> NotBefore(s.db.rows[m], s.now))
            && (forall m :: m in s.db.rows ==>
                  m in s.log.originals && s.db.rows[m].scheduledAt == s.log.originals[m].scheduledAt)
  {
    InvHolds(start, es);
    var s := Exec(start, es);
    forall tag | tag in s.live
      ensures s.live[tag].msg in s.log.originals && NotBefore(s.log.originals[s.live[tag].msg], s.now)
    {
      var d := s.live[tag];
      assert DeliveryOk(s, d) && OnRecord(s, s.log.published[d.task]);
      assert StampsOk(s.now, s.log.originals[d.msg], s.log.stamps[d.msg]);
    }
    forall m | m in s.db.rows
      ensures !s.db.rows[m].status.Queued? ==> NotBefore(s.db.rows[m], s.now)
      ensures s.db.rows[m].scheduledAt == s.log.originals[m].scheduledAt
    {
      assert RowOk(s.now, s.db.rows[m], s.log.originals[m]);
    }
  }

  /**
   A new message is stored as it came, and its task is pending, with the row stamped, if and only if
   it has no schedule or its time had come when the clock was read.
   */
  lemma {:induction false} CreationIsPublishedWhenDue(start: Time, es: seq<Event>, m: MsgId, content: Content,
                                                      scheduledAt: Option<Time>, readAt: Time)
    requires Enabled(Exec(start, es), Create(m, content, scheduledAt, readAt))
    ensures var now := scheduledAt == None || scheduledAt.value <= readAt;
            var enqueuedAt := if now then Some(readAt) else None;
            var s, t := Exec(start, es), Step(Exec(start, es), Create(m, content, scheduledAt, readAt));
            && (Publication(m, readAt) in t.log.outbox <==> now)
            && t.log.outbox - {Publication(m, readAt)} == s.log.outbox
            && t.db.rows == s.db.rows[m := Row(Queued, "", scheduledAt, enqueuedAt, s.now, s.now, content)]
            && AttemptsOf(t.db, m) == [] && t.live == s.live
  {
    InvHolds(start, es);
    var s := Exec(start, es);
    hide RowsOk, LiveOk, DoomedOk, StampsOk, Latest;
    assert Publication(m, readAt) in s.log.outbox ==> OnRecord(s, Publication(m, readAt));
  }

  /** The moment after which the dispatch filter selects a row that nobody touches. */
  function Deadline(row: Row): Time {
    if row.status.Sending? then row.updatedAt + 2 * 3600 * SECOND
    else if row.enqueuedAt.Some? then row.enqueuedAt.value + 15 * 60 * SECOND
    else if row.scheduledAt.Some? then row.scheduledAt.value - 1
    else row.createdAt
  }

  /** Every unfinished row of every run is selected by exactly the passes past its deadline. */
  lemma {:induction false} NothingIsStranded(start: Time, es: seq<Event>, m: MsgId, now: Time)
    requires m in Exec(start, es).db.rows && !Terminal(Exec(start, es).db.rows[m].status)
    ensures var row := Exec(start, es).db.rows[m]; Selected(row, now) <==> Deadline(row) < now
  {
    InvHolds(start, es);
    var s := Exec(start, es);
    assert RowOk(s.now, s.db.rows[m], s.log.originals[m]);
  }

  /** Deleting by id with no second look at the row removes only finished messages past retention. */
  lemma {:induction false} CleanupSparesLiveMessages(start: Time, es: seq<Event>, ids: set<MsgId>, m: MsgId)
    requires Enabled(Exec(start, es), CleanupDelete(ids)) && m in Exec(start, es).db.rows
    ensures var s := Exec(start, es);
            var row := s.db.rows[m];
            m !in Step(s, CleanupDelete(ids)).db.rows ==>
              row.status in {Sent, Failed, Dead} && row.createdAt + 90 * 24 * 3600 * SECOND < s.now
  {
    InvHolds(start, es);
    var s := Exec(start, es);
    assert RowOk(s.now, s.db.rows[m], s.log.originals[m]);
  }

  /** The least distance between two stamps of a row, in whole microseconds. */
  const SPACING: Time := REENQUEUE_AFTER + 1

  ghost predicate Apart(a: Time, b: Time) {
    a - b > REENQUEUE_AFTER || b - a > REENQUEUE_AFTER
  }

  lemma TasksAreApart(s: State, t: TaskId, u: TaskId)
    requires HistoryOk(s) && PublishedOk(s) && t in s.log.published && u in s.log.published
    requires t != u && s.log.published[t].msg == s.log.published[u].msg
    ensures Apart(s.log.published[t].stamp, s.log.published[u].stamp)
  {
    var p, q := s.log.published[t], s.log.published[u];
    assert OnRecord(s, p) && OnRecord(s, q) && p != q;
    hide PublishedOk, Latest;
    assert StampsOk(s.now, s.log.originals[p.msg], s.log.stamps[p.msg]);
    hide HistoryOk;
    SpacedMeansApart(s.log.stamps[p.msg], p.stamp, q.stamp);
  }

  lemma SpacedMeansApart(ts: seq<Time>, a: Time, b: Time)
    requires Spaced(ts) && a in ts && b in ts && a != b
    ensures Apart(a, b)
  {
  }

  /** Stamps of one row are more than fifteen minutes apart, and each is published at most once. */
  lemma {:induction false} StampsAreSpaced(start: Time, es: seq<Event>, m: MsgId, t: TaskId, u: TaskId)
    ensures m in Exec(start, es).log.stamps ==> Spaced(Exec(start, es).log.stamps[m])
    ensures var pubs := Exec(start, es).log.published;
            t in pubs && u in pubs && t != u && pubs[t].msg == pubs[u].msg ==> Apart(pubs[t].stamp, pubs[u].stamp)
  {
    InvHolds(start, es);
    var s := Exec(start, es);
    if m in s.log.stamps { assert StampsOk(s.now, s.log.originals[m], s.log.stamps[m]); }
    var pubs := s.log.published;
    if t in pubs && u in pubs && t != u && pubs[t].msg == pubs[u].msg { TasksAreApart(s, t, u); }
  }

  /** Tasks of one message, all stamped within [lo, hi] and pairwise far apart. */
  ghost predicate FarApart(pubs: map<TaskId, Publication>, tasks: set<TaskId>, lo: Time, hi: Time) {
    && (forall t :: t in tasks ==> t in pubs && lo <= pubs[t].stamp <= hi)
    && forall t, u :: t in tasks && u in tasks && t != u ==> Apart(pubs[t].stamp, pubs[u].stamp)
  }

  lemma {:induction false} EarliestTask(pubs: map<TaskId, Publication>, tasks: set<TaskId>) returns (first: TaskId)
    requires tasks != {} && forall t :: t in tasks ==> t in pubs
    ensures first in tasks && forall t :: t in tasks ==> pubs[first].stamp <= pubs[t].stamp
    decreases tasks
  {
    first :| first in tasks;
    if tasks != {first} {
      var rest := EarliestTask(pubs, tasks - {first});
      first := if pubs[rest].stamp < pubs[first].stamp then rest else first;
    }
  }

  lemma {:induction false} FarApartBound(pubs: map<TaskId, Publication>, tasks: set<TaskId>, lo: Time, hi: Time)
    requires FarApart(pubs, tasks, lo, hi) && lo <= hi
    ensures |tasks| <= 1 + (hi - lo) / SPACING
    decreases tasks
  {
    if tasks != {} {
      var first := EarliestTask(pubs, tasks);
      var rest := tasks - {first};
      assert |tasks| == |rest| + 1;
      if rest != {} {
        var next := EarliestTask(pubs, rest);
        assert Apart(pubs[first].stamp, pubs[next].stamp);
        FarApartBound(pubs, rest, lo + SPACING, hi);
      }
    }
  }

  /** One microsecond of lag does not show in the rate. */
  lemma LagAbsorbed(span: Time, lag: Time)
    requires 0 <= span && 0 <= lag <= 1
    ensures (span + lag) / SPACING <= span / REENQUEUE_AFTER
  {
  }

  ghost function TasksWithin(pubs: map<TaskId, Publication>, m: MsgId, lo: Time, hi: Time): set<TaskId> {
    set t | t in pubs && pubs[t].msg == m && lo <= pubs[t].stamp <= hi
  }

  /** However many passes overlap: at most 1 + T / 15 min tasks per message in a span of length T. */
  lemma {:induction false} PublicationRate(start: Time, es: seq<Event>, m: MsgId, lo: Time, hi: Time)
    requires lo <= hi
    ensures |TasksWithin(Exec(start, es).log.published, m, lo, hi)| <= 1 + (hi - lo) / SPACING
    ensures |TasksWithin(Exec(start, es).log.published, m, lo, hi)| <= 1 + (hi - lo) / REENQUEUE_AFTER
  {
    LagAbsorbed(hi - lo, 0);
    var pubs := Exec(start, es).log.published;
    var tasks := TasksWithin(pubs, m, lo, hi);
    forall t, u | t in tasks && u in tasks && t != u ensures Apart(pubs[t].stamp, pubs[u].stamp) {
      StampsAreSpaced(start, es, m, t, u);
    }
    FarApartBound(pubs, tasks, lo, hi);
  }

  /** The tasks of a message the broker took within [lo, hi]. */
  ghost function HandedOutWithin(log: Log, m: MsgId, lo: Time, hi: Time): set<TaskId> {
    set t | t in log.published && log.published[t].msg == m && t in log.publishedAt && lo <= log.publishedAt[t] <= hi
  }

  lemma SubsetIsSmaller<T>(a: set<T>, b: set<T>)
    requires a <= b
    ensures |a| <= |b|
  {
    assert b == a + (b - a);
  }

  /**
   By the moment of publication: if no task in the span was published more than `lag` after its
   stamp, at most 1 + (T + lag) / (15 min + 1 us) of them were published in a span of length T.
   */
  lemma {:induction false} PublicationRateByMoment(start: Time, es: seq<Event>, m: MsgId, lo: Time, hi: Time, lag: Time)
    requires lo <= hi && 0 <= lag
    requires var log := Exec(start, es).log;
             forall t :: t in HandedOutWithin(log, m, lo, hi) ==> log.publishedAt[t] - log.published[t].stamp <= lag
    ensures |HandedOutWithin(Exec(start, es).log, m, lo, hi)| <= 1 + (hi - lo + lag) / SPACING
  {
    InvHolds(start, es);
    var log := Exec(start, es).log;
    PublicationRate(start, es, m, lo - lag, hi);
    SubsetIsSmaller(HandedOutWithin(log, m, lo, hi), TasksWithin(log.published, m, lo - lag, hi));
  }
}
