/**
 Each task body, run without interruption, is a sequence of protocol events: a delivery, a dispatch
 pass with a broker that fails part-way, and the cleanup job.
 */
module TaskSteps {
  import opened Options
  import opened Messages
  import opened Listing
  import opened Protocol
  import opened Ownership
  import opened Tasks

  /** The state after some more events. */
  function Steps(s: State, es: seq<Event>): State {
    if es == [] then s else Step(Steps(s, es[..|es| - 1]), es[|es| - 1])
  }

  lemma StepsSnoc(s: State, es: seq<Event>, e: Event)
    ensures Steps(s, es + [e]) == Step(Steps(s, es), e)
  {
  }

  lemma {:induction false} StepsAppend(s: State, es: seq<Event>, more: seq<Event>)
    ensures Steps(s, es + more) == Steps(Steps(s, es), more)
    decreases |more|
  {
    if more == [] {
      assert es + more == es;
    } else {
      var init, e := more[..|more| - 1], more[|more| - 1];
      StepsAppend(s, es, init);
      assert es + more == (es + init) + [e];
      StepsSnoc(s, es + init, e);
    }
  }

  // ----- delivery

  /** What becomes of a delivery whose run ended this way; None if it is gone. */
  function Fate(outcome: RunOutcome, d: Delivery, finishedAt: Time): Option<Delivery> {
    match outcome
    case Ended(_) => Some(d.(phase := Finished))
    case AsksForRetry => Some(d.(retries := d.retries + 1, phase := Waiting(Some(finishedAt))))
    case _ => None
  }

  function WithFate(live: map<Tag, Delivery>, tag: Tag, fate: Option<Delivery>): map<Tag, Delivery> {
    if fate.Some? then live[tag := fate.value] else live - {tag}
  }

  /** The attempt insert and the final write. */
  lemma TailMatches(s: State, tag: Tag)
    requires Enabled(s, Record(tag)) && s.live[tag].msg in s.db.rows
    ensures var d := s.live[tag];
            var p := d.phase.progress;
            var (db, outcome) := FinishBody(s.db, d.retries, d.msg, d.phase.copy, p.result, p.number, s.now);
            var t := Step(Step(s, Record(tag)), Finish(tag));
            t.db == db && t.live == WithFate(s.live, tag, Fate(outcome, d, s.now))
  {
    hide InsertFails, Letter;
    var d, r := s.live[tag], Step(s, Record(tag));
    assert r == ApplyRecord(s, tag);
    if !InsertFails(s.db, d.msg, d.phase.progress.number) {
      assert Step(r, Finish(tag)) == ApplyFinish(r, tag);
    }
  }

  /** The answer and its number change only the delivery. */
  lemma HeadMatches(s: State, tag: Tag, answer: Answer)
    requires Enabled(s, Return(tag, answer))
    ensures var d := s.live[tag];
            var t := Step(Step(s, Return(tag, answer)), Number(tag));
            && t.db == s.db && t.now == s.now
            && t.live == s.live[tag := Advanced(d, Numbered(Handled(answer), |AttemptsOf(s.db, d.msg)| + 1))]
  {
  }

  /** The unlocked part of a claiming run, step by step. */
  function Body(s: State, tag: Tag, answer: Answer): State {
    Step(Step(Step(Step(s, Return(tag, answer)), Number(tag)), Record(tag)), Finish(tag))
  }

  lemma BodyMatches(s: State, tag: Tag, answer: Answer)
    requires Enabled(s, Return(tag, answer)) && s.live[tag].msg in s.db.rows
    ensures var d := s.live[tag];
            var (db, outcome) := DeliverBody(s.db, d.retries, d.msg, d.phase.copy, answer, s.now);
            var t := Body(s, tag, answer);
            t.db == db && t.live == WithFate(s.live, tag, Fate(outcome, d, s.now))
  {
    hide Step, FinishBody;
    HeadMatches(s, tag, answer);
    TailMatches(Step(Step(s, Return(tag, answer)), Number(tag)), tag);
  }

  /** A delivery that is not there takes no steps. */
  lemma GoneStays(s: State, tag: Tag, answer: Answer)
    requires tag !in s.live
    ensures Body(s, tag, answer) == s
  {
  }

  /** Claim and clock, before the channel answers. */
  lemma ClaimMatches(s: State, tag: Tag, answer: Answer, finishedAt: Time)
    requires IsWaiting(s, tag) && Enabled(s, Tick(finishedAt)) && finishedAt <= s.now + TASK_TIME_LIMIT
    ensures var d, t := s.live[tag], Step(Step(s, Claim(tag)), Tick(finishedAt));
            if Decide(s.db.rows, d.msg, d.task).Claims? then
              var row := ClaimedRow(s.db.rows[d.msg], d.task, s.now);
              && t.db == s.db.(rows := s.db.rows[d.msg := row]) && t.now == finishedAt
              && t.live == s.live[tag := d.(phase := Running(s.now, row.content, Claimed))]
              && Enabled(t, Return(tag, answer))
            else t.db == s.db && t.live == s.live - {tag}
  {
  }

  /**
   The task body and the protocol's events, for runs nothing interrupts, leave the same tables, and
   the delivery is finished, waits for its retry or is gone, as the outcome says.
   */
  lemma RunMatchesTaskBody(s: State, tag: Tag, answer: Answer, finishedAt: Time)
    requires IsWaiting(s, tag) && Enabled(s, Tick(finishedAt)) && finishedAt <= s.now + TASK_TIME_LIMIT
    ensures var d := s.live[tag];
            var (db, outcome) := DeliverOnce(s.db, d.task, d.retries, d.msg, answer, s.now, finishedAt);
            var t := Body(Step(Step(s, Claim(tag)), Tick(finishedAt)), tag, answer);
            t.db == db && t.live == WithFate(s.live, tag, Fate(outcome, d, finishedAt))
  {
    hide Step, Body, DeliverBody, Enabled;
    var d, t := s.live[tag], Step(Step(s, Claim(tag)), Tick(finishedAt));
    ClaimMatches(s, tag, answer, finishedAt);
    if Decide(s.db.rows, d.msg, d.task).Claims? {
      BodyMatches(t, tag, answer);
    } else {
      GoneStays(t, tag, answer);
    }
  }

  // ----- a dispatch pass

  /** The publications of a batch, in order, and what they put into the broker. */
  function Pubs(batch: seq<MsgId>, now: Time): seq<Publication> {
    seq(|batch|, i requires 0 <= i < |batch| => Publication(batch[i], now))
  }

  function Deliveries(batch: seq<MsgId>, tasks: seq<TaskId>): seq<Delivery>
    requires |tasks| <= |batch|
  {
    seq(|tasks|, i requires 0 <= i < |tasks| => Delivery(tasks[i], batch[i], 0, Waiting(None)))
  }

  function PublishAt(batch: seq<MsgId>, now: Time, tasks: seq<TaskId>, tags: seq<Tag>, i: nat): Event
    requires i < |tasks| == |tags| <= |batch|
  {
    Publish(Publication(batch[i], now), tasks[i], tags[i])
  }

  function Publishing(batch: seq<MsgId>, now: Time, tasks: seq<TaskId>, tags: seq<Tag>, k: nat): seq<Event>
    requires k <= |tasks| == |tags| <= |batch|
  {
    if k == 0 then []
    else Publishing(batch, now, tasks, tags, k - 1) + [PublishAt(batch, now, tasks, tags, k - 1)]
  }

  /** The broker fails: the rows from `k` on, up to `n`, are never published. */
  function GivingUp(batch: seq<MsgId>, now: Time, k: nat, n: nat): seq<Event>
    requires k <= n <= |batch|
  {
    if n == k then [] else GivingUp(batch, now, k, n - 1) + [PublishFails(Pubs(batch, now)[n - 1])]
  }

  /** A dispatch pass whose broker takes one task per given id and then fails. */
  function PassEvents(batch: seq<MsgId>, now: Time, tasks: seq<TaskId>, tags: seq<Tag>): seq<Event>
    requires |tasks| == |tags| <= |batch|
  {
    [Dispatch(now, Members(batch))] + Publishing(batch, now, tasks, tags, |tasks|)
    + GivingUp(batch, now, |tasks|, |batch|)
  }

  /** The ids the broker and the client library make up are new and different. */
  ghost predicate FreshIds(s: State, tasks: seq<TaskId>, tags: seq<Tag>) {
    && |tasks| == |tags| && Distinct(tasks) && Distinct(tags)
    && (forall t :: t in tasks ==> t != "" && t !in s.log.published)
    && (forall tag :: tag in tags ==> tag !in s.live)
  }

  /** `b` is `a` with these new keys and values. */
  ghost predicate Added<K, V>(a: map<K, V>, b: map<K, V>, keys: seq<K>, values: seq<V>) {
    && |keys| == |values| && b.Keys == a.Keys + Members(keys)
    && (forall k :: k in a ==> b[k] == a[k])
    && (forall i :: 0 <= i < |keys| ==> keys[i] in b && b[keys[i]] == values[i])
  }

  lemma AddedNext<K, V>(a: map<K, V>, b: map<K, V>, keys: seq<K>, values: seq<V>, k: nat)
    requires k < |keys| <= |values| && Distinct(keys) && keys[k] !in a && Added(a, b, keys[..k], values[..k])
    ensures keys[k] !in b && Added(a, b[keys[k] := values[k]], keys[..k + 1], values[..k + 1])
  {
  }

  /** Exactly the first `k` tasks were handed out, each for its message and waiting to run. */
  ghost predicate HandedOut(s: State, t: State, batch: seq<MsgId>, now: Time, tasks: seq<TaskId>, tags: seq<Tag>,
                            k: nat)
    requires k <= |tasks| == |tags| <= |batch|
  {
    && t == s.(live := t.live, log := t.log)
    && t.log == s.log.(outbox := t.log.outbox, published := t.log.published, publishedAt := t.log.publishedAt)
    && Added(s.live, t.live, tags[..k], Deliveries(batch, tasks)[..k])
    && Added(s.log.published, t.log.published, tasks[..k], Pubs(batch, now)[..k])
    && t.log.outbox == s.log.outbox - Members(Pubs(batch, now)[..k])
  }

  /** The pending publications of a batch, once the first `k` have left. */
  lemma PendingNext(batch: seq<MsgId>, now: Time, outbox: set<Publication>, k: nat)
    requires k < |batch| && Distinct(batch) && Members(Pubs(batch, now)) <= outbox
    ensures var pubs := Pubs(batch, now);
            && pubs[k] in outbox - Members(pubs[..k])
            && outbox - Members(pubs[..k]) - {pubs[k]} == outbox - Members(pubs[..k + 1])
  {
  }

  lemma HandOutNext(s: State, t: State, batch: seq<MsgId>, now: Time, tasks: seq<TaskId>, tags: seq<Tag>, k: nat)
    requires k < |tasks| == |tags| <= |batch| && Distinct(batch) && FreshIds(s, tasks, tags)
    requires HandedOut(s, t, batch, now, tasks, tags, k) && Members(Pubs(batch, now)) <= s.log.outbox
    ensures HandedOut(s, Step(t, PublishAt(batch, now, tasks, tags, k)), batch, now, tasks, tags, k + 1)
  {
    hide Added, Distinct;
    assert tasks[k] in tasks && tags[k] in tags;
    PendingNext(batch, now, s.log.outbox, k);
    AddedNext(s.live, t.live, tags, Deliveries(batch, tasks), k);
    AddedNext(s.log.published, t.log.published, tasks, Pubs(batch, now), k);
    assert Step(t, PublishAt(batch, now, tasks, tags, k)) == ApplyPublish(t, Pubs(batch, now)[k], tasks[k], tags[k]);
  }

  lemma NothingHandedOut(s: State, batch: seq<MsgId>, now: Time, tasks: seq<TaskId>, tags: seq<Tag>)
    requires |tasks| == |tags| <= |batch|
    ensures HandedOut(s, s, batch, now, tasks, tags, 0)
  {
  }

  lemma {:induction false} PublishingWorks(s: State, batch: seq<MsgId>, now: Time, tasks: seq<TaskId>,
                                           tags: seq<Tag>, k: nat)
    requires k <= |tasks| == |tags| <= |batch| && Distinct(batch) && FreshIds(s, tasks, tags)
    requires Members(Pubs(batch, now)) <= s.log.outbox
    ensures HandedOut(s, Steps(s, Publishing(batch, now, tasks, tags, k)), batch, now, tasks, tags, k)
  {
    hide HandedOut, FreshIds, Distinct, Step, Members, Pubs, PublishAt;
    if k == 0 {
      NothingHandedOut(s, batch, now, tasks, tags);
    } else {
      var before := Publishing(batch, now, tasks, tags, k - 1);
      PublishingWorks(s, batch, now, tasks, tags, k - 1);
      StepsSnoc(s, before, PublishAt(batch, now, tasks, tags, k - 1));
      HandOutNext(s, Steps(s, before), batch, now, tasks, tags, k - 1);
    }
  }

  lemma {:induction false} GivingUpWorks(s: State, t: State, batch: seq<MsgId>, now: Time, k: nat, n: nat)
    requires k <= n <= |batch| && Distinct(batch) && Members(Pubs(batch, now)) <= s.log.outbox
    requires t.log.outbox == s.log.outbox - Members(Pubs(batch, now)[..k])
    ensures Steps(t, GivingUp(batch, now, k, n))
         == t.(log := t.log.(outbox := s.log.outbox - Members(Pubs(batch, now)[..n])))
  {
    hide Distinct, Step, Members;
    if n > k {
      var before, p := GivingUp(batch, now, k, n - 1), Pubs(batch, now)[n - 1];
      GivingUpWorks(s, t, batch, now, k, n - 1);
      StepsSnoc(t, before, PublishFails(p));
      PendingNext(batch, now, s.log.outbox, n - 1);
      DropsOne(Steps(t, before), p);
    }
  }

  lemma DropsOne(s: State, p: Publication)
    requires p in s.log.outbox
    ensures Step(s, PublishFails(p)) == s.(log := s.log.(outbox := s.log.outbox - {p}))
  {
  }

  /** The stamping is one enabled event, and its publications are pending afterwards. */
  lemma StampingWorks(s: State, order: seq<MsgId>, now: Time)
    requires Inv(s) && Distinct(order) && now <= s.now
    ensures var batch := Batch(s.db.rows, order, now);
            && Distinct(batch) && Enabled(s, Dispatch(now, Members(batch)))
            && s.log.outbox !! Members(Pubs(batch, now))
            && ApplyDispatch(s, now, Members(batch)).log.outbox == s.log.outbox + Members(Pubs(batch, now))
  {
    var batch := Batch(s.db.rows, order, now);
    BatchIsEnabled(s, order, now);
    NothingPendingYet(s, now, Members(batch));
    hide Inv;
    assert (set m | m in Members(batch) :: Publication(m, now)) == Members(Pubs(batch, now)) by { PubsOf(batch, now); }
  }

  lemma PubsOf(batch: seq<MsgId>, now: Time)
    ensures (set m | m in Members(batch) :: Publication(m, now)) == Members(Pubs(batch, now))
  {
    var pubs := Pubs(batch, now);
    forall m | m in batch ensures Publication(m, now) in pubs {
      var i :| 0 <= i < |batch| && batch[i] == m;
      assert pubs[i] == Publication(m, now);
    }
  }

  /** A batch holds at most two hundred rows, all of them selected. */
  lemma BatchIsEnabled(s: State, order: seq<MsgId>, now: Time)
    requires Distinct(order) && now <= s.now
    ensures var batch := Batch(s.db.rows, order, now);
            Distinct(batch) && Enabled(s, Dispatch(now, Members(batch)))
  {
    var hits := SelectedIds(s.db.rows, now);
    FilterMembers(order, hits);
    FilterDistinct(order, hits);
    MembersCount(Batch(s.db.rows, order, now));
  }

  lemma {:induction false} MembersCount<T>(s: seq<T>)
    ensures |Members(s)| <= |s|
  {
    if s != [] {
      MembersCount(s[1..]);
      assert Members(s) == {s[0]} + Members(s[1..]);
    }
  }

  /** A stamp that is about to be written has no pending publication. */
  lemma NothingPendingYet(s: State, now: Time, batch: set<MsgId>)
    requires Inv(s) && Enabled(s, Dispatch(now, batch))
    ensures forall m :: m in batch ==> Publication(m, now) !in s.log.outbox
  {
  }

  lemma FirstStep(s: State, e: Event)
    requires Enabled(s, e)
    ensures Steps(s, [e]) == Apply(s, e)
  {
  }

  lemma TakenPubs(batch: seq<MsgId>, now: Time, k: nat)
    requires k <= |batch|
    ensures Pubs(batch, now)[..k] == Pubs(Take(batch, k), now)
  {
  }

  lemma PublishingThenGivingUp(s: State, outbox: set<Publication>, batch: seq<MsgId>, now: Time,
                               tasks: seq<TaskId>, tags: seq<Tag>)
    requires |tasks| == |tags| <= |batch| && Distinct(batch) && FreshIds(s, tasks, tags)
    requires s.log.outbox == outbox + Members(Pubs(batch, now)) && outbox !! Members(Pubs(batch, now))
    ensures var t := Steps(Steps(s, Publishing(batch, now, tasks, tags, |tasks|)),
                           GivingUp(batch, now, |tasks|, |batch|));
            && t == s.(live := t.live, log := t.log) && t.log.outbox == outbox
            && Added(s.live, t.live, tags, Deliveries(batch, tasks))
            && Added(s.log.published, t.log.published, tasks, Pubs(batch, now)[..|tasks|])
  {
    hide Steps, Publishing, GivingUp, Added, Distinct, FreshIds;
    var n, pubs := |tasks|, Pubs(batch, now);
    var u := Steps(s, Publishing(batch, now, tasks, tags, n));
    PublishingWorks(s, batch, now, tasks, tags, n);
    GivingUpWorks(s, u, batch, now, n, |batch|);
    assert pubs[..|batch|] == pubs && s.log.outbox - Members(pubs) == outbox;
    assert tags[..n] == tags && tasks[..n] == tasks && Deliveries(batch, tasks)[..n] == Deliveries(batch, tasks);
  }

  /**
   A dispatch pass whose broker accepts some tasks and then fails is one `Dispatch`, a `Publish` per
   accepted task and a `PublishFails` per row that is left: exactly the batch is stamped, the broker
   holds the new tasks for the rows it accepted, and nothing of the pass is pending.
   */
  lemma PassMatchesEvents(s: State, order: seq<MsgId>, now: Time, accepts: nat, tasks: seq<TaskId>, tags: seq<Tag>)
    requires Inv(s) && Distinct(order) && now <= s.now
    requires FreshIds(s, tasks, tags) && |tasks| == |Take(Batch(s.db.rows, order, now), accepts)|
    ensures var batch := Batch(s.db.rows, order, now);
            var t := Steps(s, PassEvents(batch, now, tasks, tags));
            && t.db == s.db.(rows := StampAll(s.db.rows, Members(batch), now))
            && t.now == s.now && t.ledger == s.ledger && t.log.outbox == s.log.outbox
            && Added(s.live, t.live, tags, Deliveries(batch, tasks))
            && Added(s.log.published, t.log.published, tasks, Pubs(Take(batch, accepts), now))
  {
    hide Inv, Steps, Publishing, GivingUp, Added, Batch, Distinct, Pubs, Deliveries, StampAll;
    var batch := Batch(s.db.rows, order, now);
    var u := ApplyDispatch(s, now, Members(batch));
    StampingWorks(s, order, now);
    FirstStep(s, Dispatch(now, Members(batch)));
    var publishing, givingUp := Publishing(batch, now, tasks, tags, |tasks|), GivingUp(batch, now, |tasks|, |batch|);
    StepsAppend(s, [Dispatch(now, Members(batch))] + publishing, givingUp);
    StepsAppend(s, [Dispatch(now, Members(batch))], publishing);
    PublishingThenGivingUp(u, s.log.outbox, batch, now, tasks, tags);
    TakenPubs(batch, now, |tasks|);
    assert Take(batch, |tasks|) == Take(batch, accepts);
  }

  // ----- the cleanup job

  function CleanupIds(db: Db, order: seq<MsgId>, now: Time): seq<MsgId> {
    Take(Filter(order, ExpiredIds(db.rows, now)), CLEANUP_BATCH_SIZE)
  }

  /** One round of the job is one query and one deletion of what it returned. */
  lemma CleanupRoundMatches(s: State, order: seq<MsgId>, now: Time)
    requires now <= s.now
    ensures var ids := Members(CleanupIds(s.db, order, now));
            Step(Step(s, CleanupSelect(now, ids)), CleanupDelete(ids))
            == s.(db := Deleted(s.db, ids), log := s.log.(doomed := s.log.doomed - ids))
  {
    hide CleanupIds, Members, Deleted;
    var ids := Members(CleanupIds(s.db, order, now));
    CleanupIsEnabled(s, order, now);
    var t := Step(s, CleanupSelect(now, ids));
    assert t == s.(log := s.log.(doomed := s.log.doomed + ids));
    assert s.log.doomed + ids - ids == s.log.doomed - ids;
  }

  /** What the query returns may be in the hands of a cleanup pass. */
  lemma CleanupIsEnabled(s: State, order: seq<MsgId>, now: Time)
    requires now <= s.now
    ensures Enabled(s, CleanupSelect(now, Members(CleanupIds(s.db, order, now))))
  {
    hide Filter, Expired;
    var ids := CleanupIds(s.db, order, now);
    FilterMembers(order, ExpiredIds(s.db.rows, now));
    MembersCount(ids);
    forall m | m in Members(ids) ensures m in s.db.rows && Expired(s.db.rows[m], now) {
      assert m in ExpiredIds(s.db.rows, now);
    }
  }

  ghost predicate CleanupEvents(es: seq<Event>) {
    forall e :: e in es ==> e.CleanupSelect? || e.CleanupDelete?
  }

  /** Only the tables and the ids in the hands of cleanup passes differ. */
  ghost predicate OnlyCleaned(s: State, t: State) {
    t == s.(db := t.db, log := s.log.(doomed := t.log.doomed)) && t.log.doomed <= s.log.doomed
  }

  /** The rounds from the one on that finds `done` messages deleted. */
  lemma {:induction false} CleanupRounds(s: State, before: seq<Event>, order: seq<MsgId>, now: Time, done: nat)
    returns (es: seq<Event>)
    requires Distinct(order) && Members(order) == s.db.rows.Keys && now <= s.now
    requires CleanupEvents(before) && OnlyCleaned(s, Steps(s, before))
    requires CleanupAt(s.db, Steps(s, before).db, order, now, done)
    ensures CleanupEvents(es) && OnlyCleaned(s, Steps(s, es))
    ensures Steps(s, es).db == Deleted(s.db, ExpiredIds(s.db.rows, now))
    decreases Remaining(s.db, order, now, done)
  {
    hide CleanupAt, Filter, Remaining, Deleted, ExpiredIds, Take, Members, Distinct, Steps, Step;
    var t := Steps(s, before);
    var ids := CleanupIds(t.db, order, now);
    CleanupBatch(s.db, t.db, order, now, done);
    if ids == [] {
      es := before;
      CleanupEnd(s.db, t.db, order, now, done);
    } else {
      var select, delete := CleanupSelect(now, Members(ids)), CleanupDelete(Members(ids));
      StepsSnoc(s, before, select);
      StepsSnoc(s, before + [select], delete);
      CleanupRoundMatches(t, order, now);
      es := CleanupRounds(s, before + [select] + [delete], order, now, done + |ids|);
    }
  }

  /** The cleanup job is a sequence of such rounds, and it leaves the tables that its code leaves. */
  lemma CleanupMatchesEvents(s: State, order: seq<MsgId>, now: Time) returns (es: seq<Event>)
    requires Distinct(order) && Members(order) == s.db.rows.Keys && now <= s.now
    ensures CleanupEvents(es) && OnlyCleaned(s, Steps(s, es))
    ensures Steps(s, es).db == Deleted(s.db, ExpiredIds(s.db.rows, now))
  {
    CleanupStart(s.db, order, now);
    es := CleanupRounds(s, [], order, now, 0);
  }
}
