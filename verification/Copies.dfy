/**
 How often a message can be delivered when the broker redelivers as it likes: after the first
 final write nobody can claim, and every copy of the claiming task that is running by then can
 succeed at most once more.
 */
module Copies {
  import opened Options
  import opened Messages
  import opened Protocol
  import opened Ownership

  /** The live deliveries of a task. */
  ghost function CopiesOf(live: map<Tag, Delivery>, t: TaskId): set<Tag> {
    set tag | tag in live && live[tag].task == t
  }

  /** Claiming runs whose channel call succeeded. */
  ghost predicate Holds(live: map<Tag, Delivery>, tag: Tag, m: MsgId) {
    RunsFor(live, tag, m) && HoldsSuccess(live[tag])
  }

  /** Claiming runs without a success, which may have one later. */
  ghost predicate Open(live: map<Tag, Delivery>, tag: Tag, m: MsgId) {
    RunsFor(live, tag, m) && !HoldsSuccess(live[tag])
  }

  ghost function Holders(live: map<Tag, Delivery>, m: MsgId): set<Tag> {
    set tag | tag in live && Holds(live, tag, m)
  }

  ghost function OpenRuns(live: map<Tag, Delivery>, m: MsgId): set<Tag> {
    set tag | tag in live && Open(live, tag, m)
  }

  ghost predicate CopiesOk(s: State) {
    forall t ::
      if t in s.log.published then
        && |CopiesOf(s.live, t)| <= 1 + s.ledger.recopied[t]
        && s.ledger.recopied[t] <= s.ledger.redelivered[s.log.published[t].msg]
      else s.ledger.recopied[t] == 0
  }

  /** Successes that were not lost with their run. */
  ghost function Kept(l: Ledger, m: MsgId): int {
    (l.successes[m] as int) - (l.lost[m] as int)
  }

  ghost predicate WorkOk(s: State, m: MsgId) {
    && s.ledger.lost[m] <= s.ledger.crashes[m]
    && (m !in s.log.originals ==> Kept(s.ledger, m) == 0)
    && (!Settled(s.db.rows, m) ==> Kept(s.ledger, m) == |Holders(s.live, m)|)
    && (Settled(s.db.rows, m) && m in s.log.originals ==>
          Kept(s.ledger, m) + |OpenRuns(s.live, m)| <= 1 + s.ledger.redelivered[m])
  }

  // ----- counting

  lemma CountMove(a: set<Tag>, b: set<Tag>, tag: Tag)
    requires forall other :: other != tag ==> (other in a <==> other in b)
    ensures |b| == |a| - Bit(tag in a) + Bit(tag in b)
  {
    assert a - {tag} == b - {tag};
    assert |a - {tag}| == |a| - Bit(tag in a);
    assert |b - {tag}| == |b| - Bit(tag in b);
  }

  /** Nothing but the delivery `tag` differs. */
  ghost predicate OnlyAt(live: map<Tag, Delivery>, live': map<Tag, Delivery>, tag: Tag) {
    forall other :: other != tag ==>
      (other in live <==> other in live') && (other in live ==> live'[other] == live[other])
  }

  lemma RunsMove(live: map<Tag, Delivery>, live': map<Tag, Delivery>, tag: Tag, m: MsgId)
    requires OnlyAt(live, live', tag)
    ensures |Holders(live', m)| == |Holders(live, m)| - Bit(Holds(live, tag, m)) + Bit(Holds(live', tag, m))
    ensures |OpenRuns(live', m)| == |OpenRuns(live, m)| - Bit(Open(live, tag, m)) + Bit(Open(live', tag, m))
  {
    CountMove(Holders(live, m), Holders(live', m), tag);
    CountMove(OpenRuns(live, m), OpenRuns(live', m), tag);
  }

  lemma OnlyActorMoves(s: State, e: Event)
    requires Enabled(s, e)
    ensures if Actor(e).Some? then OnlyAt(s.live, Apply(s, e).live, Actor(e).value) else Apply(s, e).live == s.live
  {
  }

  ghost predicate RunsBounded(s: State, m: MsgId) {
    |Holders(s.live, m)| + |OpenRuns(s.live, m)| <= 1 + s.ledger.redelivered[m]
  }

  lemma RunsOfOwner(s: State, tag: Tag, m: MsgId)
    requires LiveOk(s) && m in s.db.rows && RunsFor(s.live, tag, m)
    ensures s.live[tag].task == s.db.rows[m].claimedBy
    ensures s.live[tag].task in s.log.published && s.log.published[s.live[tag].task].msg == m
  {
  }

  /** All claiming runs of a message are copies of the task that owns it. */
  lemma RunsAreCopies(s: State, m: MsgId)
    requires Inv(s) && CopiesOk(s) && m in s.db.rows
    ensures RunsBounded(s, m)
  {
    hide RowsOk, HistoryOk, PublishedOk, DoomedOk, LiveOk;
    var runs, t := Holders(s.live, m) + OpenRuns(s.live, m), s.db.rows[m].claimedBy;
    assert |runs| == |Holders(s.live, m)| + |OpenRuns(s.live, m)|;
    if runs != {} {
      var tag :| tag in runs;
      forall other | other in runs ensures other in CopiesOf(s.live, t) { RunsOfOwner(s, other, m); }
      RunsOfOwner(s, tag, m);
      SubsetIsSmaller(runs, CopiesOf(s.live, t));
    }
  }

  // ----- copies of a task

  ghost predicate TasksKnown(s: State) {
    forall tag :: tag in s.live ==>
      s.live[tag].task in s.log.published && s.log.published[s.live[tag].task].msg == s.live[tag].msg
  }

  lemma LiveTasksAreKnown(s: State)
    requires LiveOk(s)
    ensures TasksKnown(s)
  {
  }

  lemma CopyAdded(live: map<Tag, Delivery>, tag: Tag, d: Delivery, t: TaskId)
    requires tag !in live
    ensures |CopiesOf(live[tag := d], t)| == |CopiesOf(live, t)| + Bit(t == d.task)
  {
    var added := CopiesOf(live[tag := d], t);
    assert added == if t == d.task then CopiesOf(live, t) + {tag} else CopiesOf(live, t);
  }

  lemma UnknownTaskHasNoCopies(s: State, t: TaskId)
    requires TasksKnown(s) && t !in s.log.published
    ensures CopiesOf(s.live, t) == {}
  {
  }

  lemma CopiesPublish(s: State, p: Publication, task: TaskId, tag: Tag)
    requires TasksKnown(s) && CopiesOk(s) && Enabled(s, Publish(p, task, tag))
    ensures CopiesOk(ApplyPublish(s, p, task, tag))
  {
    hide CopiesOf, TasksKnown;
    UnknownTaskHasNoCopies(s, task);
    forall t ensures |CopiesOf(ApplyPublish(s, p, task, tag).live, t)| == |CopiesOf(s.live, t)| + Bit(t == task) {
      CopyAdded(s.live, tag, Delivery(task, p.msg, 0, Waiting(None)), t);
    }
  }

  lemma CopiesRedeliver(s: State, tag: Tag, other: Tag)
    requires TasksKnown(s) && CopiesOk(s) && Enabled(s, Redeliver(tag, other))
    ensures CopiesOk(ApplyRedeliver(s, tag, other))
  {
    hide CopiesOf;
    var s', task := ApplyRedeliver(s, tag, other), s.live[tag].task;
    forall t ensures |CopiesOf(s'.live, t)| == |CopiesOf(s.live, t)| + Bit(t == task) {
      CopyAdded(s.live, other, s'.live[other], t);
    }
  }

  lemma OthersCountNoCopies(s: State, e: Event)
    requires Enabled(s, e) && !e.Publish? && !e.Redeliver?
    ensures var t := Apply(s, e);
            && t.log.published == s.log.published
            && t.ledger.recopied == s.ledger.recopied && t.ledger.redelivered == s.ledger.redelivered
  {
  }

  lemma OthersMakeNoCopies(s: State, e: Event)
    requires Enabled(s, e) && !e.Publish? && !e.Redeliver?
    ensures var t := Apply(s, e);
            forall tag :: tag in t.live ==> tag in s.live && t.live[tag].task == s.live[tag].task
  {
  }

  lemma CopiesFrame(s: State, t: State)
    requires CopiesOk(s) && t.log.published == s.log.published
    requires t.ledger.recopied == s.ledger.recopied && t.ledger.redelivered == s.ledger.redelivered
    requires forall tag :: tag in t.live ==> tag in s.live && t.live[tag].task == s.live[tag].task
    ensures CopiesOk(t)
  {
    forall task ensures |CopiesOf(t.live, task)| <= |CopiesOf(s.live, task)| {
      SubsetIsSmaller(CopiesOf(t.live, task), CopiesOf(s.live, task));
    }
  }

  lemma CopiesStep(s: State, e: Event)
    requires LiveOk(s) && CopiesOk(s) && Enabled(s, e)
    ensures CopiesOk(Apply(s, e))
  {
    LiveTasksAreKnown(s);
    hide CopiesOk, TasksKnown, LiveOk;
    if e.Publish? {
      CopiesPublish(s, e.p, e.task, e.tag);
    } else if e.Redeliver? {
      CopiesRedeliver(s, e.tag, e.other);
    } else {
      OthersCountNoCopies(s, e);
      OthersMakeNoCopies(s, e);
      hide Apply;
      CopiesFrame(s, Apply(s, e));
    }
  }

  // ----- what one event does to the account of one message

  /** The events by which a run or a success comes or goes. */
  predicate Counts(s: State, e: Event, m: MsgId)
    requires Enabled(s, e)
  {
    (e.Claim? || e.Return? || e.Record? || e.Finish? || e.Crash?) && s.live[e.tag].msg == m
  }

  lemma OthersKeepAccount(s: State, e: Event, m: MsgId)
    requires Enabled(s, e) && !Counts(s, e, m)
    ensures var l, l' := s.ledger, Apply(s, e).ledger;
            && l'.successes[m] == l.successes[m] && l'.lost[m] == l.lost[m] && l'.crashes[m] == l.crashes[m]
            && l.redelivered[m] <= l'.redelivered[m]
  {
  }

  lemma OthersKeepRuns(s: State, e: Event, m: MsgId)
    requires Enabled(s, e) && !Counts(s, e, m) && Actor(e).Some?
    ensures var live, live', tag := s.live, Apply(s, e).live, Actor(e).value;
            (Holds(live, tag, m) <==> Holds(live', tag, m)) && (Open(live, tag, m) <==> Open(live', tag, m))
  {
  }

  /** Only a final write settles a message, and nothing unsettles it. */
  lemma OthersSettleNothing(s: State, e: Event, m: MsgId)
    requires Inv(s) && Enabled(s, e) && !Counts(s, e, m)
    ensures var t := Apply(s, e);
            && (m in s.log.originals ==>
                  m in t.log.originals && (Settled(t.db.rows, m) <==> Settled(s.db.rows, m)))
            && (m !in s.log.originals && m in t.log.originals ==> m in t.db.rows && t.db.rows[m].status.Queued?)
            && (m !in t.log.originals ==> m !in t.db.rows)
  {
    hide HistoryOk, PublishedOk, LiveOk, RowOk;
  }

  lemma NoRunsBeforeCreation(s: State, m: MsgId)
    requires LiveOk(s) && m !in s.log.originals
    ensures Holders(s.live, m) == {}
  {
  }

  lemma WorkFrame(s: State, e: Event, m: MsgId)
    requires Inv(s) && WorkOk(s, m) && Enabled(s, e) && !Counts(s, e, m)
    ensures WorkOk(Apply(s, e), m)
  {
    hide Apply, Enabled, RowsOk, HistoryOk, PublishedOk, DoomedOk, LiveOk, Counts;
    OthersKeepAccount(s, e, m);
    OthersSettleNothing(s, e, m);
    OnlyActorMoves(s, e);
    if Actor(e).Some? {
      OthersKeepRuns(s, e, m);
      RunsMove(s.live, Apply(s, e).live, Actor(e).value, m);
    }
    if m !in s.log.originals { NoRunsBeforeCreation(s, m); }
  }

  lemma ClaimWork(s: State, tag: Tag)
    requires Inv(s) && Enabled(s, Claim(tag)) && WorkOk(s, s.live[tag].msg)
    ensures WorkOk(ApplyClaim(s, tag), s.live[tag].msg)
  {
    hide RowsOk, LiveOk, HistoryOk, PublishedOk, DoomedOk, Holders, OpenRuns;
    var t, m := ApplyClaim(s, tag), s.live[tag].msg;
    RunsMove(s.live, t.live, tag, m);
  }

  /** A channel call counts as a success exactly when it returns one; an exception never does. */
  lemma SuccessesAreCounted(s: State, tag: Tag, answer: Answer)
    requires Enabled(s, Return(tag, answer))
    ensures var t := Step(s, Return(tag, answer));
            && t.ledger.successes
               == s.ledger.successes + (if answer.Returns? && answer.result.success then multiset{s.live[tag].msg}
                                        else multiset{})
            && (Holds(t.live, tag, s.live[tag].msg) <==> answer.Returns? && answer.result.success)
  {
  }

  lemma ReturnWork(s: State, tag: Tag, answer: Answer)
    requires Enabled(s, Return(tag, answer)) && WorkOk(s, s.live[tag].msg) && s.live[tag].msg in s.log.originals
    ensures WorkOk(ApplyReturn(s, tag, answer), s.live[tag].msg)
  {
    hide Holders, OpenRuns;
    var t, m := ApplyReturn(s, tag, answer), s.live[tag].msg;
    RunsMove(s.live, t.live, tag, m);
  }

  /** A run that dies takes its success along, and is counted as a crash. */
  lemma DeathWork(s: State, tag: Tag, redelivered: bool)
    requires tag in s.live && !s.live[tag].phase.Waiting?
    requires WorkOk(s, s.live[tag].msg) && s.live[tag].msg in s.log.originals
    ensures WorkOk(ApplyCrash(s, tag, redelivered), s.live[tag].msg)
  {
    hide Holders, OpenRuns;
    var t, m := ApplyCrash(s, tag, redelivered), s.live[tag].msg;
    RunsMove(s.live, t.live, tag, m);
  }

  lemma RecordWork(s: State, tag: Tag)
    requires Enabled(s, Record(tag)) && WorkOk(s, s.live[tag].msg) && s.live[tag].msg in s.log.originals
    ensures WorkOk(ApplyRecord(s, tag), s.live[tag].msg)
  {
    hide Holders, OpenRuns, InsertFails;
    var t, d := ApplyRecord(s, tag), s.live[tag];
    if InsertFails(s.db, d.msg, d.phase.progress.number) {
      DeathWork(s, tag, false);
    } else {
      RunsMove(s.live, t.live, tag, d.msg);
    }
  }

  lemma FinishWork(s: State, tag: Tag)
    requires Enabled(s, Finish(tag)) && WorkOk(s, s.live[tag].msg) && s.live[tag].msg in s.log.originals
    requires s.live[tag].msg in s.db.rows ==> RunsBounded(s, s.live[tag].msg)
    ensures WorkOk(ApplyFinish(s, tag), s.live[tag].msg)
  {
    hide Holders, OpenRuns;
    var t, d := ApplyFinish(s, tag), s.live[tag];
    if d.msg in s.db.rows || Verdict(d.phase.progress.result, d.retries).None? {
      RunsMove(s.live, t.live, tag, d.msg);
    } else {
      DeathWork(s, tag, false);
    }
  }

  lemma MessageIsKnown(s: State, tag: Tag)
    requires Inv(s) && tag in s.live
    ensures s.live[tag].msg in s.log.originals
  {
  }

  lemma WorkStep(s: State, e: Event, m: MsgId)
    requires Inv(s) && CopiesOk(s) && WorkOk(s, m) && Enabled(s, e)
    ensures WorkOk(Apply(s, e), m)
  {
    hide Inv, CopiesOk, WorkOk, RunsBounded;
    if !Counts(s, e, m) {
      WorkFrame(s, e, m);
    } else {
      MessageIsKnown(s, e.tag);
      if e.Claim? { ClaimWork(s, e.tag); }
      else if e.Return? { ReturnWork(s, e.tag, e.answer); }
      else if e.Record? { RecordWork(s, e.tag); }
      else if e.Finish? { if m in s.db.rows { RunsAreCopies(s, m); } FinishWork(s, e.tag); }
      else { DeathWork(s, e.tag, e.redelivered); }
    }
  }

  // ----- over runs

  lemma {:induction false} CopiesHold(start: Time, es: seq<Event>)
    ensures CopiesOk(Exec(start, es))
  {
    if es != [] {
      var s, e := Exec(start, es[..|es| - 1]), es[|es| - 1];
      InvHolds(start, es[..|es| - 1]);
      CopiesHold(start, es[..|es| - 1]);
      hide CopiesOk, Apply, Enabled, LiveOk, RowsOk, DoomedOk, HistoryOk, PublishedOk;
      if Enabled(s, e) { CopiesStep(s, e); }
    }
  }

  lemma {:induction false} WorkHolds(start: Time, es: seq<Event>, m: MsgId)
    ensures WorkOk(Exec(start, es), m)
  {
    if es != [] {
      var s, e := Exec(start, es[..|es| - 1]), es[|es| - 1];
      InvHolds(start, es[..|es| - 1]);
      CopiesHold(start, es[..|es| - 1]);
      WorkHolds(start, es[..|es| - 1], m);
      hide CopiesOk, WorkOk, Apply, Enabled, Inv;
      if Enabled(s, e) { WorkStep(s, e, m); }
    }
  }

  /**
   In every run, whatever the broker does, a message is delivered at most once more than its runs
   crashed and its tasks were handed out again. Before it is settled, every success that was not
   lost is held by a claiming run.
   */
  lemma {:induction false} DeliveriesAreBounded(start: Time, es: seq<Event>, m: MsgId)
    ensures var s := Exec(start, es);
            && s.ledger.successes[m] <= 1 + s.ledger.crashes[m] + s.ledger.redelivered[m]
            && (!Settled(s.db.rows, m) ==> s.ledger.successes[m] == s.ledger.lost[m] + |Holders(s.live, m)|)
  {
    WorkHolds(start, es, m);
    InvHolds(start, es);
    CopiesHold(start, es);
    var s := Exec(start, es);
    if !Settled(s.db.rows, m) { RunsAreCopies(s, m); }
  }
}
