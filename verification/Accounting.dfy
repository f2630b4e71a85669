/**
 At-least-once delivery, counted: what was sent outside against what the database says. The account
 of a message is exact when no claim of it overlaps a run of the same task, as in `Exclusion`;
 `Copies` has the bound for every run.
 */
module Accounting {
  import opened Options
  import opened Messages
  import opened Protocol
  import opened Ownership
  import opened Records
  import opened Exclusion
  import opened Copies

  predicate IsSent(s: State, m: MsgId) {
    m in s.db.rows && s.db.rows[m].status.Sent?
  }

  predicate Unfinished(s: State, m: MsgId) {
    m in s.db.rows && !Terminal(s.db.rows[m].status)
  }

  /**
   Every success is lost with its run, held by the one claiming run, or written to the row; a message
   that failed or died has none that was not lost.
   */
  ghost predicate Balanced(s: State, m: MsgId) {
    && s.ledger.lost[m] <= s.ledger.crashes[m]
    && 0 <= Kept(s.ledger, m) <= 1
    && (m !in s.log.originals ==> Kept(s.ledger, m) == 0)
    && (Unfinished(s, m) ==> Kept(s.ledger, m) == |Holders(s.live, m)|)
    && (m in s.db.rows && !Unfinished(s, m) ==> Kept(s.ledger, m) == Bit(IsSent(s, m)))
  }

  /** The account of a message that is finished or deleted. */
  ghost predicate SettledOk(s: State, m: MsgId) {
    m in s.log.originals && Settled(s.db.rows, m) ==>
      0 <= Kept(s.ledger, m) <= 1 && (m in s.db.rows ==> Kept(s.ledger, m) == Bit(IsSent(s, m)))
  }

  /** Without a claiming run nothing is added to the account. */
  lemma NoRunNoChange(s: State, e: Event, m: MsgId)
    requires Enabled(s, e) && forall tag :: !RunsFor(s.live, tag, m)
    ensures Kept(Apply(s, e).ledger, m) == Kept(s.ledger, m)
  {
    assert Counts(s, e, m) ==> !RunsFor(s.live, e.tag, m);
  }

  lemma SettledHasNoRun(s: State, m: MsgId, tag: Tag)
    requires RunsOk(s, m) && Settled(s.db.rows, m)
    ensures !RunsFor(s.live, tag, m)
  {
  }

  lemma SettledStays(s: State, e: Event, m: MsgId)
    requires Inv(s) && Excl(s, m) && SettledOk(s, m) && Enabled(s, e)
    requires m in s.log.originals && Settled(s.db.rows, m)
    ensures SettledOk(Apply(s, e), m)
  {
    forall tag ensures !RunsFor(s.live, tag, m) { SettledHasNoRun(s, m, tag); }
    hide Inv, Excl, Apply, Enabled, Kept;
    NoRunNoChange(s, e, m);
    KeptStep(s, e, m);
  }

  /** The one claiming run holds the one success, if there is one. */
  lemma SoleHolder(live: map<Tag, Delivery>, tag: Tag, m: MsgId)
    requires OneRunning(live, m)
    ensures |Holders(live, m)| <= 1
    ensures RunsFor(live, tag, m) ==> |Holders(live, m)| == Bit(HoldsSuccess(live[tag]))
  {
    if other :| other in Holders(live, m) { assert Holders(live, m) == {other}; }
    assert RunsFor(live, tag, m) ==> Holders(live, m) == if HoldsSuccess(live[tag]) then {tag} else {};
  }

  lemma FinishSettles(s: State, tag: Tag)
    requires Enabled(s, Finish(tag)) && Unfinished(s, s.live[tag].msg)
    requires Kept(s.ledger, s.live[tag].msg) == Bit(HoldsSuccess(s.live[tag]))
    ensures SettledOk(ApplyFinish(s, tag), s.live[tag].msg) || Unfinished(ApplyFinish(s, tag), s.live[tag].msg)
  {
  }

  /** Only a final write settles an unfinished message. */
  lemma OnlyFinishSettles(s: State, e: Event, m: MsgId)
    requires Enabled(s, e) && Counts(s, e, m) && !e.Finish? && Unfinished(s, m)
    ensures Unfinished(Apply(s, e), m)
  {
  }

  lemma UnfinishedStep(s: State, e: Event, m: MsgId)
    requires Inv(s) && Excl(s, m) && WorkOk(s, m) && Enabled(s, e) && Unfinished(s, m)
    ensures SettledOk(Apply(s, e), m)
  {
    if !Counts(s, e, m) {
      OthersSettleNothing(s, e, m);
    } else if e.Finish? {
      SoleHolder(s.live, e.tag, m);
      FinishSettles(s, e.tag);
    } else {
      OnlyFinishSettles(s, e, m);
    }
    hide Apply, Enabled, HistoryOk, PublishedOk, DoomedOk, LiveOk, RowOk;
  }

  lemma CreatedStep(s: State, e: Event, m: MsgId)
    requires Inv(s) && Enabled(s, e) && m !in s.log.originals
    ensures SettledOk(Apply(s, e), m)
  {
    if e.Claim? || e.Return? || e.Record? || e.Finish? || e.Crash? { MessageIsKnown(s, e.tag); }
    OthersSettleNothing(s, e, m);
    hide Apply, Enabled, HistoryOk, PublishedOk, DoomedOk, LiveOk, RowOk;
  }

  lemma {:induction false} SettledHolds(start: Time, es: seq<Event>, m: MsgId)
    requires NoOverlapOn(start, es, m)
    ensures SettledOk(Exec(start, es), m)
  {
    if es != [] {
      hide Inv, Excl, RecordsOk, WorkOk, Apply, Enabled, NoOverlapOn;
      var init, e := es[..|es| - 1], es[|es| - 1];
      var s := Exec(start, init);
      NoOverlapPrefix(start, es, |es| - 1, m);
      SettledHolds(start, init, m);
      ExclHolds(start, init, m);
      WorkHolds(start, init, m);
      if Enabled(s, e) {
        if m !in s.log.originals { CreatedStep(s, e, m); }
        else if Unfinished(s, m) { UnfinishedStep(s, e, m); }
        else { SettledStays(s, e, m); }
      }
    }
  }

  lemma {:induction false} BalanceHolds(start: Time, es: seq<Event>, m: MsgId)
    requires NoOverlapOn(start, es, m)
    ensures Balanced(Exec(start, es), m)
  {
    var s := Exec(start, es);
    SettledHolds(start, es, m);
    ExclHolds(start, es, m);
    WorkHolds(start, es, m);
    SoleHolder(s.live, 0, m);
    hide LiveOk, HistoryOk, PublishedOk, DoomedOk, RowOk, RecordsOk;
  }

  /**
   A message is delivered at most once more than its runs crashed, and a `sent` message without
   crashes was delivered exactly once, whatever duplicates and re-enqueues happened, and whatever
   happened to other messages.
   */
  lemma {:induction false} AtLeastOnceIsBounded(start: Time, es: seq<Event>, m: MsgId)
    requires NoOverlapOn(start, es, m)
    ensures var s := Exec(start, es);
            && s.ledger.successes[m] <= 1 + s.ledger.crashes[m]
            && (IsSent(s, m) ==>
                  s.ledger.successes[m] == 1 + s.ledger.lost[m] && s.ledger.lost[m] <= s.ledger.crashes[m])
            && (IsSent(s, m) && s.ledger.crashes[m] == 0 ==> s.ledger.successes[m] == 1)
  {
    BalanceHolds(start, es, m);
  }

  // ----- why a task ends

  /** Only the delivery an event acts on can leave. */
  lemma OnlyActorsLeave(s: State, e: Event, tag: Tag)
    requires Enabled(s, e) && tag in s.live && tag !in Apply(s, e).live
    ensures Actor(e) == Some(tag) && (e.Lose? || e.Claim? || e.Record? || e.Finish? || e.Ack? || e.Crash?)
  {
  }

  /** A claiming run that goes on to its next statement does not leave. */
  lemma RunStays(s: State, e: Event, tag: Tag)
    requires RecordsOk(s) && Enabled(s, e) && (e == Record(tag) || e == Finish(tag)) && RunOk(s.db, s.live[tag])
    ensures tag in Apply(s, e).live
  {
    if e.Record? { RecorderIsOk(s, tag); }
  }

  /**
   A task that ends, other than by a crash or a loss in the broker, leaves its message finished or
   deleted, or stops because another task holds the claim.
   */
  lemma {:induction false} TaskEndsForAReason(start: Time, es: seq<Event>, e: Event, tag: Tag)
    requires !e.Crash? && !e.Lose?
    requires tag in Exec(start, es).live && tag !in Step(Exec(start, es), e).live
    requires NoOverlapOn(start, es, Exec(start, es).live[tag].msg)
    ensures var s := Exec(start, es);
            var d, rows := s.live[tag], Step(s, e).db.rows;
            || Settled(rows, d.msg)
            || (d.msg in rows && rows[d.msg].status.Sending? && rows[d.msg].claimedBy != d.task)
  {
    var s := Exec(start, es);
    ExclHolds(start, es, s.live[tag].msg);
    OnlyActorsLeave(s, e, tag);
    if e.Record? || e.Finish? { RunStays(s, e, tag); }
    assert DeliveryOk(s, s.live[tag]);
    hide Inv, RecordsOk, Excl, LiveOk, RowsOk, HistoryOk, PublishedOk, DoomedOk;
  }

  // ----- one live delivery per task

  lemma RedeliveriesAdd(s: State, e: Event, m: MsgId)
    ensures s.ledger.redelivered[m] <= Step(s, e).ledger.redelivered[m]
  {
  }

  lemma SingleCopiesDoNotOverlap(s: State, e: Event, m: MsgId)
    requires Inv(s) && CopiesOk(s) && s.ledger.redelivered[m] == 0
    ensures !OverlapsOn(s, e, m)
  {
    hide RowsOk, HistoryOk, PublishedOk, DoomedOk;
    if OverlapsOn(s, e, m) {
      var other :| IsRunning(s, other) && s.live[other].task == s.live[e.tag].task;
      LiveTasksAreKnown(s);
      SubsetIsSmaller({e.tag, other}, CopiesOf(s.live, s.live[other].task));
    }
  }

  /** A message whose deliveries are never handed out twice has no overlapping claims. */
  lemma {:induction false} NoRedeliveryMeansNoOverlap(start: Time, es: seq<Event>, m: MsgId)
    requires Exec(start, es).ledger.redelivered[m] == 0
    ensures NoOverlapOn(start, es, m)
  {
    if es != [] {
      hide Inv, CopiesOk, Step, OverlapsOn;
      var init, e := es[..|es| - 1], es[|es| - 1];
      RedeliveriesAdd(Exec(start, init), e, m);
      NoRedeliveryMeansNoOverlap(start, init, m);
      InvHolds(start, init);
      CopiesHold(start, init);
      SingleCopiesDoNotOverlap(Exec(start, init), e, m);
      forall i | 0 <= i < |es| ensures !OverlapsOn(Exec(start, es[..i]), es[i], m) {
        if i < |init| {
          assert init[..i] == es[..i];
          assert !OverlapsOn(Exec(start, init[..i]), init[i], m);
        }
      }
    }
  }
}
