/**
 Messages for which no claim succeeds while another delivery of the same task is running. The broker
 may redeliver as it likes, as long as the copies for that message run one after the other, and
 whatever happens to other messages.
 For such a message the unlocked writes of a claiming run are as good as locked ones: they act like
 compare-and-set, its final status stays, the attempt insert never fails, and its dead letter matches
 its row. `Overlap` shows that this condition is exact.
 */
module Exclusion {
  import opened Options
  import opened Messages
  import opened Protocol
  import opened Ownership
  import opened Records

  /** The claim succeeds although another delivery of the same task is running. */
  ghost predicate Overlapping(s: State, e: Event) {
    && e.Claim? && IsWaiting(s, e.tag)
    && Decide(s.db.rows, s.live[e.tag].msg, s.live[e.tag].task).Claims?
    && exists other :: IsRunning(s, other) && s.live[other].task == s.live[e.tag].task
  }

  ghost predicate OverlapsOn(s: State, e: Event, m: MsgId) {
    Overlapping(s, e) && s.live[e.tag].msg == m
  }

  /** No claim of message `m` overlaps a run of the same task. */
  ghost predicate NoOverlapOn(start: Time, es: seq<Event>, m: MsgId) {
    forall i :: 0 <= i < |es| ==> !OverlapsOn(Exec(start, es[..i]), es[i], m)
  }

  ghost predicate NoOverlap(start: Time, es: seq<Event>) {
    forall m :: NoOverlapOn(start, es, m)
  }

  lemma NoOverlapPrefix(start: Time, es: seq<Event>, k: nat, m: MsgId)
    requires k <= |es| && NoOverlapOn(start, es, m)
    ensures NoOverlapOn(start, es[..k], m)
  {
    hide Exec, OverlapsOn;
    forall i | 0 <= i < k ensures !OverlapsOn(Exec(start, es[..k][..i]), es[..k][i], m) {
      assert es[..k][..i] == es[..i];
      assert !OverlapsOn(Exec(start, es[..i]), es[i], m);
    }
  }

  ghost predicate OneRunning(live: map<Tag, Delivery>, m: MsgId) {
    forall a, b :: RunsFor(live, a, m) && RunsFor(live, b, m) ==> a == b
  }

  /** What a claiming run can rely on although it holds no lock. */
  ghost predicate RunOk(db: Db, d: Delivery) {
    d.phase.Running? ==>
      && d.msg in db.rows && db.rows[d.msg].status.Sending?
      && match d.phase.progress
         case Numbered(_, number) => number == |AttemptsOf(db, d.msg)| + 1
         case Recorded(result) =>
           AttemptsOf(db, d.msg) != [] && LastResult(AttemptsOf(db, d.msg)) == MapResult(result)
         case _ => true
  }

  function LastResult(attempts: seq<Attempt>): AttemptResult
    requires attempts != []
  {
    attempts[|attempts| - 1].result
  }

  /** The last attempt that belongs to a final status. */
  ghost predicate Agrees(status: Status, attempts: seq<Attempt>) {
    Terminal(status) ==>
      && attempts != []
      && LastResult(attempts) ==
         match status { case Sent => Success case Failed => PermanentError case _ => TransientError }
  }

  /** One message across the three tables. */
  ghost predicate MessageOk(db: Db, m: MsgId) {
    m in db.rows ==>
      && Agrees(db.rows[m].status, AttemptsOf(db, m))
      && (m in db.letters <==> db.rows[m].status.Failed? || db.rows[m].status.Dead?)
  }

  ghost predicate RunsOk(s: State, m: MsgId) {
    forall tag :: tag in s.live && s.live[tag].msg == m ==> RunOk(s.db, s.live[tag])
  }

  ghost predicate Excl(s: State, m: MsgId) {
    OneRunning(s.live, m) && RunsOk(s, m) && MessageOk(s.db, m)
  }

  // ----- one run per message

  /** Only a claim starts a run. */
  lemma RunsStartByClaim(s: State, e: Event, m: MsgId)
    requires Enabled(s, e)
    ensures forall tag :: RunsFor(Apply(s, e).live, tag, m) && e != Claim(tag) ==> RunsFor(s.live, tag, m)
  {
  }

  lemma ClaimStartsARun(s: State, tag: Tag, m: MsgId)
    requires Enabled(s, Claim(tag)) && RunsFor(ApplyClaim(s, tag).live, tag, m)
    ensures s.live[tag].msg == m && Decide(s.db.rows, m, s.live[tag].task).Claims?
  {
  }

  /** No delivery can claim the row of a claiming run, unless it is a copy of that run's own task. */
  lemma ClaimLosesToRun(s: State, m: MsgId, tag: Tag, other: Tag)
    requires LiveOk(s) && RunsOk(s, m) && RunsFor(s.live, tag, m)
    requires IsWaiting(s, other) && s.live[other].msg == m && !OverlapsOn(s, Claim(other), m)
    ensures !Decide(s.db.rows, m, s.live[other].task).Claims?
  {
    assert DeliveryOk(s, s.live[tag]) && RunOk(s.db, s.live[tag]);
  }

  lemma OneRunningStep(s: State, e: Event, m: MsgId)
    requires LiveOk(s) && Excl(s, m) && Enabled(s, e) && !OverlapsOn(s, e, m)
    ensures OneRunning(Apply(s, e).live, m)
  {
    var t := Apply(s, e);
    RunsStartByClaim(s, e, m);
    if e.Claim? && RunsFor(t.live, e.tag, m) {
      ClaimStartsARun(s, e.tag, m);
      hide Apply, LiveOk, RunsOk, MessageOk, OverlapsOn;
      forall tag ensures !RunsFor(s.live, tag, m) {
        if RunsFor(s.live, tag, m) { ClaimLosesToRun(s, m, tag, e.tag); }
      }
    }
    hide Apply, Enabled, LiveOk, RunsOk, MessageOk, OverlapsOn;
  }

  // ----- claiming runs are not disturbed

  /** One message has the same row and attempts before and after. */
  ghost predicate SameRecords(db: Db, db': Db, m: MsgId) {
    && (m in db.rows <==> m in db'.rows) && (m in db.rows ==> db'.rows[m] == db.rows[m])
    && AttemptsOf(db', m) == AttemptsOf(db, m)
  }

  /** The events that write the records of `m`. */
  predicate Writes(s: State, e: Event, m: MsgId)
    requires Enabled(s, e)
  {
    match e
    case Create(k, _, _, _) => k == m
    case Claim(tag) => s.live[tag].msg == m && Decide(s.db.rows, m, s.live[tag].task).Claims?
    case Record(tag) => s.live[tag].msg == m
    case Finish(tag) => s.live[tag].msg == m
    case Dispatch(_, batch) => m in batch
    case CleanupDelete(ids) => m in ids
    case _ => false
  }

  lemma OnlyWritersWrite(s: State, e: Event, m: MsgId)
    requires Enabled(s, e) && !Writes(s, e, m)
    ensures SameRecords(s.db, Apply(s, e).db, m)
  {
  }

  lemma Undisturbed(s: State, e: Event, tag: Tag, m: MsgId)
    requires Inv(s) && Excl(s, m) && Enabled(s, e) && !OverlapsOn(s, e, m)
    requires RunsFor(s.live, tag, m) && Actor(e) != Some(tag)
    ensures SameRecords(s.db, Apply(s, e).db, m)
  {
    hide Apply, OverlapsOn;
    assert DeliveryOk(s, s.live[tag]) && RunOk(s.db, s.live[tag]);
    assert e.Record? || e.Finish? ==> !RunsFor(s.live, e.tag, m);
    if Writes(s, e, m) {
      if e.Claim? { ClaimLosesToRun(s, m, tag, e.tag); }
      if e.Dispatch? { RunningIsNotSelected(s, tag, e.readAt); }
    }
    OnlyWritersWrite(s, e, m);
  }

  lemma RunFrame(db: Db, db': Db, d: Delivery)
    requires RunOk(db, d) && SameRecords(db, db', d.msg)
    ensures RunOk(db', d)
  {
  }

  /** The numbers in use are 1..n, so number n + 1 is free. */
  lemma NextNumberIsFree(s: State, tag: Tag)
    requires RecordsOk(s) && Enabled(s, Record(tag)) && RunOk(s.db, s.live[tag])
    ensures !InsertFails(s.db, s.live[tag].msg, s.live[tag].phase.progress.number)
  {
  }

  lemma RecorderIsOk(s: State, tag: Tag)
    requires RecordsOk(s) && Enabled(s, Record(tag)) && RunOk(s.db, s.live[tag])
    ensures var t, d := ApplyRecord(s, tag), s.live[tag];
            && t.db == WithAttempt(s.db, d.msg, d.phase.progress.number, d.phase.progress.result)
            && tag in t.live && RunOk(t.db, t.live[tag])
  {
    NextNumberIsFree(s, tag);
  }

  lemma ActorRunsOk(s: State, e: Event, m: MsgId)
    requires RecordsOk(s) && RunsOk(s, m) && Enabled(s, e) && Actor(e).Some?
    ensures var t, tag := Apply(s, e), Actor(e).value;
            tag in t.live && t.live[tag].msg == m ==> RunOk(t.db, t.live[tag])
  {
    hide RecordsOk;
    if !e.Publish? && s.live[e.tag].msg == m {
      assert RunOk(s.db, s.live[e.tag]);
      if e.Record? { RecorderIsOk(s, e.tag); }
    }
  }

  lemma RunsStep(s: State, e: Event, m: MsgId)
    requires Inv(s) && RecordsOk(s) && Excl(s, m) && Enabled(s, e) && !OverlapsOn(s, e, m)
    ensures RunsOk(Apply(s, e), m)
  {
    hide Inv, RecordsOk, Apply, Enabled, OverlapsOn, MessageOk, OneRunning;
    var t := Apply(s, e);
    OthersUntouched(s, e);
    if Actor(e).Some? { ActorRunsOk(s, e, m); }
    forall tag | tag in t.live && t.live[tag].msg == m && Some(tag) != Actor(e) ensures RunOk(t.db, t.live[tag]) {
      assert RunOk(s.db, s.live[tag]);
      if RunsFor(s.live, tag, m) {
        Undisturbed(s, e, tag, m);
        RunFrame(s.db, t.db, s.live[tag]);
      }
    }
  }

  // ----- the tables

  /** No letter comes or goes, and a final row stays as it is, with its attempts. */
  ghost predicate TablesMove(db: Db, db': Db, m: MsgId) {
    m in db'.rows ==>
      if m in db.rows then
        && (m in db'.letters <==> m in db.letters)
        && (db'.rows[m].status == db.rows[m].status
            || (!Terminal(db.rows[m].status) && !Terminal(db'.rows[m].status)))
        && (AttemptsOf(db', m) == AttemptsOf(db, m) || !Terminal(db.rows[m].status))
      else db'.rows[m].status.Queued? && m !in db'.letters
  }

  lemma TablesFrame(db: Db, db': Db, m: MsgId)
    requires MessageOk(db, m) && TablesMove(db, db', m)
    ensures MessageOk(db', m)
  {
  }

  /** Every event but a final write of `m`; an attempt is added only while the row is `sending`. */
  lemma OthersMoveTables(s: State, e: Event, m: MsgId)
    requires s.db.rows.Keys <= s.log.originals.Keys && s.db.letters.Keys <= s.db.rows.Keys
    requires Enabled(s, e) && !(e.Finish? && s.live[e.tag].msg == m)
    requires e.Record? && s.live[e.tag].msg == m ==> RunOk(s.db, s.live[e.tag])
    ensures TablesMove(s.db, Apply(s, e).db, m)
  {
    hide InsertFails;
  }

  /** The final write of a claiming run leaves the three tables in agreement. */
  lemma FinishAgrees(s: State, tag: Tag)
    requires Enabled(s, Finish(tag)) && RunOk(s.db, s.live[tag]) && MessageOk(s.db, s.live[tag].msg)
    ensures MessageOk(ApplyFinish(s, tag).db, s.live[tag].msg)
  {
  }

  lemma TablesStep(s: State, e: Event, m: MsgId)
    requires RowsOk(s) && RecordsOk(s) && Excl(s, m) && Enabled(s, e)
    ensures MessageOk(Apply(s, e).db, m)
  {
    hide MessageOk, TablesMove, OneRunning, RowOk, RunOk;
    if e.Finish? && s.live[e.tag].msg == m {
      FinishAgrees(s, e.tag);
    } else {
      OthersMoveTables(s, e, m);
      TablesFrame(s.db, Apply(s, e).db, m);
    }
  }

  // ----- over runs

  lemma ExclStep(s: State, e: Event, m: MsgId)
    requires Inv(s) && RecordsOk(s) && Excl(s, m) && !OverlapsOn(s, e, m)
    ensures Excl(Step(s, e), m)
  {
    hide Apply, Inv, RecordsOk, MessageOk, RunsOk, OneRunning, Enabled, OverlapsOn;
    if Enabled(s, e) {
      InvParts(s);
      OneRunningStep(s, e, m);
      RunsStep(s, e, m);
      TablesStep(s, e, m);
    }
  }

  lemma {:induction false} ExclHolds(start: Time, es: seq<Event>, m: MsgId)
    requires NoOverlapOn(start, es, m)
    ensures Inv(Exec(start, es)) && RecordsOk(Exec(start, es)) && Excl(Exec(start, es), m)
  {
    hide Inv, RecordsOk, Step, OverlapsOn;
    InvHolds(start, es);
    RecordsHold(start, es);
    if es != [] {
      hide Excl;
      NoOverlapPrefix(start, es, |es| - 1, m);
      ExclHolds(start, es[..|es| - 1], m);
      ExclStep(Exec(start, es[..|es| - 1]), es[|es| - 1], m);
    }
  }

  // ----- the unlocked writes refine guarded ones

  predicate HoldsClaim(s: State, d: Delivery) {
    d.msg in s.db.rows && s.db.rows[d.msg].status.Sending? && s.db.rows[d.msg].claimedBy == d.task
  }

  /** Count and insert in one step, only while the claim holds; the number cannot be taken. */
  function GuardedRecord(s: State, tag: Tag): State
    requires Enabled(s, Record(tag))
  {
    var d := s.live[tag];
    if HoldsClaim(s, d) then
      s.(db := WithAttempt(s.db, d.msg, |AttemptsOf(s.db, d.msg)| + 1, d.phase.progress.result),
         live := s.live[tag := Advanced(d, Recorded(d.phase.progress.result))])
    else s.(live := s.live - {tag})
  }

  /** The final write as compare-and-set on (sending, owner): it is dropped if the claim is gone. */
  function GuardedFinish(s: State, tag: Tag): State
    requires Enabled(s, Finish(tag))
  {
    var d := s.live[tag];
    match Verdict(d.phase.progress.result, d.retries)
    case None => Retry(s, tag)
    case Some(status) => if HoldsClaim(s, d) then Conclude(s, tag, status) else s.(live := s.live - {tag})
  }

  function GuardedStep(s: State, e: Event): State {
    if !Enabled(s, e) then s
    else match e
      case Record(tag) => GuardedRecord(s, tag)
      case Finish(tag) => GuardedFinish(s, tag)
      case _ => Apply(s, e)
  }

  function GuardedExec(start: Time, es: seq<Event>): State {
    if es == [] then Init(start) else GuardedStep(GuardedExec(start, es[..|es| - 1]), es[|es| - 1])
  }

  lemma ClaimIsHeld(s: State, tag: Tag)
    requires LiveOk(s) && IsRunning(s, tag) && RunOk(s.db, s.live[tag])
    ensures HoldsClaim(s, s.live[tag])
  {
  }

  lemma RecordIsGuarded(s: State, tag: Tag)
    requires Inv(s) && RecordsOk(s) && Enabled(s, Record(tag)) && Excl(s, s.live[tag].msg)
    ensures ApplyRecord(s, tag) == GuardedRecord(s, tag)
  {
    hide HistoryOk, PublishedOk, DoomedOk, RowsOk, MessageOk;
    assert RunOk(s.db, s.live[tag]);
    ClaimIsHeld(s, tag);
    NextNumberIsFree(s, tag);
  }

  lemma FinishIsGuarded(s: State, tag: Tag)
    requires Inv(s) && Enabled(s, Finish(tag)) && Excl(s, s.live[tag].msg)
    ensures ApplyFinish(s, tag) == GuardedFinish(s, tag)
  {
    hide HistoryOk, PublishedOk, DoomedOk, RowsOk, MessageOk;
    assert RunOk(s.db, s.live[tag]);
    ClaimIsHeld(s, tag);
  }

  /** Whole runs: the code as written and the machine with guarded writes go through the same states. */
  lemma {:induction false} UnlockedWritesAreGuarded(start: Time, es: seq<Event>)
    requires NoOverlap(start, es)
    ensures Exec(start, es) == GuardedExec(start, es)
  {
    if es != [] {
      hide Inv, Excl, RecordsOk, NoOverlapOn;
      var init := es[..|es| - 1];
      var s, e := Exec(start, init), es[|es| - 1];
      forall m ensures NoOverlapOn(start, init, m) { NoOverlapPrefix(start, es, |es| - 1, m); }
      UnlockedWritesAreGuarded(start, init);
      if Enabled(s, e) && (e.Record? || e.Finish?) {
        ExclHolds(start, init, s.live[e.tag].msg);
        if e.Record? { RecordIsGuarded(s, e.tag); } else { FinishIsGuarded(s, e.tag); }
      }
    }
  }

  // ----- final means final

  lemma FinalIsNotWritten(s: State, e: Event, m: MsgId)
    requires Inv(s) && Excl(s, m) && Enabled(s, e) && m in s.db.rows && Terminal(s.db.rows[m].status)
    ensures Writes(s, e, m) ==> e.CleanupDelete?
  {
  }

  lemma FinalStep(s: State, e: Event, m: MsgId)
    requires Inv(s) && Excl(s, m) && Enabled(s, e) && m in s.db.rows && Terminal(s.db.rows[m].status)
    ensures m in Apply(s, e).db.rows ==>
              Apply(s, e).db.rows[m] == s.db.rows[m] && AttemptsOf(Apply(s, e).db, m) == AttemptsOf(s.db, m)
  {
    hide Inv, Excl;
    FinalIsNotWritten(s, e, m);
    if !Writes(s, e, m) { OnlyWritersWrite(s, e, m); }
  }

  /** Deleted ids are not used again. */
  lemma KeptStep(s: State, e: Event, m: MsgId)
    requires Inv(s) && Excl(s, m) && m in s.log.originals && Settled(s.db.rows, m)
    ensures var t := Step(s, e);
            && m in t.log.originals
            && (m in t.db.rows ==>
                  m in s.db.rows && t.db.rows[m] == s.db.rows[m] && AttemptsOf(t.db, m) == AttemptsOf(s.db, m))
  {
    hide Apply, Enabled, Excl;
    if Enabled(s, e) {
      RowsStep(s, e);
      if m in s.db.rows { FinalStep(s, e, m); }
    }
  }

  /** Once a message is sent, failed or dead, no later event changes its row or its attempts. */
  lemma {:induction false} FinalStatusIsKept(start: Time, es: seq<Event>, k: nat, m: MsgId)
    requires NoOverlapOn(start, es, m) && k <= |es|
    requires var s := Exec(start, es[..k]); m in s.db.rows && Terminal(s.db.rows[m].status)
    ensures var s, t := Exec(start, es[..k]), Exec(start, es);
            && m in t.log.originals
            && (m in t.db.rows ==> t.db.rows[m] == s.db.rows[m] && AttemptsOf(t.db, m) == AttemptsOf(s.db, m))
    decreases |es|
  {
    hide Step, Excl, RecordsOk, LiveOk, DoomedOk, HistoryOk, PublishedOk, RowOk, NoOverlapOn;
    InvHolds(start, es[..k]);
    if k == |es| {
      assert es[..k] == es;
    } else {
      var init, e := es[..|es| - 1], es[|es| - 1];
      assert init[..k] == es[..k];
      NoOverlapPrefix(start, es, |es| - 1, m);
      FinalStatusIsKept(start, init, k, m);
      ExclHolds(start, init, m);
      KeptStep(Exec(start, init), e, m);
    }
  }

  /**
   The insert of an attempt never hits the unique constraint, although its number was read without a
   lock, and a final status agrees with the last attempt.
   */
  lemma {:induction false} InsertsNeverFail(start: Time, es: seq<Event>, m: MsgId, tag: Tag)
    requires NoOverlapOn(start, es, m)
    ensures var s := Exec(start, es); m in s.db.rows ==> Agrees(s.db.rows[m].status, AttemptsOf(s.db, m))
    ensures var s := Exec(start, es);
            RunsFor(s.live, tag, m) && s.live[tag].phase.progress.Numbered? ==>
              !InsertFails(s.db, m, s.live[tag].phase.progress.number)
  {
    ExclHolds(start, es, m);
    var s := Exec(start, es);
    if RunsFor(s.live, tag, m) && s.live[tag].phase.progress.Numbered? { NextNumberIsFree(s, tag); }
  }

  /** A message has a dead letter exactly when it failed or died. */
  lemma {:induction false} DeadLettersMatch(start: Time, es: seq<Event>, m: MsgId)
    requires NoOverlapOn(start, es, m)
    ensures var s := Exec(start, es);
            m in s.db.letters <==> m in s.db.rows && (s.db.rows[m].status.Failed? || s.db.rows[m].status.Dead?)
  {
    ExclHolds(start, es, m);
  }
}
