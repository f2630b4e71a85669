/**
 Who may run a message after it was enqueued again: between two stamps of a row one task claims
 it, whichever comes first, and every other task is turned away from then on.
 */
module Succession {
  import opened Options
  import opened Messages
  import opened Protocol
  import opened Ownership

  /** Event `i` of the run is a successful claim of `m` by task `t`. */
  ghost predicate ClaimsAt(start: Time, es: seq<Event>, i: nat, m: MsgId, t: TaskId)
    requires i < |es|
  {
    var s, e := Exec(start, es[..i]), es[i];
    && e.Claim? && IsWaiting(s, e.tag) && s.live[e.tag].msg == m && s.live[e.tag].task == t
    && Decide(s.db.rows, m, t).Claims?
  }

  ghost function StampsOf(s: State, m: MsgId): seq<Time> {
    if m in s.log.stamps then s.log.stamps[m] else []
  }

  /** `m` has not been stamped since the first `i` events. */
  ghost predicate SameStampSince(start: Time, es: seq<Event>, i: nat, m: MsgId)
    requires i <= |es|
  {
    StampsOf(Exec(start, es[..i]), m) == StampsOf(Exec(start, es), m)
  }

  /** Task `t` has claimed the row and it was not put back since. */
  ghost predicate Taken(s: State, m: MsgId, t: TaskId) {
    m in s.log.originals && (m in s.db.rows ==> !s.db.rows[m].status.Queued? && s.db.rows[m].claimedBy == t)
  }

  // ----- one event

  lemma StampsAreKept(s: State, e: Event, m: MsgId)
    requires Enabled(s, e) && !e.Create? && !e.Dispatch?
    ensures StampsOf(Apply(s, e), m) == StampsOf(s, m)
  {
  }

  /** Stamps are only added. */
  lemma StampsGrow(s: State, e: Event, m: MsgId)
    requires s.log.stamps.Keys == s.log.originals.Keys && Enabled(s, e)
    ensures StampsOf(s, m) <= StampsOf(Apply(s, e), m)
  {
    if !e.Create? && !e.Dispatch? { StampsAreKept(s, e, m); }
  }

  lemma OnlyDispatchQueues(s: State, e: Event, m: MsgId)
    requires Enabled(s, e) && m in s.db.rows && m in s.log.originals && m in Apply(s, e).db.rows
    ensures !s.db.rows[m].status.Queued? && Apply(s, e).db.rows[m].status.Queued? ==> e.Dispatch? && m in e.batch
  {
  }

  /** A row goes back to `queued` only with a new stamp. */
  lemma QueueingStamps(s: State, e: Event, m: MsgId)
    requires s.log.stamps.Keys == s.log.originals.Keys && Enabled(s, e)
    requires m in s.db.rows && m in s.log.originals && m in Apply(s, e).db.rows
    ensures !s.db.rows[m].status.Queued? && Apply(s, e).db.rows[m].status.Queued? ==>
              |StampsOf(s, m)| < |StampsOf(Apply(s, e), m)|
  {
    OnlyDispatchQueues(s, e, m);
    if e.Dispatch? && m in e.batch { assert Apply(s, e) == ApplyDispatch(s, e.readAt, e.batch); }
    hide Apply, Enabled;
  }

  lemma TakenStays(s: State, e: Event, m: MsgId, t: TaskId)
    requires Inv(s) && Taken(s, m, t) && StampsOf(Step(s, e), m) == StampsOf(s, m)
    ensures Taken(Step(s, e), m, t)
  {
    hide Apply, Enabled, PublishedOk, DoomedOk, LiveOk, StampsOk, StampsOf, RowOk;
    if Enabled(s, e) {
      RowsStep(s, e);
      if m in s.db.rows && m in Apply(s, e).db.rows { QueueingStamps(s, e, m); }
    }
  }

  lemma ClaimTakes(s: State, tag: Tag)
    requires Inv(s) && Enabled(s, Claim(tag)) && Decide(s.db.rows, s.live[tag].msg, s.live[tag].task).Claims?
    ensures Taken(Step(s, Claim(tag)), s.live[tag].msg, s.live[tag].task)
    ensures StampsOf(Step(s, Claim(tag)), s.live[tag].msg) == StampsOf(s, s.live[tag].msg)
  {
  }

  /** A row leaves `queued`, or changes hands, only by a claim. */
  lemma OnlyClaimsTake(s: State, e: Event, m: MsgId)
    requires Inv(s) && Enabled(s, e) && m in Apply(s, e).db.rows && !Apply(s, e).db.rows[m].status.Queued?
    ensures var owner := Apply(s, e).db.rows[m].claimedBy;
            || (m in s.db.rows && !s.db.rows[m].status.Queued? && s.db.rows[m].claimedBy == owner)
            || (e.Claim? && s.live[e.tag].msg == m && s.live[e.tag].task == owner
                && Decide(s.db.rows, m, owner).Claims?)
  {
    hide Inv;
    if e.Finish? { FinisherLeftQueued(s, e.tag); }
  }

  /** The row a finishing run writes has left `queued`. */
  lemma FinisherLeftQueued(s: State, tag: Tag)
    requires Inv(s) && Enabled(s, Finish(tag))
    ensures s.live[tag].msg in s.db.rows ==> !s.db.rows[s.live[tag].msg].status.Queued?
  {
  }

  /** Only a dispatch pass stamps a row that is there, and it puts it back to `queued`. */
  lemma StampingQueues(s: State, e: Event, m: MsgId)
    requires Enabled(s, e) && m in s.db.rows && m in s.log.originals
    ensures StampsOf(Apply(s, e), m) != StampsOf(s, m) && m in Apply(s, e).db.rows ==>
              Apply(s, e).db.rows[m].status.Queued?
  {
    if !e.Create? && !e.Dispatch? { StampsAreKept(s, e, m); }
  }

  // ----- whole runs

  lemma {:induction false} StampsOnlyGrow(start: Time, es: seq<Event>, i: nat, m: MsgId)
    requires i <= |es|
    ensures StampsOf(Exec(start, es[..i]), m) <= StampsOf(Exec(start, es), m)
    decreases |es|
  {
    hide Apply, Enabled, StampsOf, RowsOk, LiveOk, DoomedOk, PublishedOk, StampsOk;
    if i == |es| {
      assert es[..i] == es;
    } else {
      var init := es[..|es| - 1];
      assert init[..i] == es[..i];
      StampsOnlyGrow(start, init, i, m);
      InvHolds(start, init);
      if Enabled(Exec(start, init), es[|es| - 1]) { StampsGrow(Exec(start, init), es[|es| - 1], m); }
    }
  }

  lemma ExecLast(start: Time, es: seq<Event>)
    requires es != []
    ensures Exec(start, es) == Step(Exec(start, es[..|es| - 1]), es[|es| - 1])
  {
  }

  /** Whether event `i` is a claim depends on the events before it only. */
  lemma ClaimsInPrefix(start: Time, es: seq<Event>, n: nat, i: nat, m: MsgId, t: TaskId)
    requires i < n <= |es|
    ensures es[..n][..i] == es[..i]
    ensures ClaimsAt(start, es[..n], i, m, t) <==> ClaimsAt(start, es, i, m, t)
  {
  }

  /** From a claim on, as long as the row is not stamped again, it stays with the claiming task. */
  lemma {:induction false} TakenSince(start: Time, es: seq<Event>, i: nat, m: MsgId, t: TaskId)
    requires i < |es| && ClaimsAt(start, es, i, m, t) && SameStampSince(start, es, i, m)
    ensures Taken(Exec(start, es), m, t)
    decreases |es|
  {
    hide Exec, Inv, Taken, StampsOf, Step, Decide;
    var init, e := es[..|es| - 1], es[|es| - 1];
    InvHolds(start, init);
    ExecLast(start, es);
    var s := Exec(start, init);
    if i == |es| - 1 {
      ClaimTakes(s, e.tag);
    } else {
      hide ClaimsAt;
      ClaimsInPrefix(start, es, |es| - 1, i, m, t);
      StampsOnlyGrow(start, init, i, m);
      StampsOnlyGrow(start, es, |es| - 1, m);
      TakenSince(start, init, i, m, t);
      TakenStays(s, e, m, t);
    }
  }

  /**
   Between two stamps of a row at most one task id ever claims it, in every run and however often
   the broker redelivers.
   */
  lemma {:induction false} OneTaskPerStamp(start: Time, es: seq<Event>, i: nat, j: nat, m: MsgId, t: TaskId, u: TaskId)
    requires i <= j < |es| && ClaimsAt(start, es, i, m, t) && ClaimsAt(start, es, j, m, u)
    requires SameStampSince(start, es[..j], i, m)
    ensures t == u
  {
    var before := es[..j];
    hide Exec, Taken, StampsOf, Decide;
    if i < j {
      ClaimsInPrefix(start, es, j, i, m, t);
      TakenSince(start, before, i, m, t);
      TakenMeans(Exec(start, before), m, t, u);
    }
  }

  /** A taken row turns every other task away. */
  lemma TakenMeans(s: State, m: MsgId, t: TaskId, u: TaskId)
    requires Taken(s, m, t)
    ensures t != u ==> !Decide(s.db.rows, m, u).Claims?
  {
  }

  lemma RowsComeFromEvents(start: Time, es: seq<Event>, m: MsgId)
    requires m in Exec(start, es).db.rows
    ensures es != []
  {
  }

  /** Some claim since the last stamp was made by the task in `claimed_by`. */
  lemma {:induction false} TakenByAClaim(start: Time, es: seq<Event>, m: MsgId) returns (i: nat)
    requires var s := Exec(start, es); m in s.db.rows && !s.db.rows[m].status.Queued?
    ensures i < |es| && ClaimsAt(start, es, i, m, Exec(start, es).db.rows[m].claimedBy)
    ensures SameStampSince(start, es, i, m)
    decreases |es|
  {
    hide Exec, Inv, StampsOf, Step, Decide;
    RowsComeFromEvents(start, es, m);
    var init, e := es[..|es| - 1], es[|es| - 1];
    var s, owner := Exec(start, init), Exec(start, es).db.rows[m].claimedBy;
    InvHolds(start, init);
    ExecLast(start, es);
    OnlyClaimsTakeInStep(s, e, m);
    if m in s.db.rows && !s.db.rows[m].status.Queued? && s.db.rows[m].claimedBy == owner {
      hide ClaimsAt;
      i := TakenByAClaim(start, init, m);
      ClaimsInPrefix(start, es, |es| - 1, i, m, owner);
    } else {
      i := |es| - 1;
    }
  }

  lemma OnlyClaimsTakeInStep(s: State, e: Event, m: MsgId)
    requires Inv(s) && m in Step(s, e).db.rows && !Step(s, e).db.rows[m].status.Queued?
    ensures var row := Step(s, e).db.rows[m];
            || (m in s.db.rows && !s.db.rows[m].status.Queued? && s.db.rows[m].claimedBy == row.claimedBy)
            || (e.Claim? && IsWaiting(s, e.tag) && s.live[e.tag].msg == m && s.live[e.tag].task == row.claimedBy
                && Decide(s.db.rows, m, row.claimedBy).Claims?)
    ensures StampsOf(Step(s, e), m) == StampsOf(s, m)
  {
    hide Apply, HistoryOk, PublishedOk, DoomedOk, LiveOk, RowOk, StampsOf;
    if Enabled(s, e) {
      OnlyClaimsTake(s, e, m);
      StampingQueues(s, e, m);
    }
  }

  /** Another task than `t` has claimed `m` since its last stamp. */
  ghost predicate ClaimedByAnother(start: Time, es: seq<Event>, m: MsgId, t: TaskId) {
    exists i: nat, u :: i < |es| && u != t && ClaimsAt(start, es, i, m, u) && SameStampSince(start, es, i, m)
  }

  /**
   In every run a delivery is turned away exactly when its message is finished or deleted, or another
   task has claimed it since the last stamp. So the task of an earlier stamp stops as a duplicate
   only once the new one has claimed; until then it may claim, and the new one stops.
   */
  lemma {:induction false} TurnedAwayExactly(start: Time, es: seq<Event>, tag: Tag)
    requires IsWaiting(Exec(start, es), tag)
    ensures var s := Exec(start, es);
            var d := s.live[tag];
            !Decide(s.db.rows, d.msg, d.task).Claims? <==>
              Settled(s.db.rows, d.msg) || ClaimedByAnother(start, es, d.msg, d.task)
  {
    var s := Exec(start, es);
    var d := s.live[tag];
    hide Exec, ClaimsAt, SameStampSince;
    if !Decide(s.db.rows, d.msg, d.task).Claims? && !Settled(s.db.rows, d.msg) {
      var i := TakenByAClaim(start, es, d.msg);
    }
    if ClaimedByAnother(start, es, d.msg, d.task) {
      var i: nat, u :| && i < |es| && u != d.task && ClaimsAt(start, es, i, d.msg, u)
                       && SameStampSince(start, es, i, d.msg);
      TakenSince(start, es, i, d.msg, u);
    }
  }
}
