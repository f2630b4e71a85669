/**
 The condition of `Exclusion` is exact, message by message: as soon as a claim overlaps a run of the
 same task, the two runs can go on, with no further help from the broker, until the final status of
 their message is overwritten.
 */
module Overlap {
  import opened Options
  import opened Messages
  import opened Protocol
  import opened Ownership
  import opened Records
  import opened Exclusion

  /** A statement of a task body, as opposed to something the broker, the clock or a job does. */
  predicate WorkerStep(e: Event) {
    e.Claim? || e.Return? || e.Number? || e.Record? || e.Finish?
  }

  /** `es` goes on from `before` by statements of task bodies alone. */
  ghost predicate Continues(before: seq<Event>, es: seq<Event>) {
    before <= es && forall i :: |before| <= i < |es| ==> WorkerStep(es[i])
  }

  ghost predicate OverwrittenSince(start: Time, es: seq<Event>, k: nat, m: MsgId)
    requires k <= |es|
  {
    var s, t := Exec(start, es[..k]), Exec(start, es);
    && m in s.db.rows && Terminal(s.db.rows[m].status)
    && m in t.db.rows && t.db.rows[m].status != s.db.rows[m].status
  }

  /** Message `m` had reached a final status and has another status at the end. */
  ghost predicate Overwrites(start: Time, es: seq<Event>, m: MsgId) {
    exists k: nat :: k <= |es| && OverwrittenSince(start, es, k, m)
  }

  lemma ExecSnoc(start: Time, es: seq<Event>, e: Event)
    ensures Exec(start, es + [e]) == Step(Exec(start, es), e)
  {
  }

  // ----- one run goes on to its final write

  /** How many statements a claiming run is from its final write. */
  function StepsLeft(p: Progress): nat {
    match p
    case Claimed => 3
    case Answered(_) => 2
    case Numbered(_, _) => 1
    case Recorded(_) => 0
  }

  /** The run can get to its final write with this result. */
  ghost predicate CanRecord(s: State, tag: Tag, result: ChannelResult) {
    && IsRunning(s, tag) && s.live[tag].msg in s.db.rows
    && match s.live[tag].phase.progress
       case Claimed => true
       case Answered(r) => r == result
       case Numbered(r, number) => r == result && !InsertFails(s.db, s.live[tag].msg, number)
       case Recorded(r) => r == result
  }

  function NextStatement(p: Progress, tag: Tag, result: ChannelResult): Event
    requires !p.Recorded?
  {
    match p
    case Claimed => Return(tag, Returns(result))
    case Answered(_) => Number(tag)
    case Numbered(_, _) => Record(tag)
  }

  /** Each statement brings the run forward and touches no row and no other delivery. */
  lemma NextStatementWorks(s: State, tag: Tag, result: ChannelResult)
    requires RecordsOk(s) && CanRecord(s, tag, result) && !s.live[tag].phase.progress.Recorded?
    ensures var e := NextStatement(s.live[tag].phase.progress, tag, result);
            var t := Step(s, e);
            && WorkerStep(e) && CanRecord(t, tag, result)
            && StepsLeft(t.live[tag].phase.progress) < StepsLeft(s.live[tag].phase.progress)
            && t.db.rows == s.db.rows && t.live == s.live[tag := Advanced(s.live[tag], t.live[tag].phase.progress)]
            && t.ledger.completed == s.ledger.completed && t.ledger.recopied == s.ledger.recopied
  {
  }

  lemma {:induction false} ReachesFinalWrite(start: Time, before: seq<Event>, tag: Tag, result: ChannelResult)
    returns (es: seq<Event>)
    requires CanRecord(Exec(start, before), tag, result)
    ensures Continues(before, es)
    ensures var s, t := Exec(start, before), Exec(start, es);
            && t.db.rows == s.db.rows && t.live == s.live[tag := Advanced(s.live[tag], Recorded(result))]
            && t.ledger.completed == s.ledger.completed && t.ledger.recopied == s.ledger.recopied
    decreases StepsLeft(Exec(start, before).live[tag].phase.progress)
  {
    var s := Exec(start, before);
    if s.live[tag].phase.progress.Recorded? {
      es := before;
    } else {
      var e := NextStatement(s.live[tag].phase.progress, tag, result);
      RecordsHold(start, before);
      ExecSnoc(start, before, e);
      NextStatementWorks(s, tag, result);
      hide RecordsOk, Step, Exec, CanRecord;
      es := ReachesFinalWrite(start, before + [e], tag, result);
    }
  }

  ghost predicate OneMoreTry(s: State, t: State, task: TaskId) {
    t.ledger.completed == s.ledger.completed + multiset{task} && t.ledger.recopied == s.ledger.recopied
  }

  /** The run ends with `status` in the row of its message; the other deliveries stay as they are. */
  ghost predicate Concludes(s: State, t: State, tag: Tag, status: Status)
    requires tag in s.live
  {
    var m := s.live[tag].msg;
    && m in t.db.rows && t.db.rows[m].status == status
    && forall other :: other in s.live && other != tag ==> other in t.live && t.live[other] == s.live[other]
  }

  lemma RunConcludes(start: Time, before: seq<Event>, tag: Tag, result: ChannelResult, status: Status)
    returns (es: seq<Event>)
    requires CanRecord(Exec(start, before), tag, result)
    requires Verdict(result, Exec(start, before).live[tag].retries) == Some(status)
    ensures Continues(before, es) && Concludes(Exec(start, before), Exec(start, es), tag, status)
    ensures OneMoreTry(Exec(start, before), Exec(start, es), Exec(start, before).live[tag].task)
  {
    var at := ReachesFinalWrite(start, before, tag, result);
    ExecSnoc(start, at, Finish(tag));
    es := at + [Finish(tag)];
  }

  /** A run that asks for a retry can claim again at once, the row being its own. */
  lemma RunRetries(start: Time, before: seq<Event>, tag: Tag, result: ChannelResult)
    returns (es: seq<Event>)
    requires CanRecord(Exec(start, before), tag, result)
    requires HoldsClaim(Exec(start, before), Exec(start, before).live[tag])
    requires Verdict(result, Exec(start, before).live[tag].retries) == None
    ensures Continues(before, es)
    ensures var s, t := Exec(start, before), Exec(start, es);
            && IsRunning(t, tag) && t.live[tag].phase.progress.Claimed?
            && t.live[tag] == s.live[tag].(retries := s.live[tag].retries + 1, phase := t.live[tag].phase)
            && HoldsClaim(t, t.live[tag]) && OneMoreTry(s, t, s.live[tag].task)
            && forall other :: other in s.live && other != tag ==> other in t.live && t.live[other] == s.live[other]
  {
    var at := ReachesFinalWrite(start, before, tag, result);
    ExecSnoc(start, at, Finish(tag));
    var waiting := at + [Finish(tag)];
    assert Exec(start, waiting) == Retry(Exec(start, at), tag);
    ExecSnoc(start, waiting, Claim(tag));
    es := waiting + [Claim(tag)];
    assert Exec(start, es) == ApplyClaim(Exec(start, waiting), tag);
  }

  const SUCCESS := ChannelResult(true, false, "")
  const REFUSAL := ChannelResult(false, false, "")

  /** The run read an attempt number that has been taken since: its insert fails and it dies. */
  ghost predicate Stale(s: State, tag: Tag)
    requires IsRunning(s, tag)
  {
    var p := s.live[tag].phase.progress;
    p.Numbered? && InsertFails(s.db, s.live[tag].msg, p.number)
  }

  /** Any other run that holds its claim can bring its message to a final status. */
  lemma AnyRunConcludes(start: Time, before: seq<Event>, tag: Tag) returns (es: seq<Event>, status: Status)
    requires var s := Exec(start, before);
             IsRunning(s, tag) && HoldsClaim(s, s.live[tag]) && !Stale(s, tag)
    ensures Continues(before, es) && Terminal(status)
    ensures Concludes(Exec(start, before), Exec(start, es), tag, status)
  {
    var s := Exec(start, before);
    var d := s.live[tag];
    RecordsHold(start, before);
    hide Exec, Step;
    if d.phase.progress.Claimed? {
      status := Sent;
      es := RunConcludes(start, before, tag, SUCCESS, status);
    } else {
      var result := d.phase.progress.result;
      assert CanRecord(s, tag, result);
      hide RecordsOk;
      if Verdict(result, d.retries).Some? {
        status := Verdict(result, d.retries).value;
        es := RunConcludes(start, before, tag, result, status);
      } else {
        status := Sent;
        var again := RunRetries(start, before, tag, result);
        es := RunConcludes(start, again, tag, SUCCESS, status);
      }
    }
  }

  // ----- two runs of one task

  /** A fresh run and another claiming run of the same message. */
  ghost predicate TwoRuns(s: State, tag: Tag, other: Tag) {
    && other != tag && IsRunning(s, tag) && s.live[tag].phase.progress.Claimed?
    && IsRunning(s, other) && s.live[other].msg == s.live[tag].msg
    && HoldsClaim(s, s.live[other]) && !Stale(s, other)
  }

  /** An overlapping claim starts a second run and leaves the first one as it was. */
  lemma OverlapMakesTwo(s: State, tag: Tag, other: Tag)
    requires Inv(s) && Overlapping(s, Claim(tag))
    requires IsRunning(s, other) && s.live[other].task == s.live[tag].task && !Stale(s, other)
    ensures TwoRuns(Step(s, Claim(tag)), tag, other)
  {
  }

  /** The other run brings the message to a final status, and the fresh one to a different one. */
  lemma TwoRunsOverwrite(start: Time, before: seq<Event>, tag: Tag, other: Tag) returns (es: seq<Event>)
    requires TwoRuns(Exec(start, before), tag, other)
    ensures Continues(before, es) && Overwrites(start, es, Exec(start, before).live[tag].msg)
  {
    hide Exec, Stale, HoldsClaim;
    var m := Exec(start, before).live[tag].msg;
    var first, status := AnyRunConcludes(start, before, other);
    var result := if status.Sent? then REFUSAL else SUCCESS;
    es := RunConcludes(start, first, tag, result, if status.Sent? then Failed else Sent);
    assert es[..|first|] == first;
    assert OverwrittenSince(start, es, |first|, m);
  }

  /**
   After an overlapping claim in any run, the run that was there brings the message to a final
   status, and the new one, which may still answer anything, to another. Only a run with a stale
   attempt number cannot, and there is none before the first overlap on that message.
   */
  lemma {:induction false} OverlapOverwrites(start: Time, before: seq<Event>, tag: Tag, other: Tag)
    returns (es: seq<Event>)
    requires var s := Exec(start, before);
             && Overlapping(s, Claim(tag))
             && IsRunning(s, other) && s.live[other].task == s.live[tag].task
             && (NoOverlapOn(start, before, s.live[tag].msg) || !Stale(s, other))
    ensures Continues(before, es) && Overwrites(start, es, Exec(start, before).live[tag].msg)
  {
    hide Exec, Inv, Step, NoOverlapOn, Overwrites, Excl, RecordsOk, Stale;
    var s := Exec(start, before);
    InvHolds(start, before);
    SameMessage(s, tag, other);
    if NoOverlapOn(start, before, s.live[tag].msg) {
      ExclHolds(start, before, s.live[tag].msg);
      NeverStale(s, other);
    }
    OverlapMakesTwo(s, tag, other);
    ClaimKeepsMessage(s, tag);
    ExecSnoc(start, before, Claim(tag));
    es := TwoRunsOverwrite(start, before + [Claim(tag)], tag, other);
  }

  lemma SameMessage(s: State, a: Tag, b: Tag)
    requires Inv(s) && a in s.live && b in s.live && s.live[a].task == s.live[b].task
    ensures s.live[a].msg == s.live[b].msg
  {
    assert DeliveryOk(s, s.live[a]) && DeliveryOk(s, s.live[b]);
  }

  lemma ClaimKeepsMessage(s: State, tag: Tag)
    requires IsWaiting(s, tag)
    ensures tag in Step(s, Claim(tag)).live ==> Step(s, Claim(tag)).live[tag].msg == s.live[tag].msg
  {
  }

  lemma NeverStale(s: State, tag: Tag)
    requires RecordsOk(s) && IsRunning(s, tag) && Excl(s, s.live[tag].msg)
    ensures !Stale(s, tag)
  {
    if s.live[tag].phase.progress.Numbered? { NextNumberIsFree(s, tag); }
  }

  /** Without an overlapping claim the final status is not overwritten. */
  lemma {:induction false} NoOverlapKeeps(start: Time, es: seq<Event>, m: MsgId)
    requires NoOverlapOn(start, es, m)
    ensures !Overwrites(start, es, m)
  {
    hide Exec, NoOverlapOn;
    forall k: nat | k <= |es| ensures !OverwrittenSince(start, es, k, m) {
      if OverwrittenSince(start, es, k, m) { FinalStatusIsKept(start, es, k, m); }
    }
  }

  // ----- the exact condition

  /** A set of possible runs that leaves the workers free: they may always go on, or stop anywhere. */
  ghost predicate WorkersAreFree(runs: iset<seq<Event>>) {
    && (forall es, k :: es in runs && 0 <= k <= |es| ==> es[..k] in runs)
    && (forall es, e :: es in runs && WorkerStep(e) ==> es + [e] in runs)
  }

  lemma {:induction false} ContinuationsAreRuns(runs: iset<seq<Event>>, before: seq<Event>, es: seq<Event>)
    requires WorkersAreFree(runs) && before in runs && Continues(before, es)
    ensures es in runs
    decreases |es|
  {
    if |es| > |before| {
      var init := es[..|es| - 1];
      ContinuationsAreRuns(runs, before, init);
      assert es == init + [es[|es| - 1]];
    } else {
      assert es == before;
    }
  }

  /** The first overlapping claim of a message that has one. */
  lemma {:induction false} FirstOverlap(start: Time, es: seq<Event>, m: MsgId) returns (k: nat)
    requires !NoOverlapOn(start, es, m)
    ensures k < |es| && NoOverlapOn(start, es[..k], m) && OverlapsOn(Exec(start, es[..k]), es[k], m)
    decreases |es|
  {
    hide Exec, OverlapsOn;
    var i :| 0 <= i < |es| && OverlapsOn(Exec(start, es[..i]), es[i], m);
    if NoOverlapOn(start, es[..i], m) {
      k := i;
    } else {
      k := FirstOverlap(start, es[..i], m);
      assert es[..i][..k] == es[..k];
    }
  }

  /**
   Whatever broker, clock and jobs allow, as long as workers are free, and for each message on its
   own: its final status is kept in all runs if and only if no run has a claim of that message that
   overlaps a run of the same task.
   */
  lemma {:induction false} FinalStatusIsKeptExactly(start: Time, runs: iset<seq<Event>>, m: MsgId)
    requires WorkersAreFree(runs)
    ensures (forall es :: es in runs ==> !Overwrites(start, es, m))
            <==> (forall es :: es in runs ==> NoOverlapOn(start, es, m))
  {
    hide Exec, NoOverlapOn, Overwrites, Continues, WorkersAreFree;
    forall es | es in runs && NoOverlapOn(start, es, m) ensures !Overwrites(start, es, m) {
      NoOverlapKeeps(start, es, m);
    }
    forall es | es in runs && !NoOverlapOn(start, es, m)
      ensures exists bad :: bad in runs && Overwrites(start, bad, m)
    {
      OverlapInRuns(start, runs, es, m);
    }
  }

  lemma OverlapInRuns(start: Time, runs: iset<seq<Event>>, es: seq<Event>, m: MsgId)
    requires WorkersAreFree(runs) && es in runs && !NoOverlapOn(start, es, m)
    ensures exists bad :: bad in runs && Overwrites(start, bad, m)
  {
    hide Exec, NoOverlapOn, Overwrites, Continues;
    var k := FirstOverlap(start, es, m);
    var before := es[..k];
    var s := Exec(start, before);
    var other :| IsRunning(s, other) && s.live[other].task == s.live[es[k].tag].task;
    var bad := OverlapOverwrites(start, before, es[k].tag, other);
    ContinuationsAreRuns(runs, before, bad);
  }
}
