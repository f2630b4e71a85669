/** Concrete runs that show where a promise ends: each is an input for which it fails. */
module Witnesses {
  import opened Options
  import opened Messages
  import opened Protocol
  import opened Ownership
  import opened Exclusion
  import opened Overlap
  import opened Succession

  const MSG: MsgId := "m"
  const BODY := Content("email", "a@example.com", "s", "b", "{}", "default")

  /** The run goes on with one more event. */
  lemma Next(es: seq<Event>, s: State, e: Event) returns (es': seq<Event>, t: State)
    requires s == Exec(0, es)
    ensures es' == es + [e] && t == Exec(0, es') == Step(s, e)
  {
    es' := es + [e];
    t := Exec(0, es');
    ExecSnoc(0, es, e);
  }

  /** A message created at time 0, its publication pending. */
  lemma Created() returns (es: seq<Event>, s: State)
    ensures s == Exec(0, es) && s.now == 0
    ensures s.db == Db(map[MSG := Row(Queued, "", None, Some(0), 0, 0, BODY)], map[MSG := []], map[])
    ensures s.live == map[] && s.ledger == Init(0).ledger && s.log.outbox == {Publication(MSG, 0)}
    ensures s.log.published == map[] && s.log.publishedAt == map[] && s.log.stamps == map[MSG := [0]]
  {
    es, s := Next([], Init(0), Create(MSG, BODY, None, 0));
    assert s == ApplyCreate(Init(0), MSG, BODY, None, 0);
  }

  /** The same message, handed to the broker as task "t" at once. */
  lemma Published() returns (es: seq<Event>, s: State)
    ensures s == Exec(0, es) && s.now == 0
    ensures s.db == Db(map[MSG := Row(Queued, "", None, Some(0), 0, 0, BODY)], map[MSG := []], map[])
    ensures s.live == map[0 := Delivery("t", MSG, 0, Waiting(None))] && s.ledger == Init(0).ledger
    ensures s.log.published == map["t" := Publication(MSG, 0)] && s.log.stamps == map[MSG := [0]]
  {
    hide Exec;
    var first, created := Created();
    es, s := Next(first, created, Publish(Publication(MSG, 0), "t", 0));
    assert s == ApplyPublish(created, Publication(MSG, 0), "t", 0);
  }

  // ----- a redelivered task overlaps itself

  ghost predicate JustClaimed(s: State, tag: Tag) {
    IsRunning(s, tag) && s.live[tag].phase.progress.Claimed? && s.live[tag].msg == MSG && s.live[tag].retries == 0
  }

  /**
   The task is not acknowledged within the visibility timeout, the broker hands it out again, and
   both deliveries claim the row under the same task id.
   */
  lemma BothClaim() returns (es: seq<Event>, s: State)
    ensures s == Exec(0, es) && JustClaimed(s, 0) && JustClaimed(s, 1) && MSG in s.db.rows
    ensures s.ledger == Init(0).ledger.(redelivered := multiset{MSG}, recopied := multiset{"t"})
    ensures !NoOverlapOn(0, es, MSG)
  {
    hide Exec;
    var es0, s0 := Published();
    var es1, s1 := Next(es0, s0, Tick(VISIBILITY_TIMEOUT));
    assert s1 == s0.(now := VISIBILITY_TIMEOUT);
    var es2, s2 := Next(es1, s1, Redeliver(0, 1));
    assert s2 == ApplyRedeliver(s1, 0, 1);
    var es3, s3 := Next(es2, s2, Claim(0));
    assert s3 == ApplyClaim(s2, 0);
    es, s := Next(es3, s3, Claim(1));
    assert s == ApplyClaim(s3, 1);
    assert es[..|es3|] == es3 && es[|es3|] == Claim(1);
    assert IsRunning(s3, 0) && OverlapsOn(s3, Claim(1), MSG);
  }

  /** A sent message becomes failed. */
  lemma SentIsOverwritten() returns (es: seq<Event>, k: nat)
    ensures k <= |es| && !NoOverlapOn(0, es, MSG)
    ensures MSG in Exec(0, es[..k]).db.rows && Exec(0, es[..k]).db.rows[MSG].status == Sent
    ensures MSG in Exec(0, es).db.rows && Exec(0, es).db.rows[MSG].status == Failed
  {
    hide Exec, NoOverlapOn;
    var both, s := BothClaim();
    var sent := RunConcludes(0, both, 0, SUCCESS, Sent);
    es := RunConcludes(0, sent, 1, REFUSAL, Failed);
    k := |sent|;
    assert es[..k] == sent;
    if NoOverlapOn(0, es, MSG) { FinalStatusIsKept(0, es, k, MSG); }
  }

  // ----- the message is enqueued again

  /** A dispatch pass that finds the message. */
  lemma DispatchesIt(s: State, ts: seq<Time>, readAt: Time)
    requires s.db.rows.Keys == {MSG} && Selected(s.db.rows[MSG], readAt) && s.log.stamps == map[MSG := ts]
    requires readAt <= s.now
    ensures var t := Step(s, Dispatch(readAt, {MSG}));
            && t == s.(db := t.db, log := t.log)
            && t.db.rows == map[MSG := Stamped(s.db.rows[MSG], readAt)]
            && t.log.stamps == map[MSG := ts + [readAt]]
            && t.log.outbox == s.log.outbox + {Publication(MSG, readAt)}
            && t.log.published == s.log.published && t.log.publishedAt == s.log.publishedAt
  {
    hide Selected, Stamped;
    var t := ApplyDispatch(s, readAt, {MSG});
    assert Enabled(s, Dispatch(readAt, {MSG}));
    hide Enabled;
    assert t.log.stamps == map[MSG := ts + [readAt]] by { assert s.log.stamps[MSG] == ts; }
    assert t.db.rows == map[MSG := Stamped(s.db.rows[MSG], readAt)];
  }

  const FAILURE := ChannelResult(false, true, "")
  const LATE: Time := STALE_SENDING_AFTER + 1

  /** The first try is claimed and its call fails for now. */
  lemma FirstTryFails() returns (es: seq<Event>, s: State)
    ensures s == Exec(0, es) && s.now == 0
    ensures s.db == Db(map[MSG := Row(Sending, "t", None, Some(0), 0, 0, BODY)], map[MSG := []], map[])
    ensures s.live == map[0 := Delivery("t", MSG, 0, Running(0, BODY, Answered(FAILURE)))]
    ensures s.log.published == map["t" := Publication(MSG, 0)] && s.log.stamps == map[MSG := [0]]
  {
    hide Exec;
    var es0, s0 := Published();
    var es1, s1 := Next(es0, s0, Claim(0));
    assert s1 == ApplyClaim(s0, 0);
    es, s := Next(es1, s1, Return(0, Returns(FAILURE)));
    assert s == ApplyReturn(s1, 0, Returns(FAILURE));
  }

  lemma FirstTryRecorded() returns (es: seq<Event>, s: State)
    ensures s == Exec(0, es) && s.now == 0 && s.db.rows == map[MSG := Row(Sending, "t", None, Some(0), 0, 0, BODY)]
    ensures s.live == map[0 := Delivery("t", MSG, 0, Running(0, BODY, Recorded(FAILURE)))]
    ensures s.log.published == map["t" := Publication(MSG, 0)] && s.log.stamps == map[MSG := [0]]
  {
    hide Exec;
    var es2, s2 := FirstTryFails();
    var es3, s3 := Next(es2, s2, Number(0));
    assert s3 == ApplyNumber(s2, 0);
    es, s := Next(es3, s3, Record(0));
    assert s == ApplyRecord(s3, 0);
  }

  /** It asks for a retry, which is more than two hours late. */
  lemma RetryIsLate() returns (es: seq<Event>, s: State)
    ensures s == Exec(0, es) && s.now == LATE
    ensures s.db.rows == map[MSG := Row(Sending, "t", None, Some(0), 0, 0, BODY)]
    ensures s.live == map[0 := Delivery("t", MSG, 1, Waiting(Some(0)))]
    ensures s.log.published == map["t" := Publication(MSG, 0)] && s.log.stamps == map[MSG := [0]]
  {
    hide Exec;
    var es0, s0 := FirstTryRecorded();
    var es1, s1 := Next(es0, s0, Finish(0));
    assert s1 == Retry(s0, 0);
    es, s := Next(es1, s1, Tick(LATE));
    assert s == s1.(now := LATE);
  }

  /** Meanwhile a dispatch pass stamps the message. */
  lemma StampedAgain() returns (es: seq<Event>, s: State)
    ensures s == Exec(0, es) && s.db.rows == map[MSG := Row(Queued, "", None, Some(LATE), 0, LATE, BODY)]
    ensures s.live == map[0 := Delivery("t", MSG, 1, Waiting(Some(0)))] && Publication(MSG, LATE) in s.log.outbox
    ensures s.log.published == map["t" := Publication(MSG, 0)] && s.log.stamps == map[MSG := [0, LATE]]
  {
    hide Exec, Step;
    var before, late := RetryIsLate();
    DispatchesIt(late, [0], LATE);
    es, s := Next(before, late, Dispatch(LATE, {MSG}));
    assert [0] + [LATE] == [0, LATE];
  }

  /** It hands out a new task. */
  lemma EnqueuedAgain() returns (es: seq<Event>, s: State)
    ensures s == Exec(0, es) && s.db.rows == map[MSG := Row(Queued, "", None, Some(LATE), 0, LATE, BODY)]
    ensures s.live == map[0 := Delivery("t", MSG, 1, Waiting(Some(0))), 1 := Delivery("u", MSG, 0, Waiting(None))]
    ensures s.log.published == map["t" := Publication(MSG, 0), "u" := Publication(MSG, LATE)]
    ensures s.log.stamps == map[MSG := [0, LATE]]
  {
    hide Exec;
    var before, stamped := StampedAgain();
    es, s := Next(before, stamped, Publish(Publication(MSG, LATE), "u", 1));
    assert s == ApplyPublish(stamped, Publication(MSG, LATE), "u", 1);
  }

  /** The late run of the old task is no duplicate: it claims, and the new task is the one that stops. */
  lemma OldTaskClaimsAgain() returns (es: seq<Event>)
    ensures es != [] && ClaimsAt(0, es, |es| - 1, MSG, "t")
    ensures var s := Exec(0, es);
            && s.log.stamps == map[MSG := [0, LATE]]
            && s.log.published == map["t" := Publication(MSG, 0), "u" := Publication(MSG, LATE)]
            && IsWaiting(s, 1) && s.live[1].task == "u" && Decide(s.db.rows, MSG, "u") == Duplicate
  {
    hide Exec;
    var before, s := EnqueuedAgain();
    var after, t := Next(before, s, Claim(0));
    assert t == ApplyClaim(s, 0);
    assert after[..|before|] == before;
    es := after;
  }
}
