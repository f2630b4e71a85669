/**
 How many tasks of one message the broker can get within a span, when publications lag behind their
 stamps: the bound of `Ownership` is reached for every span and every lag.
 */
module Rates {
  import opened Options
  import opened Messages
  import opened Protocol
  import opened Ownership
  import opened Witnesses

  ghost predicate LagsAtMost(log: Log, m: MsgId, lag: Time) {
    forall t :: t in log.published && log.published[t].msg == m && t in log.publishedAt ==>
      log.publishedAt[t] - log.published[t].stamp <= lag
  }

  // ----- a run that reaches the bound

  function Later(a: Time, b: Time): Time { if a <= b then b else a }

  /** Different task ids. */
  function Name(i: nat): TaskId { seq(i + 1, _ => 'a') }

  lemma NamesDiffer(i: nat, j: nat)
    ensures Name(i) == Name(j) ==> i == j
    ensures Name(i) != ""
  {
    assert |Name(i)| == i + 1 && |Name(j)| == j + 1;
  }

  /**
   Task i stems from the stamp at i times the spacing, and was handed out at that moment or, if that
   was before `lag`, at `lag`.
   */
  ghost predicate TaskAt(log: Log, i: nat, lag: Time) {
    && Name(i) in log.published && log.published[Name(i)] == Publication(MSG, i * SPACING)
    && Name(i) in log.publishedAt && log.publishedAt[Name(i)] == Later(i * SPACING, lag)
  }

  /** Exactly the tasks up to `n` have been handed out, and the message waits in the table. */
  ghost predicate Reached(s: State, n: nat, lag: Time) {
    && s.now == Later(n * SPACING, lag)
    && s.db.rows.Keys == {MSG} && s.db.rows[MSG].status.Queued? && s.db.rows[MSG].enqueuedAt == Some(n * SPACING)
    && MSG in s.log.stamps && s.log.stamps.Keys == {MSG}
    && (forall tag :: tag in s.live ==> tag <= n && s.live[tag].phase.Waiting?)
    && (forall i: nat :: i <= n ==> TaskAt(s.log, i, lag))
    && (forall t :: t in s.log.published ==> exists i: nat :: i <= n && t == Name(i))
    && |s.log.published| == n + 1
  }

  /** A message accepted late, by a call that had read the clock at 0. */
  lemma FirstTask(lag: Time) returns (es: seq<Event>, s: State)
    requires 0 <= lag
    ensures s == Exec(0, es) && Reached(s, 0, lag)
  {
    var es1, s1 := Next([], Init(0), Tick(lag));
    assert s1 == Init(0).(now := lag);
    var es2, s2 := Next(es1, s1, Create(MSG, BODY, None, 0));
    assert s2 == ApplyCreate(s1, MSG, BODY, None, 0);
    NamesDiffer(0, 0);
    es, s := Next(es2, s2, Publish(Publication(MSG, 0), Name(0), 0));
    assert s == ApplyPublish(s2, Publication(MSG, 0), Name(0), 0);
    assert s.log.published == map[Name(0) := Publication(MSG, 0)];
  }

  /** The next pass reads the clock as soon as the row is stranded, and writes when it can. */
  lemma StampedNext(before: seq<Event>, s: State, n: nat, lag: Time) returns (es: seq<Event>, t: State)
    requires s == Exec(0, before) && 0 <= lag && Reached(s, n, lag)
    ensures t == Exec(0, es) && t.now == Later((n + 1) * SPACING, lag) && t.live == s.live
    ensures t.db.rows.Keys == {MSG} && t.db.rows[MSG].status.Queued?
    ensures t.db.rows[MSG].enqueuedAt == Some((n + 1) * SPACING)
    ensures t.log.stamps.Keys == {MSG} && Publication(MSG, (n + 1) * SPACING) in t.log.outbox
    ensures t.log.published == s.log.published && t.log.publishedAt == s.log.publishedAt
  {
    hide Exec, TaskAt, Name;
    var now, stamp := Later((n + 1) * SPACING, lag), (n + 1) * SPACING;
    var es1, s1 := Next(before, s, Tick(now));
    assert s1 == s.(now := now);
    assert s1.log.stamps == map[MSG := s.log.stamps[MSG]];
    DispatchesIt(s1, s.log.stamps[MSG], stamp);
    es, t := Next(es1, s1, Dispatch(stamp, {MSG}));
  }

  /** Its task is handed out at once. */
  lemma NextTask(before: seq<Event>, s: State, n: nat, lag: Time) returns (es: seq<Event>, t: State)
    requires s == Exec(0, before) && 0 <= lag && Reached(s, n, lag)
    ensures t == Exec(0, es) && Reached(t, n + 1, lag)
  {
    hide Exec, Name;
    var stamped, u := StampedNext(before, s, n, lag);
    var p, task := Publication(MSG, (n + 1) * SPACING), Name(n + 1);
    NamesDiffer(n + 1, n + 1);
    forall i: nat | i <= n ensures Name(i) != task { NamesDiffer(i, n + 1); }
    es, t := Next(stamped, u, Publish(p, task, n + 1));
    assert t == ApplyPublish(u, p, task, n + 1);
    assert |t.log.published| == n + 2;
    forall i: nat | i <= n ensures TaskAt(t.log, i, lag) { assert TaskAt(s.log, i, lag); }
  }

  lemma {:induction false} TasksUpTo(n: nat, lag: Time) returns (es: seq<Event>, s: State)
    requires 0 <= lag
    ensures s == Exec(0, es) && Reached(s, n, lag)
  {
    if n == 0 {
      es, s := FirstTask(lag);
    } else {
      var before, u := TasksUpTo(n - 1, lag);
      es, s := NextTask(before, u, n - 1, lag);
    }
  }

  /**
   For every span and every lag there is a run whose publications lag at most that much, with as many
   tasks of one message handed out within the span as the bound allows.
   */
  lemma BoundIsReached(span: Time, lag: Time) returns (es: seq<Event>, lo: Time)
    requires 0 <= span && 0 <= lag
    ensures var log := Exec(0, es).log;
            && LagsAtMost(log, MSG, lag)
            && |HandedOutWithin(log, MSG, lo, lo + span)| == 1 + (span + lag) / SPACING
  {
    var n: nat := (span + lag) / SPACING;
    var s: State;
    es, s := TasksUpTo(n, lag);
    lo := lag;
    hide Exec, Name;
    forall t | t in s.log.published
      ensures t in s.log.publishedAt && s.log.published[t].msg == MSG && lo <= s.log.publishedAt[t] <= lo + span
      ensures s.log.publishedAt[t] - s.log.published[t].stamp <= lag
    {
      var i: nat :| i <= n && t == Name(i);
      assert TaskAt(s.log, i, lag);
      assert i * SPACING <= n * SPACING <= span + lag;
    }
    assert HandedOutWithin(s.log, MSG, lo, lo + span) == s.log.published.Keys;
  }

  // ----- the plain rate

  /** At most 1 + T / 15 min tasks of the message were handed out in any span of length T. */
  ghost predicate PlainRate(log: Log, m: MsgId) {
    forall lo, hi :: lo <= hi ==> |HandedOutWithin(log, m, lo, hi)| <= 1 + (hi - lo) / REENQUEUE_AFTER
  }

  lemma PromptRate(start: Time, es: seq<Event>, m: MsgId, lag: Time)
    requires 0 <= lag <= 1 && LagsAtMost(Exec(start, es).log, m, lag)
    ensures PlainRate(Exec(start, es).log, m)
  {
    hide Exec;
    var log := Exec(start, es).log;
    forall lo, hi | lo <= hi ensures |HandedOutWithin(log, m, lo, hi)| <= 1 + (hi - lo) / REENQUEUE_AFTER {
      PublicationRateByMoment(start, es, m, lo, hi, lag);
      LagAbsorbed(hi - lo, lag);
    }
  }

  /**
   By the moment of publication the plain rate holds in every run whose publications lag at most `lag`
   behind their stamps if and only if that is no more than one microsecond.
   */
  lemma PlainRateExactly(lag: Time)
    requires 0 <= lag
    ensures (forall start, es, m :: LagsAtMost(Exec(start, es).log, m, lag) ==> PlainRate(Exec(start, es).log, m))
            <==> lag <= 1
  {
    hide Exec;
    if lag <= 1 {
      forall start, es, m | LagsAtMost(Exec(start, es).log, m, lag) ensures PlainRate(Exec(start, es).log, m) {
        PromptRate(start, es, m, lag);
      }
    } else {
      var es, lo := BoundIsReached(REENQUEUE_AFTER - 1, lag);
      var log := Exec(0, es).log;
      assert |HandedOutWithin(log, MSG, lo, lo + (REENQUEUE_AFTER - 1))| >= 2;
    }
  }
}
