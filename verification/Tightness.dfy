/**
 The bounds of `Copies` and `Tries` are the best possible: for any number of redeliveries and crashes
 there is a run that reaches them.
 */
module Tightness {
  import opened Options
  import opened Messages
  import opened Protocol
  import opened Ownership
  import opened Records
  import opened Exclusion
  import opened Overlap
  import opened Witnesses
  import opened Tries

  ghost predicate IsCopy(s: State, tag: Tag) {
    tag in s.live && s.live[tag].task == "t" && s.live[tag].msg == MSG
  }

  /** A copy that runs with `r` retries behind it. */
  ghost predicate Trying(s: State, tag: Tag, r: nat) {
    && IsCopy(s, tag) && s.live[tag].retries == r
    && s.live[tag].phase.Running? && s.live[tag].phase.progress.Claimed?
  }

  ghost predicate Unclaimed(s: State, tag: Tag) {
    IsCopy(s, tag) && s.live[tag].retries == 0 && s.live[tag].phase.Waiting?
  }

  /** The task may claim the row. */
  ghost predicate Claimable(s: State) {
    && MSG in s.db.rows
    && (s.db.rows[MSG].status.Queued? || (s.db.rows[MSG].status.Sending? && s.db.rows[MSG].claimedBy == "t"))
  }

  /** Copies 0 to `n` of one task, of which the first `k` have claimed the row. */
  ghost predicate Fleet(s: State, n: nat, k: nat) {
    && Claimable(s) && (k > 0 ==> s.db.rows[MSG].status.Sending?)
    && (forall tag :: tag in s.live ==> tag <= n)
    && (forall tag: Tag :: tag <= n ==> if tag < k then Trying(s, tag, 0) else Unclaimed(s, tag))
  }

  ghost predicate Handed(l: Ledger, n: nat) {
    && l.redelivered[MSG] == n && l.recopied["t"] == n
    && l.successes[MSG] == 0 && l.crashes[MSG] == 0 && l.completed["t"] == 0
  }

  /** Whenever the visibility timeout has passed, the broker hands the task out again. */
  lemma {:induction false} CopiesWait(n: nat) returns (es: seq<Event>, s: State)
    ensures s == Exec(0, es) && Fleet(s, n, 0) && Handed(s.ledger, n)
  {
    hide Exec;
    if n == 0 {
      es, s := Published();
    } else {
      var es0, s0 := CopiesWait(n - 1);
      forall tag | tag in s0.live ensures s0.live[tag].phase.Waiting? { assert Unclaimed(s0, tag); }
      var es1, s1 := Next(es0, s0, Tick(s0.now + VISIBILITY_TIMEOUT));
      assert s1 == s0.(now := s0.now + VISIBILITY_TIMEOUT);
      assert Unclaimed(s0, 0);
      es, s := Next(es1, s1, Redeliver(0, n));
      assert s == ApplyRedeliver(s1, 0, n);
      forall tag: Tag | tag <= n ensures Unclaimed(s, tag) { assert tag < n ==> Unclaimed(s0, tag); }
    }
  }

  /** They claim the row one after the other. */
  lemma {:induction false} CopiesClaim(n: nat, k: nat) returns (es: seq<Event>, s: State)
    requires k <= n + 1
    ensures s == Exec(0, es) && Fleet(s, n, k) && Handed(s.ledger, n)
  {
    hide Exec;
    if k == 0 {
      es, s := CopiesWait(n);
    } else {
      var es0, s0 := CopiesClaim(n, k - 1);
      assert Unclaimed(s0, k - 1);
      es, s := Next(es0, s0, Claim(k - 1));
      assert s == ApplyClaim(s0, k - 1);
      forall tag: Tag | tag <= n ensures if tag < k then Trying(s, tag, 0) else Unclaimed(s, tag) {
        assert tag != k - 1 ==> if tag < k then Trying(s0, tag, 0) else Unclaimed(s0, tag);
      }
    }
  }

  // ----- successes

  /** The account after `c` crashes of a run whose call had succeeded. */
  ghost predicate Crashed(l: Ledger, n: nat, c: nat) {
    l.redelivered[MSG] == n && l.successes[MSG] == c && l.crashes[MSG] == c
  }

  /** Run 0 succeeds, crashes, is redelivered and claims again. */
  lemma {:induction false} CrashesAfterSuccess(n: nat, c: nat) returns (es: seq<Event>, s: State)
    ensures s == Exec(0, es) && Fleet(s, n, n + 1) && Crashed(s.ledger, n, c)
  {
    hide Exec;
    if c == 0 {
      es, s := CopiesClaim(n, n + 1);
    } else {
      var es0, s0 := CrashesAfterSuccess(n, c - 1);
      assert Trying(s0, 0, 0);
      es, s := CrashesOnce(es0, s0);
      forall tag: Tag | tag <= n ensures Trying(s, tag, 0) { assert tag > 0 ==> Trying(s0, tag, 0); }
    }
  }

  lemma CrashesOnce(before: seq<Event>, s: State) returns (es: seq<Event>, t: State)
    requires s == Exec(0, before) && Claimable(s) && Trying(s, 0, 0)
    ensures t == Exec(0, es) && Claimable(t) && t.db.rows[MSG].status.Sending? && Trying(t, 0, 0)
    ensures t.live.Keys == s.live.Keys && forall tag :: tag in s.live && tag != 0 ==> t.live[tag] == s.live[tag]
    ensures t.ledger.redelivered == s.ledger.redelivered
    ensures t.ledger.successes == s.ledger.successes + multiset{MSG}
    ensures t.ledger.crashes == s.ledger.crashes + multiset{MSG}
  {
    hide Exec;
    var es1, s1 := Next(before, s, Return(0, Returns(SUCCESS)));
    assert s1 == ApplyReturn(s, 0, Returns(SUCCESS));
    var es2, s2 := Next(es1, s1, Crash(0, true));
    assert s2 == ApplyCrash(s1, 0, true);
    es, t := Next(es2, s2, Claim(0));
    assert t == ApplyClaim(s2, 0);
  }

  /** Runs 0 to `k` - 1 succeed. */
  lemma {:induction false} CopiesSucceed(n: nat, c: nat, k: nat) returns (es: seq<Event>, s: State)
    requires k <= n + 1
    ensures s == Exec(0, es)
    ensures forall tag: Tag :: k <= tag <= n ==> Trying(s, tag, 0)
    ensures s.ledger.redelivered[MSG] == n && s.ledger.successes[MSG] == c + k && s.ledger.crashes[MSG] == c
  {
    hide Exec;
    if k == 0 {
      es, s := CrashesAfterSuccess(n, c);
    } else {
      var es0, s0 := CopiesSucceed(n, c, k - 1);
      assert Trying(s0, k - 1, 0);
      es, s := Next(es0, s0, Return(k - 1, Returns(SUCCESS)));
      assert s == ApplyReturn(s0, k - 1, Returns(SUCCESS));
      forall tag: Tag | k <= tag <= n ensures Trying(s, tag, 0) { assert Trying(s0, tag, 0); }
    }
  }

  /** Any number of redeliveries and crashes can add one delivery each to the first. */
  lemma DeliveriesReachTheBound(redeliveries: nat, crashes: nat) returns (es: seq<Event>)
    ensures var l := Exec(0, es).ledger;
            && l.redelivered[MSG] == redeliveries && l.crashes[MSG] == crashes
            && l.successes[MSG] == 1 + crashes + redeliveries
  {
    var s: State;
    es, s := CopiesSucceed(redeliveries, crashes, redeliveries + 1);
  }

  // ----- tries

  /** Copies below `done` have six retries behind them, copy `done` has `r`, the others none. */
  ghost predicate Retried(s: State, n: nat, done: nat, r: nat) {
    && (forall tag: Tag :: tag < done && tag <= n ==> Trying(s, tag, MAX_RETRIES))
    && (done <= n ==> Trying(s, done, r))
    && (forall tag: Tag :: done < tag <= n ==> Trying(s, tag, 0))
    && MSG in s.db.rows && s.db.rows[MSG].status.Sending? && s.db.rows[MSG].claimedBy == "t"
    && s.ledger.recopied["t"] == n && s.ledger.completed["t"] == MAX_RETRIES * done + r
  }

  lemma {:induction false} CopiesRetry(n: nat, done: nat, r: nat) returns (es: seq<Event>)
    requires done <= n && r <= MAX_RETRIES
    ensures Retried(Exec(0, es), n, done, r)
    decreases done, r
  {
    hide Exec;
    if r > 0 {
      var before := CopiesRetry(n, done, r - 1);
      assert Trying(Exec(0, before), done, r - 1);
      es := RunRetries(0, before, done, FAILURE);
      RetriedOne(Exec(0, before), Exec(0, es), n, done, r);
    } else if done > 0 {
      es := CopiesRetry(n, done - 1, MAX_RETRIES);
    } else {
      var s: State;
      es, s := CopiesClaim(n, n + 1);
    }
  }

  lemma RetriedOne(s: State, t: State, n: nat, done: nat, r: nat)
    requires done <= n && 0 < r && Retried(s, n, done, r - 1) && Trying(t, done, r)
    requires HoldsClaim(t, t.live[done]) && OneMoreTry(s, t, "t")
    requires forall other :: other in s.live && other != done ==> other in t.live && t.live[other] == s.live[other]
    ensures Retried(t, n, done, r)
  {
    forall tag: Tag | tag < done ensures Trying(t, tag, MAX_RETRIES) { assert Trying(s, tag, MAX_RETRIES); }
    forall tag: Tag | done < tag <= n ensures Trying(t, tag, 0) { assert Trying(s, tag, 0); }
  }

  /** Copies below `k` have given up; the others are in their last try. */
  lemma {:induction false} CopiesGiveUp(n: nat, k: nat) returns (es: seq<Event>)
    requires k <= n + 1
    ensures var s := Exec(0, es);
            && (forall tag: Tag :: k <= tag <= n ==> Trying(s, tag, MAX_RETRIES)) && MSG in s.db.rows
            && s.ledger.recopied["t"] == n && s.ledger.completed["t"] == MAX_RETRIES * (n + 1) + k
  {
    hide Exec;
    if k == 0 {
      es := CopiesRetry(n, n, MAX_RETRIES);
    } else {
      var before := CopiesGiveUp(n, k - 1);
      assert Trying(Exec(0, before), k - 1, MAX_RETRIES);
      es := RunConcludes(0, before, k - 1, FAILURE, Dead);
      forall tag: Tag | k <= tag <= n ensures Trying(Exec(0, es), tag, MAX_RETRIES) {
        assert Trying(Exec(0, before), tag, MAX_RETRIES);
      }
    }
  }

  /** A task can complete seven tries for each time it was handed out. */
  lemma TriesReachTheBound(redeliveries: nat) returns (es: seq<Event>)
    ensures var l := Exec(0, es).ledger;
            l.recopied["t"] == redeliveries && l.completed["t"] == MAX_TRIES * (1 + redeliveries)
  {
    es := CopiesGiveUp(redeliveries, redeliveries + 1);
  }
}
