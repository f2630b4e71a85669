/**
 How often a task can try when the broker redelivers as it likes: every live copy has its remaining
 tries as a budget, a copy that is handed out again brings a budget of its own, and a settled message
 leaves none to those who have not claimed.
 */
module Tries {
  import opened Options
  import opened Messages
  import opened Protocol
  import opened Ownership
  import opened Copies

  const MAX_TRIES: nat := MAX_RETRIES + 1

  /** The tries a delivery may still complete. */
  function Budget(rows: map<MsgId, Row>, d: Delivery): nat {
    if d.phase.Finished? || d.retries > MAX_RETRIES then 0
    else if d.phase.Waiting? && (d.msg !in rows || Terminal(rows[d.msg].status)) then 0
    else MAX_TRIES - d.retries
  }

  ghost function Budgets(s: State, t: TaskId): map<Tag, nat> {
    map tag | tag in s.live && s.live[tag].task == t :: Budget(s.db.rows, s.live[tag])
  }

  ghost function Total(w: map<Tag, nat>): nat {
    if w == map[] then 0 else var tag :| tag in w; w[tag] + Total(w - {tag})
  }

  lemma {:induction false} TotalSplit(w: map<Tag, nat>, tag: Tag)
    requires tag in w
    ensures Total(w) == w[tag] + Total(w - {tag})
    decreases |w|
  {
    var first :| first in w && Total(w) == w[first] + Total(w - {first});
    if first != tag {
      KeysShrink(w, first);
      TotalSplit(w - {first}, tag);
      KeysShrink(w, tag);
      TotalSplit(w - {tag}, first);
      assert w - {first} - {tag} == w - {tag} - {first};
    }
  }

  lemma KeysShrink(w: map<Tag, nat>, tag: Tag)
    requires tag in w
    ensures |w - {tag}| < |w|
  {
  }

  ghost predicate Below(w': map<Tag, nat>, w: map<Tag, nat>) {
    forall tag :: tag in w' ==> tag in w && w'[tag] <= w[tag]
  }

  lemma {:induction false} TotalBelow(w': map<Tag, nat>, w: map<Tag, nat>)
    requires Below(w', w)
    ensures Total(w') <= Total(w)
    decreases |w|
  {
    if w == map[] {
      assert w' == map[];
    } else {
      var tag :| tag in w;
      KeysShrink(w, tag);
      TotalSplit(w, tag);
      TotalBelow(w' - {tag}, w - {tag});
      if tag in w' { TotalSplit(w', tag); } else { assert w' - {tag} == w'; }
    }
  }

  lemma TotalPays(w': map<Tag, nat>, w: map<Tag, nat>, tag: Tag)
    requires Below(w', w) && tag in w && 1 <= w[tag] && (tag in w' ==> w'[tag] + 1 <= w[tag])
    ensures Total(w') + 1 <= Total(w)
  {
    TotalSplit(w, tag);
    TotalBelow(w' - {tag}, w - {tag});
    if tag in w' { TotalSplit(w', tag); } else { assert w' - {tag} == w'; }
  }

  ghost predicate TriesBounded(s: State, t: TaskId) {
    && s.ledger.completed[t] + Total(Budgets(s, t)) <= MAX_TRIES * (1 + s.ledger.recopied[t])
    && (t !in s.log.published ==> s.ledger.completed[t] == 0 && s.ledger.recopied[t] == 0)
  }

  // ----- budgets only shrink

  /** Nothing happened to this delivery, or its budget went down. */
  lemma BudgetFrame(s: State, t: State, d: Delivery)
    requires RowsMove(s, t) && d.msg in s.log.originals
    ensures Budget(t.db.rows, d) <= Budget(s.db.rows, d)
  {
  }

  /** The acting delivery has no larger budget afterwards, and a smaller one if it completed a try. */
  lemma ActorBudget(s: State, e: Event)
    requires Inv(s) && Enabled(s, e) && Actor(e).Some? && !e.Publish? && !e.Redeliver?
    ensures var t, tag := Apply(s, e), Actor(e).value;
            && tag in s.live
            && (tag in t.live ==> Budget(t.db.rows, t.live[tag]) <= Budget(s.db.rows, s.live[tag]))
  {
    hide RowsOk, HistoryOk, PublishedOk, DoomedOk;
    assert DeliveryOk(s, s.live[e.tag]);
  }

  lemma FinisherPays(s: State, tag: Tag)
    requires Inv(s) && Enabled(s, Finish(tag))
    ensures var t, d := ApplyFinish(s, tag), s.live[tag];
            && (forall task :: t.ledger.completed[task] <= s.ledger.completed[task] + Bit(task == d.task))
            && 1 <= Budget(s.db.rows, d)
            && (tag in t.live ==> Budget(t.db.rows, t.live[tag]) + 1 <= Budget(s.db.rows, d))
  {
  }

  lemma OthersCompleteNothing(s: State, e: Event)
    requires Enabled(s, e) && !e.Finish?
    ensures Apply(s, e).ledger.completed == s.ledger.completed
  {
  }

  lemma BudgetsShrink(s: State, e: Event, task: TaskId)
    requires Inv(s) && Enabled(s, e) && !e.Publish? && !e.Redeliver?
    ensures Below(Budgets(Apply(s, e), task), Budgets(s, task))
  {
    var t := Apply(s, e);
    InvParts(s);
    RowsStep(s, e);
    OthersUntouched(s, e);
    OthersMakeNoCopies(s, e);
    if Actor(e).Some? { ActorBudget(s, e); }
    hide Apply, Enabled, Budget, RowsMove, RowsOk, HistoryOk, PublishedOk, DoomedOk;
    forall tag | tag in t.live ensures Budget(t.db.rows, t.live[tag]) <= Budget(s.db.rows, s.live[tag]) {
      if Some(tag) != Actor(e) {
        assert DeliveryOk(s, s.live[tag]);
        BudgetFrame(s, t, s.live[tag]);
      }
    }
  }

  // ----- each event

  lemma TriesPublish(s: State, p: Publication, task: TaskId, tag: Tag, t: TaskId)
    requires LiveOk(s) && Enabled(s, Publish(p, task, tag)) && TriesBounded(s, t)
    ensures TriesBounded(ApplyPublish(s, p, task, tag), t)
  {
    var s' := ApplyPublish(s, p, task, tag);
    if t == task {
      LiveTasksAreKnown(s);
      var mine := Budgets(s', t);
      assert mine.Keys == {tag};
      TotalSplit(mine, tag);
      assert mine - {tag} == map[];
    } else {
      assert Budgets(s', t) == Budgets(s, t);
    }
  }

  lemma TriesRedeliver(s: State, tag: Tag, other: Tag, t: TaskId)
    requires LiveOk(s) && Enabled(s, Redeliver(tag, other)) && TriesBounded(s, t)
    ensures TriesBounded(ApplyRedeliver(s, tag, other), t)
  {
    hide Budgets, Total;
    assert DeliveryOk(s, s.live[tag]);
    CopyBudget(s, tag, other, t);
  }

  /** A copy brings at most seven tries to its task, and none to others. */
  lemma CopyBudget(s: State, tag: Tag, other: Tag, t: TaskId)
    requires Enabled(s, Redeliver(tag, other))
    ensures Total(Budgets(ApplyRedeliver(s, tag, other), t))
         <= Total(Budgets(s, t)) + MAX_TRIES * Bit(t == s.live[tag].task)
  {
    hide Total;
    var mine, mine' := Budgets(s, t), Budgets(ApplyRedeliver(s, tag, other), t);
    if t == s.live[tag].task {
      TotalSplit(mine', other);
      assert mine' - {other} == mine;
    } else {
      assert mine' == mine;
    }
  }

  lemma TriesFinish(s: State, tag: Tag, t: TaskId)
    requires Inv(s) && Enabled(s, Finish(tag)) && TriesBounded(s, t)
    ensures TriesBounded(Apply(s, Finish(tag)), t)
  {
    var s', d := Apply(s, Finish(tag)), s.live[tag];
    var mine, mine' := Budgets(s, t), Budgets(s', t);
    FinisherPays(s, tag);
    BudgetsShrink(s, Finish(tag), t);
    OthersCountNoCopies(s, Finish(tag));
    InvParts(s);
    LiveTasksAreKnown(s);
    hide Inv, LiveOk, Budget, Apply, ApplyFinish, Below;
    if t == d.task { TotalPays(mine', mine, tag); } else { TotalBelow(mine', mine); }
  }

  lemma TriesOther(s: State, e: Event, t: TaskId)
    requires Inv(s) && Enabled(s, e) && TriesBounded(s, t) && !e.Publish? && !e.Redeliver? && !e.Finish?
    ensures TriesBounded(Apply(s, e), t)
  {
    hide Inv, Apply, Enabled, Budgets;
    OthersCompleteNothing(s, e);
    OthersCountNoCopies(s, e);
    BudgetsShrink(s, e, t);
    TotalBelow(Budgets(Apply(s, e), t), Budgets(s, t));
  }

  lemma TriesStep(s: State, e: Event, t: TaskId)
    requires Inv(s) && Enabled(s, e) && TriesBounded(s, t)
    ensures TriesBounded(Apply(s, e), t)
  {
    InvParts(s);
    hide Inv, TriesBounded;
    if e.Publish? { TriesPublish(s, e.p, e.task, e.tag, t); }
    else if e.Redeliver? { TriesRedeliver(s, e.tag, e.other, t); }
    else if e.Finish? { TriesFinish(s, e.tag, t); }
    else { TriesOther(s, e, t); }
  }

  /**
   In every run a task completes at most seven tries for each time it was handed out: once when it
   was published, and once more for each redelivery of a live copy. Crashed runs do not count.
   */
  lemma {:induction false} TriesAreBounded(start: Time, es: seq<Event>, t: TaskId)
    ensures TriesBounded(Exec(start, es), t)
    ensures Exec(start, es).ledger.completed[t] <= MAX_TRIES * (1 + Exec(start, es).ledger.recopied[t])
  {
    if es == [] {
      assert Budgets(Init(start), t) == map[];
    } else {
      var s, e := Exec(start, es[..|es| - 1]), es[|es| - 1];
      InvHolds(start, es[..|es| - 1]);
      TriesAreBounded(start, es[..|es| - 1], t);
      hide Inv, Apply, Enabled, Budgets;
      if Enabled(s, e) { TriesStep(s, e, t); }
    }
  }

  // ----- the retries a delivery carries

  /** Each retry a delivery carries stands for a completed try of its task. */
  ghost predicate RetriesCounted(s: State) {
    forall tag :: tag in s.live ==> s.live[tag].retries <= s.ledger.completed[s.live[tag].task]
  }

  lemma CompletedGrows(s: State, e: Event)
    requires Enabled(s, e)
    ensures forall t :: s.ledger.completed[t] <= Apply(s, e).ledger.completed[t]
  {
  }

  lemma ActorRetries(s: State, e: Event)
    requires RetriesCounted(s) && Enabled(s, e) && Actor(e).Some?
    ensures var t, tag := Apply(s, e), Actor(e).value;
            tag in t.live ==> t.live[tag].retries <= t.ledger.completed[t.live[tag].task]
  {
  }

  lemma {:induction false} RetriesAreCounted(start: Time, es: seq<Event>)
    ensures RetriesCounted(Exec(start, es))
  {
    if es != [] {
      var s, e := Exec(start, es[..|es| - 1]), es[|es| - 1];
      RetriesAreCounted(start, es[..|es| - 1]);
      if Enabled(s, e) {
        CompletedGrows(s, e);
        OthersUntouched(s, e);
        if Actor(e).Some? { ActorRetries(s, e); }
        hide Apply, Enabled;
      }
    }
  }

  /**
   In every run no delivery carries more than six retries. A task that was never handed out twice
   calls its channel at most seven times outside crashes, and while it runs it has completed exactly
   one try per retry, whatever happened to other tasks.
   */
  lemma {:induction false} RetriesAreBounded(start: Time, es: seq<Event>, t: TaskId, tag: Tag)
    ensures var s := Exec(start, es);
            && (tag in s.live ==> s.live[tag].retries <= MAX_RETRIES)
            && (s.ledger.recopied[t] == 0 ==> s.ledger.completed[t] <= MAX_TRIES)
            && (IsRunning(s, tag) && s.live[tag].task == t && s.ledger.recopied[t] == 0 ==>
                  s.ledger.completed[t] == s.live[tag].retries)
  {
    var s := Exec(start, es);
    InvHolds(start, es);
    TriesAreBounded(start, es, t);
    RetriesAreCounted(start, es);
    hide Exec, RowsOk, HistoryOk, PublishedOk, DoomedOk;
    if tag in s.live {
      assert DeliveryOk(s, s.live[tag]);
      if s.live[tag].task == t { TotalSplit(Budgets(s, t), tag); }
    }
  }
}
