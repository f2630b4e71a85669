/**
 What the attempt and dead-letter tables keep in every run, however often the broker redelivers:
 attempts are numbered 1..n, and a dead letter holds the content as accepted.
 */
module Records {
  import opened Options
  import opened Messages
  import opened Protocol
  import opened Ownership

  ghost predicate Consecutive(attempts: seq<Attempt>) {
    forall i :: 0 <= i < |attempts| ==> attempts[i].number == i + 1
  }

  /** A number read earlier was right when it was read, and may be in use by now. */
  ghost predicate NumberOk(db: Db, d: Delivery) {
    d.phase.Running? && d.phase.progress.Numbered? && d.msg in db.rows ==>
      1 <= d.phase.progress.number <= |AttemptsOf(db, d.msg)| + 1
  }

  ghost predicate NumbersOk(s: State) {
    forall tag :: tag in s.live ==> NumberOk(s.db, s.live[tag])
  }

  ghost predicate AttemptsOk(s: State) {
    && s.db.attempts.Keys == s.db.rows.Keys
    && forall m :: m in s.db.attempts ==> Consecutive(s.db.attempts[m])
  }

  ghost predicate LettersOk(s: State) {
    && s.db.letters.Keys <= s.db.rows.Keys
    && forall m :: m in s.db.letters ==>
         m in s.log.originals && s.db.letters[m].snapshot == TakeSnapshot(m, s.log.originals[m].content)
  }

  ghost predicate RecordsOk(s: State) {
    NumbersOk(s) && AttemptsOk(s) && LettersOk(s)
  }

  /** Attempts of a message are only added, and only go away with it. */
  ghost predicate AttemptsGrow(s: State, t: State) {
    forall m :: m in t.db.rows && m in s.log.originals ==>
      m in s.db.rows && |AttemptsOf(s.db, m)| <= |AttemptsOf(t.db, m)|
  }

  lemma AttemptsOnlyGrow(s: State, e: Event)
    requires RowsOk(s) && AttemptsOk(s) && Enabled(s, e)
    ensures AttemptsGrow(s, Apply(s, e))
  {
    hide RowOk, Consecutive;
  }

  lemma NumbersInUse(attempts: seq<Attempt>, number: nat)
    requires Consecutive(attempts) && 1 <= number <= |attempts|
    ensures exists a :: a in attempts && a.number == number
  {
    assert attempts[number - 1] in attempts;
  }

  /** An insert that goes through takes the next number. */
  lemma InsertTakesNextNumber(db: Db, d: Delivery)
    requires d.phase.Running? && d.phase.progress.Numbered? && NumberOk(db, d)
    requires Consecutive(AttemptsOf(db, d.msg)) && !InsertFails(db, d.msg, d.phase.progress.number)
    ensures d.phase.progress.number == |AttemptsOf(db, d.msg)| + 1
  {
    var number, attempts := d.phase.progress.number, AttemptsOf(db, d.msg);
    if number <= |attempts| { NumbersInUse(attempts, number); }
  }

  lemma AttemptsRecord(s: State, tag: Tag)
    requires AttemptsOk(s) && Enabled(s, Record(tag)) && NumberOk(s.db, s.live[tag])
    ensures AttemptsOk(ApplyRecord(s, tag))
  {
    var d := s.live[tag];
    if !InsertFails(s.db, d.msg, d.phase.progress.number) { InsertTakesNextNumber(s.db, d); }
  }

  lemma AttemptsStep(s: State, e: Event)
    requires RecordsOk(s) && Enabled(s, e)
    ensures AttemptsOk(Apply(s, e))
  {
    hide Consecutive, LettersOk;
    if e.Record? {
      hide AttemptsOk;
      assert NumberOk(s.db, s.live[e.tag]);
      AttemptsRecord(s, e.tag);
    } else if e.Create? {
      assert Consecutive([]) by { EmptyIsConsecutive(); }
    }
  }

  lemma EmptyIsConsecutive()
    ensures Consecutive([])
  {
  }

  lemma LettersFinish(s: State, tag: Tag)
    requires LiveOk(s) && LettersOk(s) && Enabled(s, Finish(tag))
    ensures LettersOk(Apply(s, Finish(tag)))
  {
  }

  /** Every other event leaves the letters alone, or deletes them with their rows. */
  lemma OtherEventsKeepLetters(s: State, e: Event)
    requires s.db.letters.Keys <= s.db.rows.Keys && Enabled(s, e) && !e.Finish?
    ensures var t := Apply(s, e);
            && t.db.letters.Keys <= t.db.rows.Keys
            && forall m :: m in t.db.letters ==> m in s.db.letters && t.db.letters[m] == s.db.letters[m]
  {
  }

  lemma LettersStep(s: State, e: Event)
    requires Inv(s) && LettersOk(s) && Enabled(s, e)
    ensures LettersOk(Apply(s, e))
  {
    hide HistoryOk, PublishedOk, DoomedOk, Apply, Enabled, TakeSnapshot, RowOk, DeliveryOk;
    RowsStep(s, e);
    if e.Finish? { LettersFinish(s, e.tag); } else { OtherEventsKeepLetters(s, e); }
  }

  /** A count read now is in range, and stays in range while attempts are only added. */
  lemma NumbersStep(s: State, e: Event)
    requires Inv(s) && RecordsOk(s) && Enabled(s, e)
    ensures NumbersOk(Apply(s, e))
  {
    var t := Apply(s, e);
    AttemptsOnlyGrow(s, e);
    OthersUntouched(s, e);
    ActorNumber(s, e);
    forall tag | tag in t.live && Some(tag) != Actor(e) ensures NumberOk(t.db, t.live[tag]) {
      hide Apply, Enabled, HistoryOk, PublishedOk, DoomedOk, RowsOk, AttemptsOk, LettersOk;
      assert NumberOk(s.db, s.live[tag]) && DeliveryOk(s, s.live[tag]);
    }
  }

  lemma ActorNumber(s: State, e: Event)
    requires Enabled(s, e)
    ensures var t := Apply(s, e);
            Actor(e).Some? && Actor(e).value in t.live ==> NumberOk(t.db, t.live[Actor(e).value])
  {
  }

  lemma {:induction false} RecordsHold(start: Time, es: seq<Event>)
    ensures RecordsOk(Exec(start, es))
  {
    if es != [] {
      var s, e := Exec(start, es[..|es| - 1]), es[|es| - 1];
      InvHolds(start, es[..|es| - 1]);
      RecordsHold(start, es[..|es| - 1]);
      hide Inv, NumbersOk, AttemptsOk, LettersOk, Apply, Enabled;
      if Enabled(s, e) {
        AttemptsStep(s, e);
        LettersStep(s, e);
        NumbersStep(s, e);
      }
    }
  }

  /** In every run the attempts of a message are numbered 1..n, although the count is read unlocked. */
  lemma {:induction false} AttemptsAreNumbered(start: Time, es: seq<Event>, m: MsgId)
    ensures Consecutive(AttemptsOf(Exec(start, es).db, m))
  {
    RecordsHold(start, es);
  }

  /** In every run a message and its dead letter hold the content as accepted. */
  lemma {:induction false} ContentIsKept(start: Time, es: seq<Event>, m: MsgId)
    ensures var s := Exec(start, es);
            && (m in s.db.rows ==> m in s.log.originals && s.db.rows[m].content == s.log.originals[m].content)
            && (m in s.db.letters ==>
                  && m in s.db.rows && m in s.log.originals
                  && IsCopyOf(s.db.letters[m].snapshot, m, s.log.originals[m].content))
  {
    InvHolds(start, es);
    RecordsHold(start, es);
    var s := Exec(start, es);
    if m in s.db.rows { assert RowOk(s.now, s.db.rows[m], s.log.originals[m]); }
  }
}
