/** The task bodies as the code writes them, run without interruption on the stored tables. */
module Tasks {
  import opened Options
  import opened Messages
  import opened Listing
  import opened Exclusion

  /** How one run of the delivery task ends. */
  datatype RunOutcome =
    | Skipped        // "noop"
    | Ceded          // "duplicate"
    | Ended(status: Status)
    | AsksForRetry   // TransientError
    | Broken         // the message or its attempt could not be stored

  /** Everything after the claim: record the attempt, then write the outcome. */
  function DeliverBody(db: Db, retries: nat, m: MsgId, copy: Content, answer: Answer, finishedAt: Time)
    : (Db, RunOutcome)
    requires m in db.rows
  {
    FinishBody(db, retries, m, copy, Handled(answer), |AttemptsOf(db, m)| + 1, finishedAt)
  }

  /** Everything after the attempt has its number. */
  function FinishBody(db: Db, retries: nat, m: MsgId, copy: Content, result: ChannelResult, number: nat,
                      finishedAt: Time)
    : (Db, RunOutcome)
    requires m in db.rows
  {
    if InsertFails(db, m, number) then (db, Broken)
    else
      var recorded := WithAttempt(db, m, number, result);
      match Verdict(result, retries)
      case None => (recorded, AsksForRetry)
      case Some(status) => (WithVerdict(recorded, m, copy, status, result.error, finishedAt), Ended(status))
  }

  /** The tables after one uninterrupted run, and how it ends. */
  function DeliverOnce(db: Db, owner: TaskId, retries: nat, m: MsgId, answer: Answer, claimedAt: Time, finishedAt: Time)
    : (Db, RunOutcome)
  {
    match Decide(db.rows, m, owner)
    case Missing => (db, Broken)
    case Noop => (db, Skipped)
    case Duplicate => (db, Ceded)
    case Claims =>
      var claimed := db.(rows := db.rows[m := ClaimedRow(db.rows[m], owner, claimedAt)]);
      DeliverBody(claimed, retries, m, db.rows[m].content, answer, finishedAt)
  }

  /** The row is there and the next attempt number is free, as in every reachable state. */
  ghost predicate CanRecordNext(db: Db, m: MsgId) {
    m in db.rows && !InsertFails(db, m, |AttemptsOf(db, m)| + 1)
  }

  /** The ending of a run that could record its attempt: an exception counts as a transient failure. */
  ghost predicate EndsBy(outcome: RunOutcome, answer: Answer, retries: nat) {
    match answer
    case Raises(_) => outcome == if retries < 6 then AsksForRetry else Ended(Dead)
    case Returns(ChannelResult(success, transient, _)) =>
      outcome == if success then Ended(Sent)
                 else if !transient then Ended(Failed)
                 else if retries < 6 then AsksForRetry
                 else Ended(Dead)
  }

  /**
   How a run ends: it is skipped or ceded exactly by the row's state, breaks exactly when the message
   or the next attempt number is not to be had, and otherwise ends by the answer and the retries left.
   */
  lemma EndingIsDecided(db: Db, owner: TaskId, retries: nat, m: MsgId, answer: Answer, claimedAt: Time,
                        finishedAt: Time)
    ensures var outcome := DeliverOnce(db, owner, retries, m, answer, claimedAt, finishedAt).1;
            && (outcome.Skipped? <==> m in db.rows && db.rows[m].status in {Sent, Failed, Dead})
            && (outcome.Ceded? <==> m in db.rows && db.rows[m].status == Sending && db.rows[m].claimedBy != owner)
            && (outcome.Broken? <==> !outcome.Skipped? && !outcome.Ceded? && !CanRecordNext(db, m))
            && (outcome.Skipped? || outcome.Ceded? || outcome.Broken? || EndsBy(outcome, answer, retries))
  {
  }

  function ErrorOf(answer: Answer): string {
    match answer
    case Returns(result) => result.error
    case Raises(error) => error
  }

  /** The attempt that stands for an answer. */
  function AttemptFor(answer: Answer, number: nat): Attempt {
    match answer
    case Raises(error) => Attempt(number, TransientError, error)
    case Returns(ChannelResult(success, transient, error)) =>
      Attempt(number, if success then Success else if transient then TransientError else PermanentError, error)
  }

  /**
   What each ending leaves behind: skipping and ceding write nothing; a broken run leaves at most its
   claim; any other run leaves one more attempt that stands for the answer, and an ended one a final
   row with its dead letter unless it was sent; a retry leaves the row claimed; no other message is
   touched.
   */
  lemma EndingsPromise(db: Db, owner: TaskId, retries: nat, m: MsgId, answer: Answer, claimedAt: Time,
                       finishedAt: Time)
    ensures var (db', outcome) := DeliverOnce(db, owner, retries, m, answer, claimedAt, finishedAt);
            && (outcome.Skipped? || outcome.Ceded? ==> db' == db)
            && (outcome.Broken? ==> db' == if m in db.rows then OnlyClaimed(db, m, owner, claimedAt) else db)
            && (outcome.Ended? || outcome.AsksForRetry? ==>
                  && m in db.rows && m in db'.rows
                  && AttemptsOf(db', m) == AttemptsOf(db, m) + [AttemptFor(answer, |AttemptsOf(db, m)| + 1)]
                  && db'.rows[m].claimedBy == owner && db'.rows[m].content == db.rows[m].content)
            && (outcome.Ended? ==>
                  && db'.rows[m].status == outcome.status && db'.rows[m].updatedAt == finishedAt
                  && LetterLeft(db, db', m, outcome.status, ErrorOf(answer)))
            && (outcome.AsksForRetry? ==>
                  db'.rows[m].status == Sending && db'.rows[m].updatedAt == claimedAt && db'.letters == db.letters)
            && (forall k :: k != m ==> SameRecords(db, db', k) && SameLetter(db, db', k))
  {
    hide SameRecords, SameLetter, InsertFails, LetterLeft;
    OthersAreUntouched(db, owner, retries, m, answer, claimedAt, finishedAt);
    LetterIsLeft(db, owner, retries, m, answer, claimedAt, finishedAt);
  }

  lemma LetterIsLeft(db: Db, owner: TaskId, retries: nat, m: MsgId, answer: Answer, claimedAt: Time, finishedAt: Time)
    ensures var (db', outcome) := DeliverOnce(db, owner, retries, m, answer, claimedAt, finishedAt);
            outcome.Ended? ==> m in db.rows && LetterLeft(db, db', m, outcome.status, ErrorOf(answer))
  {
    hide InsertFails;
  }

  function OnlyClaimed(db: Db, m: MsgId, owner: TaskId, at: Time): Db
    requires m in db.rows
  {
    db.(rows := db.rows[m := db.rows[m].(status := Sending, claimedBy := owner, updatedAt := at)])
  }

  ghost predicate SameLetter(db: Db, db': Db, m: MsgId) {
    (m in db'.letters <==> m in db.letters) && (m in db.letters ==> db'.letters[m] == db.letters[m])
  }

  lemma OthersAreUntouched(db: Db, owner: TaskId, retries: nat, m: MsgId, answer: Answer, claimedAt: Time,
                           finishedAt: Time)
    ensures var db' := DeliverOnce(db, owner, retries, m, answer, claimedAt, finishedAt).0;
            forall k :: k != m ==> SameRecords(db, db', k) && SameLetter(db, db', k)
  {
  }

  /** A sent message gets no letter; another keeps the one it has, or gets one with reason and content. */
  ghost predicate LetterLeft(db: Db, db': Db, m: MsgId, status: Status, error: string)
    requires m in db.rows
  {
    if status.Sent? then db'.letters == db.letters
    else
      m in db'.letters &&
      if m in db.letters then db'.letters[m] == db.letters[m]
      else
        && db'.letters[m].reason == (if status.Failed? then "permanent: " else "exhausted: ") + error
        && IsCopyOf(db'.letters[m].snapshot, m, db.rows[m].content)
  }

  function SelectedIds(rows: map<MsgId, Row>, now: Time): set<MsgId> {
    set m | m in rows && Selected(rows[m], now)
  }

  const NINETY_DAYS: Time := 90 * 24 * 3600 * SECOND

  /** What the cleanup job deletes: finished messages older than the retention window. */
  lemma ExpiredMeans(db: Db, now: Time)
    ensures forall m :: m in db.rows ==>
              (m !in Deleted(db, ExpiredIds(db.rows, now)).rows <==>
                 db.rows[m].status in {Sent, Failed, Dead} && db.rows[m].createdAt + NINETY_DAYS < now)
  {
  }

  function ExpiredIds(rows: map<MsgId, Row>, now: Time): set<MsgId> {
    set m | m in rows && Expired(rows[m], now)
  }

  /** The rows a dispatch pass takes: the first two hundred hits in query order. */
  function Batch(rows: map<MsgId, Row>, order: seq<MsgId>, now: Time): seq<MsgId> {
    Take(Filter(order, SelectedIds(rows, now)), DISPATCH_BATCH_SIZE)
  }

  // ----- how much is stored

  /** One entry per stored attempt. */
  function AttemptRows(db: Db): set<(MsgId, nat)> {
    set m, i: nat | m in db.attempts && i < |db.attempts[m]| :: (m, i)
  }

  /** The rows of the three tables together. */
  function Size(db: Db): nat {
    |db.rows| + |AttemptRows(db)| + |db.letters|
  }

  function Positions(m: MsgId, n: nat): set<(MsgId, nat)> {
    set i: nat | i < n :: (m, i)
  }

  lemma {:induction false} PositionsCount(m: MsgId, n: nat)
    ensures |Positions(m, n)| == n
  {
    if n > 0 {
      PositionsCount(m, n - 1);
      assert Positions(m, n) == Positions(m, n - 1) + {(m, n - 1)};
    }
  }

  lemma KeysDrop<T>(a: map<MsgId, T>, m: MsgId)
    ensures |a| == |a - {m}| + if m in a then 1 else 0
  {
  }

  lemma AttemptsDrop(db: Db, m: MsgId)
    ensures |AttemptRows(db)| == |AttemptRows(Deleted(db, {m}))| + |AttemptsOf(db, m)|
  {
    var mine := Positions(m, |AttemptsOf(db, m)|);
    PositionsCount(m, |AttemptsOf(db, m)|);
    assert AttemptRows(db) == AttemptRows(Deleted(db, {m})) + mine;
  }

  /** A message takes up its row, its attempts and its dead letter. */
  lemma DeletingOne(db: Db, m: MsgId)
    ensures Size(db) == Size(Deleted(db, {m})) + (if m in db.rows then 1 else 0) + |AttemptsOf(db, m)|
                        + if m in db.letters then 1 else 0
  {
    hide AttemptRows;
    KeysDrop(db.rows, m);
    KeysDrop(db.letters, m);
    AttemptsDrop(db, m);
  }

  lemma DeletedNone(db: Db, ids: seq<MsgId>)
    ensures Deleted(db, Members(ids[..0])) == db
  {
  }

  lemma DeletedNext(db: Db, ids: seq<MsgId>, k: nat)
    requires k < |ids|
    ensures Deleted(Deleted(db, Members(ids[..k])), {ids[k]}) == Deleted(db, Members(ids[..k + 1]))
  {
  }

  // ----- draining the backlog at one moment

  /** The rows after `k` passes that all read the clock as `now`. */
  function RowsAfter(rows: map<MsgId, Row>, order: seq<MsgId>, now: Time, k: nat): map<MsgId, Row> {
    if k == 0 then rows
    else
      var before := RowsAfter(rows, order, now, k - 1);
      StampAll(before, Members(Batch(before, order, now)), now)
  }

  /** Everything those passes selected, in the order they did. */
  function Drained(rows: map<MsgId, Row>, order: seq<MsgId>, now: Time, k: nat): seq<MsgId> {
    if k == 0 then []
    else Drained(rows, order, now, k - 1) + Batch(RowsAfter(rows, order, now, k - 1), order, now)
  }

  /** A stamped row is not selected again at the same time; the others are unaffected. */
  lemma StampUnselects(rows: map<MsgId, Row>, batch: set<MsgId>, now: Time)
    ensures SelectedIds(StampAll(rows, batch, now), now) == SelectedIds(rows, now) - batch
  {
  }

  lemma SkipTake<T>(s: seq<T>, a: nat, b: nat)
    ensures Skip(Skip(s, a), b) == Skip(s, a + b)
    ensures Take(s, a) + Take(Skip(s, a), b) == Take(s, a + b)
  {
  }

  lemma {:induction false} PassesTakeInOrder(rows: map<MsgId, Row>, order: seq<MsgId>, now: Time, k: nat)
    requires Distinct(order)
    ensures var hits := Filter(order, SelectedIds(rows, now));
            && Filter(order, SelectedIds(RowsAfter(rows, order, now, k), now)) == Skip(hits, k * DISPATCH_BATCH_SIZE)
            && Drained(rows, order, now, k) == Take(hits, k * DISPATCH_BATCH_SIZE)
  {
    hide SelectedIds, StampAll, Filter, Members, Distinct;
    if k > 0 {
      var hits, before := Filter(order, SelectedIds(rows, now)), RowsAfter(rows, order, now, k - 1);
      PassesTakeInOrder(rows, order, now, k - 1);
      StampUnselects(before, Members(Batch(before, order, now)), now);
      NextBatch(order, SelectedIds(before, now), DISPATCH_BATCH_SIZE);
      SkipTake(hits, (k - 1) * DISPATCH_BATCH_SIZE, DISPATCH_BATCH_SIZE);
    }
  }

  /**
   At one moment, n eligible rows take exactly n / 200 passes, rounded up, and every eligible row
   is selected exactly once.
   */
  lemma {:induction false} BacklogDrains(rows: map<MsgId, Row>, order: seq<MsgId>, now: Time, k: nat)
    requires Distinct(order) && Members(order) == rows.Keys
    ensures var n := |Filter(order, SelectedIds(rows, now))|;
            && (SelectedIds(RowsAfter(rows, order, now, k), now) == {} <==> k >= (n + 199) / 200)
            && Distinct(Drained(rows, order, now, k))
            && (k >= (n + 199) / 200 ==>
                  Members(Drained(rows, order, now, k)) == SelectedIds(rows, now))
  {
    var keep, left := SelectedIds(rows, now), SelectedIds(RowsAfter(rows, order, now, k), now);
    RowsAfterKeys(rows, order, now, k);
    assert keep <= Members(order) && left <= Members(order);
    PassesTakeInOrder(rows, order, now, k);
    FilterDistinct(order, keep);
    FilterFindsAll(order, keep);
    FilterFindsAll(order, left);
    RoundedUp(|Filter(order, keep)|, k);
    hide SelectedIds, RowsAfter, Drained, Filter;
  }

  lemma RoundedUp(n: nat, k: nat)
    ensures k * DISPATCH_BATCH_SIZE >= n <==> k >= (n + DISPATCH_BATCH_SIZE - 1) / DISPATCH_BATCH_SIZE
  {
  }

  lemma {:induction false} RowsAfterKeys(rows: map<MsgId, Row>, order: seq<MsgId>, now: Time, k: nat)
    ensures RowsAfter(rows, order, now, k).Keys == rows.Keys
  {
    if k > 0 { RowsAfterKeys(rows, order, now, k - 1); }
  }

  // ----- the cleanup loop, on values

  /** After `done` of the expired messages, in query order, have been deleted. */
  ghost predicate CleanupAt(db: Db, db': Db, order: seq<MsgId>, now: Time, done: nat) {
    var hits := Filter(order, ExpiredIds(db.rows, now));
    done <= |hits| && db' == Deleted(db, Members(hits[..done]))
  }

  lemma CleanupStart(db: Db, order: seq<MsgId>, now: Time)
    ensures CleanupAt(db, db, order, now, 0)
  {
  }

  /** The next query returns the expired messages that follow. */
  lemma CleanupQuery(db: Db, db': Db, order: seq<MsgId>, now: Time, done: nat)
    requires Distinct(order) && CleanupAt(db, db', order, now, done)
    ensures Filter(order, ExpiredIds(db'.rows, now)) == Filter(order, ExpiredIds(db.rows, now))[done..]
  {
    var keep := ExpiredIds(db.rows, now);
    NextBatch(order, keep, done);
    assert ExpiredIds(db'.rows, now) == keep - Members(Filter(order, keep)[..done]);
  }

  function Remaining(db: Db, order: seq<MsgId>, now: Time, done: nat): int {
    |Filter(order, ExpiredIds(db.rows, now))| - done
  }

  /** One round of the loop. */
  lemma CleanupBatch(db: Db, db': Db, order: seq<MsgId>, now: Time, done: nat)
    requires Distinct(order) && CleanupAt(db, db', order, now, done)
    ensures var ids := Take(Filter(order, ExpiredIds(db'.rows, now)), CLEANUP_BATCH_SIZE);
            && CleanupAt(db, Deleted(db', Members(ids)), order, now, done + |ids|)
            && Remaining(db, order, now, done) >= |ids|
            && Remaining(db, order, now, done + |ids|) == Remaining(db, order, now, done) - |ids|
            && (|ids| < CLEANUP_BATCH_SIZE ==> Remaining(db, order, now, done + |ids|) == 0)
  {
    hide Filter, ExpiredIds, Members, Deleted, Distinct;
    var hits := Filter(order, ExpiredIds(db.rows, now));
    CleanupQuery(db, db', order, now, done);
    var n := if |hits| - done < CLEANUP_BATCH_SIZE then |hits| - done else CLEANUP_BATCH_SIZE;
    assert Take(hits[done..], CLEANUP_BATCH_SIZE) == hits[done..][..n];
    CleanupAdvance(db, db', order, now, done, n);
  }

  lemma CleanupAdvance(db: Db, db': Db, order: seq<MsgId>, now: Time, done: nat, n: nat)
    requires CleanupAt(db, db', order, now, done)
    requires done + n <= |Filter(order, ExpiredIds(db.rows, now))|
    ensures var ids := Filter(order, ExpiredIds(db.rows, now))[done..][..n];
            CleanupAt(db, Deleted(db', Members(ids)), order, now, done + n)
  {
  }

  lemma CleanupEnd(db: Db, db': Db, order: seq<MsgId>, now: Time, done: nat)
    requires Members(order) == db.rows.Keys && CleanupAt(db, db', order, now, done)
    requires Remaining(db, order, now, done) == 0
    ensures db' == Deleted(db, ExpiredIds(db.rows, now))
  {
    var keep := ExpiredIds(db.rows, now);
    FilterMembers(order, keep);
    var hits := Filter(order, keep);
    assert hits[..done] == hits;
    forall m ensures m in Members(hits) <==> m in keep {
      if m in keep { assert m in Members(order); }
    }
  }

  class Store {
    var rows: map<MsgId, Row>
    var attempts: map<MsgId, seq<Attempt>>
    var letters: map<MsgId, DeadLetter>
    var queue: seq<MsgId> // tasks handed to the broker, in order

    ghost function Contents(): Db
      reads this
    {
      Db(rows, attempts, letters)
    }

    /** The final status and, unless the message has one, its dead letter, in one transaction. */
    method MoveToDeadLetter(m: MsgId, copy: Content, status: Status, error: string, now: Time)
      requires m in rows && (status.Failed? || status.Dead?)
      modifies `rows, `letters
      ensures Contents() == WithVerdict(old(Contents()), m, copy, status, error, now)
    {
      rows := rows[m := rows[m].(status := status, updatedAt := now)];
      if m !in letters {
        var reason := if status.Failed? then "permanent: " + error else "exhausted: " + error;
        letters := letters[m := DeadLetter(reason, TakeSnapshot(m, copy))];
      }
    }

    /** The delivery task: claim, send, record, finish. */
    method Deliver(owner: TaskId, retries: nat, m: MsgId, answer: Answer, claimedAt: Time, finishedAt: Time)
      returns (outcome: RunOutcome)
      modifies `rows, `attempts, `letters
      ensures (Contents(), outcome) == DeliverOnce(old(Contents()), owner, retries, m, answer, claimedAt, finishedAt)
    {
      if m !in rows { return Broken; }
      if Terminal(rows[m].status) { return Skipped; }
      if rows[m].status.Sending? && rows[m].claimedBy != owner { return Ceded; }
      rows := rows[m := rows[m].(status := Sending, claimedBy := owner, updatedAt := claimedAt)];
      var copy := rows[m].content;

      var result := Handled(answer);

      var earlier := if m in attempts then attempts[m] else [];
      var number := |earlier| + 1;
      if exists a :: a in earlier && a.number == number { return Broken; }
      attempts := attempts[m := earlier + [Attempt(number, MapResult(result), result.error)]];

      if result.success {
        rows := rows[m := rows[m].(status := Sent, updatedAt := finishedAt)];
        return Ended(Sent);
      }
      if !result.transient {
        MoveToDeadLetter(m, copy, Failed, result.error, finishedAt);
        return Ended(Failed);
      }
      if retries >= MAX_RETRIES {
        MoveToDeadLetter(m, copy, Dead, result.error, finishedAt);
        return Ended(Dead);
      }
      outcome := AsksForRetry;
    }

    /** The query of a dispatch pass: filter, order, limit. */
    method SelectBatch(order: seq<MsgId>, now: Time) returns (batch: seq<MsgId>)
      ensures batch == Batch(rows, order, now)
    {
      batch := [];
      var i := 0;
      ghost var hits := SelectedIds(rows, now);
      while i < |order| && |batch| < DISPATCH_BATCH_SIZE
        invariant i <= |order| && |batch| <= DISPATCH_BATCH_SIZE
        invariant batch == Filter(order[..i], hits)
      {
        FilterAppend(order[..i], [order[i]], hits);
        assert order[..i + 1] == order[..i] + [order[i]];
        if order[i] in rows && Selected(rows[order[i]], now) { batch := batch + [order[i]]; }
        i := i + 1;
      }
      FilterAppend(order[..i], order[i..], hits);
      assert order == order[..i] + order[i..];
    }

    /** Publishes in order; a broker that fails after `accepts` publications ends the loop. */
    method EnqueueAll(batch: seq<MsgId>, accepts: nat) returns (raised: bool)
      modifies `queue
      ensures raised <==> accepts < |batch|
      ensures queue == old(queue) + Take(batch, accepts)
    {
      var k := 0;
      while k < |batch| && k < accepts
        invariant k <= |batch| && k <= accepts
        invariant queue == old(queue) + batch[..k]
      {
        queue := queue + [batch[k]];
        k := k + 1;
      }
      raised := k < |batch|;
    }

    /**
     One dispatch pass over the table in query order. The stamps are committed before the first
     publication, so when the broker fails the rest of the batch is left without a task.
     */
    method DispatchScheduled(order: seq<MsgId>, now: Time, accepts: nat) returns (batch: seq<MsgId>, raised: bool)
      modifies `rows, `queue
      ensures batch == Batch(old(rows), order, now)
      ensures rows == StampAll(old(rows), Members(batch), now)
      ensures raised <==> accepts < |batch|
      ensures queue == old(queue) + Take(batch, accepts)
    {
      batch := SelectBatch(order, now);
      rows := StampAll(rows, Members(batch), now);
      raised := EnqueueAll(batch, accepts);
    }

    /** DELETE by id: the messages go with their attempts and dead letters, and all rows are counted. */
    method DeleteByIds(ids: seq<MsgId>) returns (deleted: nat)
      modifies `rows, `attempts, `letters
      ensures Contents() == Deleted(old(Contents()), Members(ids))
      ensures Size(old(Contents())) == Size(Contents()) + deleted
    {
      hide Size, Members;
      ghost var db := Contents();
      assert Deleted(db, Members(ids[..0])) == db by { DeletedNone(db, ids); }
      deleted := 0;
      for k := 0 to |ids|
        invariant Contents() == Deleted(db, Members(ids[..k]))
        invariant Size(db) == Size(Contents()) + deleted
      {
        var m := ids[k];
        DeletingOne(Contents(), m);
        if m in rows { deleted := deleted + 1; }
        if m in attempts { deleted := deleted + |attempts[m]|; }
        if m in letters { deleted := deleted + 1; }
        rows, attempts, letters := rows - {m}, attempts - {m}, letters - {m};
        DeletedNext(db, ids, k);
      }
      assert ids[..|ids|] == ids;
    }

    /**
     The cleanup job: deletes batch after batch until one comes back short. The result is by how many
     rows the three tables have shrunk.
     */
    method CleanupOldMessages(order: seq<MsgId>, now: Time) returns (total: nat)
      requires Distinct(order) && Members(order) == rows.Keys
      modifies `rows, `attempts, `letters
      ensures Contents() == Deleted(old(Contents()), ExpiredIds(old(rows), now))
      ensures forall m :: m in old(rows) ==>
                (m !in rows <==>
                   old(rows)[m].status in {Sent, Failed, Dead} && old(rows)[m].createdAt + NINETY_DAYS < now)
      ensures Size(old(Contents())) == Size(Contents()) + total
    {
      hide CleanupAt, Size, Filter, Remaining, Deleted, ExpiredIds, Take, Members, Distinct;
      ghost var db := Contents();
      ghost var done: nat := 0;
      total := 0;
      CleanupStart(db, order, now);
      while true
        invariant CleanupAt(db, Contents(), order, now, done)
        invariant Size(db) == Size(Contents()) + total
        decreases Remaining(db, order, now, done)
      {
        var ids := Take(Filter(order, ExpiredIds(rows, now)), CLEANUP_BATCH_SIZE);
        CleanupBatch(db, Contents(), order, now, done);
        if ids == [] { break; }
        var deleted := DeleteByIds(ids);
        total := total + deleted;
        done := done + |ids|;
        if |ids| < CLEANUP_BATCH_SIZE { break; }
      }
      CleanupEnd(db, Contents(), order, now, done);
      ExpiredMeans(db, now);
    }
  }
}
