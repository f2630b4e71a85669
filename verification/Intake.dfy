/**
 Idempotent creation: any number of concurrent `create_message` calls, each a search, an insert
 and perhaps a second search, against one table with a unique constraint.
 */
module Intake {
  import opened Options

  type Id = string
  type Json = map<string, string>

  const DEFAULT_PRIORITY := "default"

  /** A validated request; the template fields take no part in the comparison. */
  datatype Request = Request(
    apiKey: Option<string>,
    key: string,
    channel: string,
    recipient: string,
    context: Option<Json>,
    scheduledAt: Option<int>,
    priority: Option<string>,
    template: string,
    templateVersion: Option<nat>)

  /** The five fields a stored message is compared on. */
  datatype Payload = Payload(
    channel: string,
    recipient: string,
    context: Json,
    scheduledAt: Option<int>,
    priority: string)

  datatype Entry = Entry(apiKey: Option<string>, key: string, id: Id, payload: Payload)

  function OrElse<T>(o: Option<T>, default: T): T { if o.Some? then o.value else default }

  /** What the insert stores: a missing priority becomes the default, an explicit empty one does not. */
  function Stored(r: Request): Payload {
    Payload(r.channel, r.recipient, OrElse(r.context, map[]), r.scheduledAt, OrElse(r.priority, DEFAULT_PRIORITY))
  }

  /** What a stored message is compared with: here the empty priority counts as missing. */
  function Compared(r: Request): Payload {
    Stored(r).(priority := if r.priority.None? || r.priority.value == "" then DEFAULT_PRIORITY else r.priority.value)
  }

  /** The comparison, field by field as the code does it. */
  predicate PayloadMatches(e: Entry, r: Request) {
    if e.payload.channel != r.channel then false
    else if e.payload.recipient != r.recipient then false
    else if OrElse(r.context, map[]) != e.payload.context then false
    else if r.scheduledAt != e.payload.scheduledAt then false
    else e.payload.priority == if OrElse(r.priority, "") == "" then DEFAULT_PRIORITY else r.priority.value
  }

  predicate HasKey(e: Entry, apiKey: Option<string>, key: string) { e.apiKey == apiKey && e.key == key }

  /** The newest entry under a key. */
  function Find(table: seq<Entry>, apiKey: Option<string>, key: string): Option<Entry> {
    if table == [] then None
    else if HasKey(table[|table| - 1], apiKey, key) then Some(table[|table| - 1])
    else Find(table[..|table| - 1], apiKey, key)
  }

  /** SQL: rows without an API key never collide, because NULLs are distinct. */
  predicate Collides(table: seq<Entry>, r: Request) {
    r.apiKey.Some? && Find(table, r.apiKey, r.key).Some?
  }

  datatype Outcome = Created(id: Id) | Replayed(id: Id) | Conflict | Rejected | Reraised

  function Replay(e: Entry, r: Request): Outcome {
    if PayloadMatches(e, r) then Replayed(e.id) else Conflict
  }

  // ----- the concurrent calls

  datatype Phase = Started | NotFound | Rendered | Collided | Done(outcome: Outcome)

  datatype Call = Call(request: Request, phase: Phase)

  /** One atomic operation in the order in which they took effect. */
  datatype Op = Put(call: nat, request: Request, outcome: Outcome) | Removal(id: Id)

  datatype State = State(table: seq<Entry>, calls: map<nat, Call>, ids: set<Id>, ops: seq<Op>)

  datatype Event =
    | Begin(c: nat, request: Request)
    | Search(c: nat)
    | Render(c: nat, ok: bool)
    | Insert(c: nat, id: Id, breaks: bool) // whether it breaks some other constraint of the table
    | SearchAgain(c: nat)
    | Remove(id: Id) // by the cleanup job

  predicate InPhase(s: State, c: nat, phase: Phase) { c in s.calls && s.calls[c].phase == phase }

  predicate Enabled(s: State, e: Event) {
    match e
    case Begin(c, _) => c !in s.calls
    case Search(c) => InPhase(s, c, Started)
    case Render(c, _) => InPhase(s, c, NotFound)
    case Insert(c, id, _) => InPhase(s, c, Rendered) && id !in s.ids
    case SearchAgain(c) => InPhase(s, c, Collided)
    case Remove(_) => true
  }

  function Goto(s: State, c: nat, phase: Phase): State
    requires c in s.calls
  {
    s.(calls := s.calls[c := s.calls[c].(phase := phase)])
  }

  /** The call returns, and this was the moment its operation took effect. */
  function Return(s: State, c: nat, outcome: Outcome): State
    requires c in s.calls
  {
    Goto(s, c, Done(outcome)).(ops := s.ops + [Put(c, s.calls[c].request, outcome)])
  }

  function Without(table: seq<Entry>, id: Id): seq<Entry> {
    if table == [] then []
    else Without(table[..|table| - 1], id) + if table[|table| - 1].id == id then [] else [table[|table| - 1]]
  }

  function NewEntry(r: Request, id: Id): Entry { Entry(r.apiKey, r.key, id, Stored(r)) }

  function Apply(s: State, e: Event): State
    requires Enabled(s, e)
  {
    match e
    case Begin(c, request) => s.(calls := s.calls[c := Call(request, Started)])
    case Search(c) =>
      var r := s.calls[c].request;
      (match Find(s.table, r.apiKey, r.key)
       case None => Goto(s, c, NotFound)
       case Some(entry) => Return(s, c, Replay(entry, r)))
    case Render(c, ok) => if ok then Goto(s, c, Rendered) else Goto(s, c, Done(Rejected))
    case Insert(c, id, breaks) =>
      var r := s.calls[c].request;
      if breaks || Collides(s.table, r) then Goto(s, c, Collided)
      else Return(s, c, Created(id)).(table := s.table + [NewEntry(r, id)], ids := s.ids + {id})
    case SearchAgain(c) =>
      var r := s.calls[c].request;
      (match Find(s.table, r.apiKey, r.key)
       case None => Goto(s, c, Done(Reraised))
       case Some(entry) => Return(s, c, Replay(entry, r)))
    case Remove(id) => s.(table := Without(s.table, id), ops := s.ops + [Removal(id)])
  }

  function Step(s: State, e: Event): State { if Enabled(s, e) then Apply(s, e) else s }

  function Exec(es: seq<Event>): State {
    if es == [] then State([], map[], {}, []) else Step(Exec(es[..|es| - 1]), es[|es| - 1])
  }

  // ----- the atomic operation

  /** Put-if-absent in one step: what a caller may believe `create_message` to be. */
  function PutIfAbsent(table: seq<Entry>, r: Request, id: Id): (seq<Entry>, Outcome) {
    match Find(table, r.apiKey, r.key)
    case None => (table + [NewEntry(r, id)], Created(id))
    case Some(entry) => (table, Replay(entry, r))
  }

  function IdOf(outcome: Outcome): Id {
    if outcome.Created? || outcome.Replayed? then outcome.id else ""
  }

  /** Without an API key nothing keeps a call from inserting a second row. */
  predicate InsertsAnyway(r: Request, outcome: Outcome) {
    r.apiKey.None? && outcome.Created?
  }

  function Atomically(table: seq<Entry>, op: Op): seq<Entry> {
    match op
    case Removal(id) => Without(table, id)
    case Put(_, r, outcome) =>
      if InsertsAnyway(r, outcome) then table + [NewEntry(r, outcome.id)]
      else PutIfAbsent(table, r, IdOf(outcome)).0
  }

  /** The table after running the operations one at a time. */
  function Sequential(ops: seq<Op>): seq<Entry> {
    if ops == [] then [] else Atomically(Sequential(ops[..|ops| - 1]), ops[|ops| - 1])
  }

  /** The outcome is the one the atomic operation gives. */
  predicate Agrees(table: seq<Entry>, op: Op) {
    op.Put? && !InsertsAnyway(op.request, op.outcome) ==>
      op.outcome == PutIfAbsent(table, op.request, IdOf(op.outcome)).1
  }

  /** Every operation had, in that order, the outcome the atomic operation gives. */
  predicate Legal(ops: seq<Op>) {
    ops == [] || (Legal(ops[..|ops| - 1]) && Agrees(Sequential(ops[..|ops| - 1]), ops[|ops| - 1]))
  }

  // ----- refinement

  /** The entry a key finds is the one with this id. */
  predicate Names(table: seq<Entry>, id: Id, apiKey: Option<string>, key: string) {
    Find(table, apiKey, key).Some? && Find(table, apiKey, key).value.id == id
  }

  /** No removal takes the entry of this key; others may be removed at any time. */
  ghost predicate KeyKept(es: seq<Event>, apiKey: Option<string>, key: string) {
    forall i :: 0 <= i < |es| && es[i].Remove? ==> !Names(Exec(es[..i]).table, es[i].id, apiKey, key)
  }

  lemma KeyKeptBefore(es: seq<Event>, k: nat, apiKey: Option<string>, key: string)
    requires KeyKept(es, apiKey, key) && k <= |es|
    ensures KeyKept(es[..k], apiKey, key)
  {
    hide Exec, Names;
    forall i | 0 <= i < k && es[..k][i].Remove? ensures !Names(Exec(es[..k][..i]).table, es[..k][i].id, apiKey, key) {
      assert es[..k][..i] == es[..i];
    }
  }

  /** The operations of one call, with what they reported. */
  function Reports(ops: seq<Op>, c: nat): seq<(Request, Outcome)> {
    if ops == [] then []
    else
      var op := ops[|ops| - 1];
      Reports(ops[..|ops| - 1], c) + if op.Put? && op.call == c then [(op.request, op.outcome)] else []
  }

  /** A call that returned a message or a conflict counts as one operation; any other as none. */
  function Expected(calls: map<nat, Call>, c: nat): seq<(Request, Outcome)> {
    if c in calls && calls[c].phase.Done? && !calls[c].phase.outcome.Rejected? && !calls[c].phase.outcome.Reraised?
    then [(calls[c].request, calls[c].phase.outcome)]
    else []
  }

  ghost predicate CallsOk(s: State) {
    forall c :: Reports(s.ops, c) == Expected(s.calls, c)
  }

  ghost predicate Refines(s: State) {
    Legal(s.ops) && Sequential(s.ops) == s.table
  }

  /** An event is one atomic operation on the table, or none. */
  ghost predicate StepsAtomically(s: State, t: State) {
    || (t.ops == s.ops && t.table == s.table)
    || (|t.ops| == |s.ops| + 1 && t.ops == s.ops + [t.ops[|s.ops|]]
        && Agrees(s.table, t.ops[|s.ops|]) && t.table == Atomically(s.table, t.ops[|s.ops|]))
  }

  /** An insert that the constraint lets through finds the key free. */
  lemma EventsAreAtomic(s: State, e: Event)
    requires Enabled(s, e)
    ensures StepsAtomically(s, Apply(s, e))
  {
    hide Without, PayloadMatches;
  }

  lemma LegalSnoc(ops: seq<Op>, op: Op)
    requires Legal(ops) && Agrees(Sequential(ops), op)
    ensures Legal(ops + [op]) && Sequential(ops + [op]) == Atomically(Sequential(ops), op)
  {
    hide Agrees, Atomically;
    assert (ops + [op])[..|ops|] == ops;
  }

  lemma RefinesStep(s: State, e: Event)
    requires Refines(s) && Enabled(s, e)
    ensures Refines(Apply(s, e))
  {
    hide Apply, Enabled, Agrees, Atomically;
    var t := Apply(s, e);
    EventsAreAtomic(s, e);
    if t.ops != s.ops { LegalSnoc(s.ops, t.ops[|s.ops|]); }
  }

  lemma ReportsSnoc(ops: seq<Op>, op: Op, c: nat)
    ensures Reports(ops + [op], c)
         == Reports(ops, c) + if op.Put? && op.call == c then [(op.request, op.outcome)] else []
  {
  }

  /** At most one operation takes effect, and it belongs to the call that reports it. */
  lemma OneOperation(s: State, e: Event, c: nat)
    requires Enabled(s, e)
    ensures var t := Apply(s, e);
            || (t.ops == s.ops && Expected(t.calls, c) == Expected(s.calls, c))
            || (|t.ops| == |s.ops| + 1 && t.ops == s.ops + [t.ops[|s.ops|]]
                && var op := t.ops[|s.ops|];
                   Expected(t.calls, c)
                   == Expected(s.calls, c) + if op.Put? && op.call == c then [(op.request, op.outcome)] else [])
  {
  }

  lemma CallsStep(s: State, e: Event)
    requires CallsOk(s) && Enabled(s, e)
    ensures CallsOk(Apply(s, e))
  {
    var t := Apply(s, e);
    forall c ensures Reports(t.ops, c) == Expected(t.calls, c) {
      hide Apply, Reports, Expected;
      OneOperation(s, e, c);
      if t.ops != s.ops { ReportsSnoc(s.ops, t.ops[|s.ops|], c); }
    }
    hide Find, Without, PayloadMatches, Collides, Reports, Expected;
  }

  lemma {:induction false} CallsRefine(es: seq<Event>)
    ensures Refines(Exec(es)) && CallsOk(Exec(es))
  {
    if es != [] {
      var s, e := Exec(es[..|es| - 1]), es[|es| - 1];
      CallsRefine(es[..|es| - 1]);
      if Enabled(s, e) {
        RefinesStep(s, e);
        CallsStep(s, e);
      }
    }
  }

  // ----- the order of effects is an order the callers could observe

  /** A message or a conflict, as opposed to an error before or instead of an answer. */
  predicate Answered(s: State, c: nat) {
    c in s.calls && s.calls[c].phase.Done? && !s.calls[c].phase.outcome.Rejected? && !s.calls[c].phase.outcome.Reraised?
  }

  lemma {:induction false} ReportsOccur(ops: seq<Op>, c: nat, report: (Request, Outcome)) returns (i: nat)
    requires report in Reports(ops, c)
    ensures i < |ops| && ops[i] == Put(c, report.0, report.1)
  {
    var op := ops[|ops| - 1];
    if op == Put(c, report.0, report.1) {
      i := |ops| - 1;
    } else {
      i := ReportsOccur(ops[..|ops| - 1], c, report);
    }
  }

  lemma {:induction false} OpsGrow(es: seq<Event>, k: nat)
    requires k <= |es|
    ensures Exec(es[..k]).ops <= Exec(es).ops
    decreases |es|
  {
    if k == |es| {
      assert es[..k] == es;
    } else {
      assert es[..|es| - 1][..k] == es[..k];
      OpsGrow(es[..|es| - 1], k);
    }
  }

  lemma {:induction false} NoReportNoOp(ops: seq<Op>, c: nat, i: nat)
    requires Reports(ops, c) == [] && i < |ops|
    ensures !(ops[i].Put? && ops[i].call == c)
  {
    if i < |ops| - 1 { NoReportNoOp(ops[..|ops| - 1], c, i); }
  }

  lemma {:induction false} OperationExists(es: seq<Event>, c: nat) returns (i: nat)
    requires Answered(Exec(es), c)
    ensures var s := Exec(es);
            i < |s.ops| && s.ops[i] == Put(c, s.calls[c].request, s.calls[c].phase.outcome)
  {
    var s := Exec(es);
    CallsRefine(es);
    var report := (s.calls[c].request, s.calls[c].phase.outcome);
    assert Reports(s.ops, c) == Expected(s.calls, c) == [report];
    i := ReportsOccur(s.ops, c, report);
  }

  /** A call that was answered before another began takes effect before it: the refinement is linearizable. */
  lemma {:induction false} RealTimeOrder(es: seq<Event>, k: nat, c: nat, d: nat) returns (i: nat, j: nat)
    requires k <= |es| && Answered(Exec(es[..k]), c) && d !in Exec(es[..k]).calls && Answered(Exec(es), d)
    ensures var ops := Exec(es).ops;
            && i < j < |ops|
            && ops[i] == Put(c, Exec(es[..k]).calls[c].request, Exec(es[..k]).calls[c].phase.outcome)
            && ops[j] == Put(d, Exec(es).calls[d].request, Exec(es).calls[d].phase.outcome)
  {
    hide Exec;
    i := OperationExists(es[..k], c);
    j := OperationExists(es, d);
    OpsGrow(es, k);
    CallsRefine(es[..k]);
    var early := Exec(es[..k]);
    assert Reports(early.ops, d) == Expected(early.calls, d);
    if j < |early.ops| { NoReportNoOp(early.ops, d, j); }
  }

  // ----- what one key sees

  lemma FindSnoc(table: seq<Entry>, e: Entry, apiKey: Option<string>, key: string)
    ensures Find(table + [e], apiKey, key) == if HasKey(e, apiKey, key) then Some(e) else Find(table, apiKey, key)
  {
  }

  ghost predicate KeepsKey(ops: seq<Op>, apiKey: Option<string>, key: string) {
    forall i :: 0 <= i < |ops| && ops[i].Removal? ==> !Names(Sequential(ops[..i]), ops[i].id, apiKey, key)
  }

  lemma KeepsKeyBefore(ops: seq<Op>, j: nat, apiKey: Option<string>, key: string)
    requires KeepsKey(ops, apiKey, key) && j <= |ops|
    ensures KeepsKey(ops[..j], apiKey, key)
  {
    hide Sequential, Names;
    forall i | 0 <= i < j && ops[..j][i].Removal?
      ensures !Names(Sequential(ops[..j][..i]), ops[..j][i].id, apiKey, key)
    {
      assert ops[..j][..i] == ops[..i];
    }
  }

  /** Removing another entry does not change what a key finds. */
  lemma {:induction false} FindWithout(table: seq<Entry>, id: Id, apiKey: Option<string>, key: string)
    requires !Names(table, id, apiKey, key)
    ensures Find(Without(table, id), apiKey, key) == Find(table, apiKey, key)
  {
    if table != [] {
      var init, e := table[..|table| - 1], table[|table| - 1];
      if e.id != id {
        assert Without(table, id) == Without(init, id) + [e];
        FindSnoc(Without(init, id), e, apiKey, key);
      } else {
        assert Without(table, id) == Without(init, id);
      }
      if !HasKey(e, apiKey, key) { FindWithout(init, id, apiKey, key); }
    }
  }

  lemma EntryStaysOnce(table: seq<Entry>, op: Op, apiKey: Option<string>, key: string)
    requires apiKey.Some? && Find(table, apiKey, key).Some? && (op.Removal? ==> !Names(table, op.id, apiKey, key))
    ensures Find(Atomically(table, op), apiKey, key) == Find(table, apiKey, key)
  {
    if op.Put? { FindSnoc(table, NewEntry(op.request, IdOf(op.outcome)), apiKey, key); }
    else { FindWithout(table, op.id, apiKey, key); }
  }

  /** An entry, once there, stays the one its key finds. */
  lemma {:induction false} EntryStays(ops: seq<Op>, k: nat, apiKey: Option<string>, key: string)
    requires apiKey.Some? && KeepsKey(ops, apiKey, key)
    requires k <= |ops| && Find(Sequential(ops[..k]), apiKey, key).Some?
    ensures Find(Sequential(ops), apiKey, key) == Find(Sequential(ops[..k]), apiKey, key)
    decreases |ops|
  {
    hide Find, Atomically, Names;
    if k == |ops| {
      assert ops[..k] == ops;
    } else {
      var init, op := ops[..|ops| - 1], ops[|ops| - 1];
      assert init[..k] == ops[..k];
      KeepsKeyBefore(ops, |ops| - 1, apiKey, key);
      EntryStays(init, k, apiKey, key);
      EntryStaysOnce(Sequential(init), op, apiKey, key);
    }
  }

  /** What an operation reported, in terms of the entry its key finds in the end. */
  ghost predicate Truthful(entry: Entry, r: Request, outcome: Outcome) {
    match outcome
    case Created(id) => id == entry.id && Stored(r) == entry.payload
    case Replayed(id) => id == entry.id && Compared(r) == entry.payload
    case Conflict => Compared(r) != entry.payload
    case _ => false
  }

  lemma {:induction false} LegalPrefix(ops: seq<Op>, k: nat)
    requires Legal(ops) && k <= |ops|
    ensures Legal(ops[..k])
    decreases |ops|
  {
    if k == |ops| {
      assert ops[..k] == ops;
    } else {
      assert ops[..|ops| - 1][..k] == ops[..k];
      LegalPrefix(ops[..|ops| - 1], k);
    }
  }

  lemma LastOutcome(ops: seq<Op>, op: Op)
    requires Legal(ops + [op]) && op.Put?
    ensures Legal(ops) && Agrees(Sequential(ops), op)
    ensures Sequential(ops + [op]) == Atomically(Sequential(ops), op)
  {
  }

  lemma OutcomeAt(ops: seq<Op>, i: nat)
    requires Legal(ops) && i < |ops| && ops[i].Put?
    ensures Legal(ops[..i])
    ensures Agrees(Sequential(ops[..i]), ops[i])
    ensures Sequential(ops[..i + 1]) == Atomically(Sequential(ops[..i]), ops[i])
  {
    hide Legal, Sequential, Agrees, Atomically;
    LegalPrefix(ops, i + 1);
    assert ops[..i + 1] == ops[..i] + [ops[i]];
    LastOutcome(ops[..i], ops[i]);
  }

  /** One operation against the entry its key finds right after it. */
  lemma PutIsTruthful(table: seq<Entry>, op: Op)
    requires op.Put? && op.request.apiKey.Some? && Agrees(table, op)
    ensures var r := op.request;
            var f := Find(Atomically(table, op), r.apiKey, r.key);
            f.Some? && Truthful(f.value, r, op.outcome)
  {
    var r := op.request;
    FindSnoc(table, NewEntry(r, IdOf(op.outcome)), r.apiKey, r.key);
  }

  lemma OperationIsTruthful(ops: seq<Op>, i: nat)
    requires Legal(ops) && i < |ops| && ops[i].Put? && ops[i].request.apiKey.Some?
    requires KeepsKey(ops, ops[i].request.apiKey, ops[i].request.key)
    ensures var r := ops[i].request;
            var f := Find(Sequential(ops), r.apiKey, r.key);
            f.Some? && Truthful(f.value, r, ops[i].outcome)
  {
    hide Legal, Sequential, Agrees, Atomically, Find, Truthful, KeepsKey;
    OutcomeAt(ops, i);
    PutIsTruthful(Sequential(ops[..i]), ops[i]);
    EntryStays(ops, i + 1, ops[i].request.apiKey, ops[i].request.key);
  }

  lemma CreatedOnce(ops: seq<Op>, i: nat, j: nat)
    requires Legal(ops) && i < j < |ops| && ops[i].Put? && ops[j].Put? && ops[i].request.apiKey.Some?
    requires KeepsKey(ops, ops[i].request.apiKey, ops[i].request.key)
    requires ops[i].request.apiKey == ops[j].request.apiKey && ops[i].request.key == ops[j].request.key
    ensures !ops[j].outcome.Created?
  {
    hide Legal, Sequential, Find, Truthful, KeepsKey;
    KeepsKeyBefore(ops, j, ops[i].request.apiKey, ops[i].request.key);
    OutcomeAt(ops, j);
    OperationIsTruthful(ops[..j], i);
  }

  /** One more operation that does not take the entry of the key. */
  lemma KeepsKeySnoc(ops: seq<Op>, op: Op, apiKey: Option<string>, key: string)
    requires KeepsKey(ops, apiKey, key) && (op.Removal? ==> !Names(Sequential(ops), op.id, apiKey, key))
    ensures KeepsKey(ops + [op], apiKey, key)
  {
    hide Sequential, Names;
    var more := ops + [op];
    assert more[..|ops|] == ops;
    forall i | 0 <= i < |more| && more[i].Removal? ensures !Names(Sequential(more[..i]), more[i].id, apiKey, key) {
      if i < |ops| { assert more[..i] == ops[..i]; }
    }
  }

  lemma {:induction false} OpsKeepKey(es: seq<Event>, apiKey: Option<string>, key: string)
    requires KeyKept(es, apiKey, key)
    ensures KeepsKey(Exec(es).ops, apiKey, key)
  {
    if es != [] {
      var init, e := es[..|es| - 1], es[|es| - 1];
      var s := Exec(init);
      KeyKeptBefore(es, |es| - 1, apiKey, key);
      OpsKeepKey(init, apiKey, key);
      CallsRefine(init);
      hide KeepsKey, CallsOk, Legal, Find, Without, Names;
      if Enabled(s, e) {
        OneOperation(s, e, 0);
        var t := Apply(s, e);
        if t.ops != s.ops { KeepsKeySnoc(s.ops, t.ops[|s.ops|], apiKey, key); }
      }
    }
  }

  /** The one operation behind an answer. */
  lemma {:induction false} OperationOf(es: seq<Event>, c: nat) returns (i: nat)
    requires Answered(Exec(es), c)
    requires KeyKept(es, Exec(es).calls[c].request.apiKey, Exec(es).calls[c].request.key)
    ensures var s := Exec(es);
            && Refines(s) && KeepsKey(s.ops, s.calls[c].request.apiKey, s.calls[c].request.key)
            && i < |s.ops| && s.ops[i] == Put(c, s.calls[c].request, s.calls[c].phase.outcome)
  {
    hide Exec, Refines, KeepsKey, KeyKept, CallsOk;
    CallsRefine(es);
    OpsKeepKey(es, Exec(es).calls[c].request.apiKey, Exec(es).calls[c].request.key);
    i := OperationExists(es, c);
  }

  /**
   However the calls interleave, and whatever is removed but the entry of this key: an answered call
   reports the entry stored under its key, and a conflict exactly when the payload differs.
   */
  lemma {:induction false} AnswersAreTruthful(es: seq<Event>, c: nat)
    requires Answered(Exec(es), c) && Exec(es).calls[c].request.apiKey.Some?
    requires KeyKept(es, Exec(es).calls[c].request.apiKey, Exec(es).calls[c].request.key)
    ensures var s := Exec(es);
            var r := s.calls[c].request;
            var f := Find(s.table, r.apiKey, r.key);
            f.Some? && Truthful(f.value, r, s.calls[c].phase.outcome)
  {
    hide Exec, Legal, Sequential, Find, Truthful, KeepsKey, KeyKept;
    var i := OperationOf(es, c);
    OperationIsTruthful(Exec(es).ops, i);
  }

  /** Of the calls with one key, at most one reports that it created the message. */
  lemma {:induction false} OneCreator(es: seq<Event>, c: nat, d: nat)
    requires Answered(Exec(es), c) && Answered(Exec(es), d) && c != d && Exec(es).calls[c].request.apiKey.Some?
    requires KeyKept(es, Exec(es).calls[c].request.apiKey, Exec(es).calls[c].request.key)
    requires var s := Exec(es);
             s.calls[c].request.apiKey == s.calls[d].request.apiKey && s.calls[c].request.key == s.calls[d].request.key
    ensures var s := Exec(es); !(s.calls[c].phase.outcome.Created? && s.calls[d].phase.outcome.Created?)
  {
    hide Exec, Legal, Sequential, KeepsKey, KeyKept;
    var i := OperationOf(es, c);
    var j := OperationOf(es, d);
    if i < j { CreatedOnce(Exec(es).ops, i, j); } else { CreatedOnce(Exec(es).ops, j, i); }
  }

  // ----- rows per key

  /** The newest row with both fields equal, and none only if there is no such row. */
  lemma {:induction false} FindIsNewest(table: seq<Entry>, apiKey: Option<string>, key: string)
    ensures match Find(table, apiKey, key)
            case None => forall e :: e in table ==> e.apiKey != apiKey || e.key != key
            case Some(e) =>
              && e.apiKey == apiKey && e.key == key
              && exists i :: 0 <= i < |table| && table[i] == e
                             && forall j :: i < j < |table| ==> table[j].apiKey != apiKey || table[j].key != key
  {
    if table != [] {
      var init, last := table[..|table| - 1], table[|table| - 1];
      FindIsNewest(init, apiKey, key);
      assert table == init + [last];
      if !HasKey(last, apiKey, key) && Find(init, apiKey, key).Some? {
        var i :| 0 <= i < |init| && init[i] == Find(init, apiKey, key).value
                 && forall j :: i < j < |init| ==> init[j].apiKey != apiKey || init[j].key != key;
        assert table[i] == init[i];
      } else if HasKey(last, apiKey, key) {
        assert table[|table| - 1] == last;
      }
    }
  }

  /** Removing an id leaves exactly the rows with other ids. */
  lemma {:induction false} WithoutRemoves(table: seq<Entry>, id: Id)
    ensures forall e :: e in Without(table, id) <==> e in table && e.id != id
  {
    if table != [] {
      WithoutRemoves(table[..|table| - 1], id);
      assert table == table[..|table| - 1] + [table[|table| - 1]];
    }
  }

  /** Two rows have both fields equal. */
  ghost predicate Twice(table: seq<Entry>, apiKey: Option<string>, key: string) {
    exists i, j :: 0 <= i < j < |table| && table[i].apiKey == table[j].apiKey == apiKey
                   && table[i].key == table[j].key == key
  }

  lemma TwiceSnoc(table: seq<Entry>, e: Entry, apiKey: Option<string>, key: string)
    requires Twice(table + [e], apiKey, key)
    ensures Twice(table, apiKey, key)
            || (e.apiKey == apiKey && e.key == key && exists x :: x in table && x.apiKey == apiKey && x.key == key)
  {
    var more := table + [e];
    var i, j :| 0 <= i < j < |more| && more[i].apiKey == more[j].apiKey == apiKey && more[i].key == more[j].key == key;
    assert more[i] == table[i] && table[i] in table;
    if j < |table| { assert more[j] == table[j]; }
  }

  lemma {:induction false} TwiceWithout(table: seq<Entry>, id: Id, apiKey: Option<string>, key: string)
    requires Twice(Without(table, id), apiKey, key)
    ensures Twice(table, apiKey, key)
  {
    var init, e := table[..|table| - 1], table[|table| - 1];
    assert table == init + [e];
    WithoutRemoves(init, id);
    if e.id == id {
      assert Without(table, id) == Without(init, id);
      TwiceWithout(init, id, apiKey, key);
    } else {
      TwiceSnoc(Without(init, id), e, apiKey, key);
      if Twice(Without(init, id), apiKey, key) {
        TwiceWithout(init, id, apiKey, key);
      } else {
        var x :| x in init && x.apiKey == apiKey && x.key == key;
        var i :| 0 <= i < |init| && init[i] == x;
        assert table[i] == x && table[|table| - 1] == e;
      }
    }
  }

  lemma TwiceStep(s: State, e: Event, apiKey: Option<string>, key: string)
    requires apiKey.Some? && Enabled(s, e) && Twice(Apply(s, e).table, apiKey, key)
    ensures Twice(s.table, apiKey, key)
  {
    hide Twice, Without;
    if e.Remove? { TwiceWithout(s.table, e.id, apiKey, key); }
    if e.Insert? && Apply(s, e).table != s.table {
      var r := s.calls[e.c].request;
      FindIsNewest(s.table, apiKey, key);
      TwiceSnoc(s.table, NewEntry(r, e.id), apiKey, key);
    }
  }

  /**
   Whatever runs concurrently, removals included, no two rows have the same API key and the same
   idempotency key.
   */
  lemma {:induction false} AtMostOneRow(es: seq<Event>, apiKey: Option<string>, key: string)
    requires apiKey.Some?
    ensures !Twice(Exec(es).table, apiKey, key)
  {
    if es != [] {
      var s, e := Exec(es[..|es| - 1]), es[|es| - 1];
      AtMostOneRow(es[..|es| - 1], apiKey, key);
      hide Apply, Twice, Enabled;
      if Enabled(s, e) && Twice(Apply(s, e).table, apiKey, key) { TwiceStep(s, e, apiKey, key); }
    }
  }

  /** Without an API key the constraint does not hold two racing calls apart: both create a row. */
  lemma NullKeyDuplicates(r: Request) returns (es: seq<Event>)
    requires r.apiKey.None?
    ensures Twice(Exec(es).table, r.apiKey, r.key)
  {
    es := Prepare([], 0, r);
    es := Prepare(es, 1, r);
    ExecSnoc(es, Insert(0, "a", false));
    es := es + [Insert(0, "a", false)];
    assert Exec(es).table == [] + [NewEntry(r, "a")] && Exec(es).ids == {"a"};
    ExecSnoc(es, Insert(1, "b", false));
    es := es + [Insert(1, "b", false)];
    var table := Exec(es).table;
    assert table == [NewEntry(r, "a")] + [NewEntry(r, "b")];
    assert table[0] == NewEntry(r, "a") && table[1] == NewEntry(r, "b");
  }

  /** A call whose key no row has gets as far as its insert. */
  lemma {:induction false} Prepare(before: seq<Event>, c: nat, r: Request) returns (es: seq<Event>)
    requires c !in Exec(before).calls
    requires forall e :: e in Exec(before).table ==> e.apiKey != r.apiKey || e.key != r.key
    ensures es == before + [Begin(c, r), Search(c), Render(c, true)]
    ensures Exec(es) == Exec(before).(calls := Exec(before).calls[c := Call(r, Rendered)])
  {
    FindIsNewest(Exec(before).table, r.apiKey, r.key);
    ExecSnoc(before, Begin(c, r));
    es := before + [Begin(c, r)];
    ExecSnoc(es, Search(c));
    es := es + [Search(c)];
    ExecSnoc(es, Render(c, true));
    es := es + [Render(c, true)];
  }

  lemma {:induction false} ExecSnoc(es: seq<Event>, e: Event)
    ensures Exec(es + [e]) == Step(Exec(es), e)
  {
  }

  /**
   The exact scope of the guarantee: every interleaving leaves at most one row under the key if
   and only if the caller passes an API key, as the view does.
   */
  lemma UniquenessNeedsAnApiKey(r: Request)
    ensures (forall es :: !Twice(Exec(es).table, r.apiKey, r.key)) <==> r.apiKey.Some?
  {
    if r.apiKey.Some? {
      forall es ensures !Twice(Exec(es).table, r.apiKey, r.key) { AtMostOneRow(es, r.apiKey, r.key); }
    } else {
      var es := NullKeyDuplicates(r);
      hide Exec, Twice;
      assert Twice(Exec(es).table, r.apiKey, r.key);
    }
  }

  // ----- when a call creates

  /** No row has both fields of the request. */
  ghost predicate NewKey(table: seq<Entry>, r: Request) {
    forall e :: e in table ==> e.apiKey != r.apiKey || e.key != r.key
  }

  /** An insert that breaks no other constraint is decided by the rows with both fields equal. */
  lemma InsertIsDecided(s: State, c: nat, id: Id)
    requires InPhase(s, c, Rendered) && id !in s.ids
    ensures var r, t := s.calls[c].request, Step(s, Insert(c, id, false));
            if r.apiKey.None? || NewKey(s.table, r) then
              t.calls[c].phase == Done(Created(id)) && t.table == s.table + [NewEntry(r, id)]
            else t.calls[c].phase == Collided && t.table == s.table
  {
    FindIsNewest(s.table, s.calls[c].request.apiKey, s.calls[c].request.key);
  }

  /** The answer of a search that finds the newest row with both fields equal. */
  ghost predicate AnsweredFromRow(table: seq<Entry>, r: Request, phase: Phase) {
    exists e :: e in table && e.apiKey == r.apiKey && e.key == r.key
                && phase == Done(if PayloadMatches(e, r) then Replayed(e.id) else Conflict)
  }

  /**
   Both searches answer from a row with both fields equal if there is one. If not, the first lets the
   call go on to its template, and the second raises the database error again; neither writes.
   */
  lemma SearchIsDecided(s: State, c: nat)
    ensures InPhase(s, c, Started) ==>
              var t := Step(s, Search(c));
              && t.table == s.table && c in t.calls
              && if NewKey(s.table, s.calls[c].request) then t.calls[c].phase == NotFound
                 else AnsweredFromRow(s.table, s.calls[c].request, t.calls[c].phase)
    ensures InPhase(s, c, Collided) ==>
              var t := Step(s, SearchAgain(c));
              && t.table == s.table && c in t.calls
              && if NewKey(s.table, s.calls[c].request) then t.calls[c].phase == Done(Reraised)
                 else AnsweredFromRow(s.table, s.calls[c].request, t.calls[c].phase)
  {
    if c in s.calls { FindIsNewest(s.table, s.calls[c].request.apiKey, s.calls[c].request.key); }
  }

  /** A call whose template cannot be resolved or rendered stores nothing, then or later. */
  lemma {:induction false} RejectionIsFinal(es: seq<Event>, i: nat, c: nat)
    requires i < |es| && es[i] == Render(c, false) && InPhase(Exec(es[..i]), c, NotFound)
    ensures InPhase(Exec(es), c, Done(Rejected)) && Exec(es[..i + 1]).table == Exec(es[..i]).table
    decreases |es|
  {
    var init, e := es[..|es| - 1], es[|es| - 1];
    if i == |es| - 1 {
      assert es[..i + 1] == es;
    } else {
      assert init[..i] == es[..i] && init[..i + 1] == es[..i + 1];
      RejectionIsFinal(init, i, c);
      if Enabled(Exec(init), e) { ReportsStay(Exec(init), e, c); }
      hide Apply;
    }
  }

  /** A request under a new key creates its message, whatever else is stored or under way. */
  lemma NewKeyCreates(before: seq<Event>, c: nat, r: Request, id: Id)
    requires c !in Exec(before).calls && id !in Exec(before).ids && NewKey(Exec(before).table, r)
    ensures var t := Exec(before + [Begin(c, r), Search(c), Render(c, true), Insert(c, id, false)]);
            && c in t.calls && t.calls[c].phase == Done(Created(id))
            && t.table == Exec(before).table + [NewEntry(r, id)]
  {
    var ready := Prepare(before, c, r);
    InsertIsDecided(Exec(ready), c, id);
    ExecSnoc(ready, Insert(c, id, false));
    assert before + [Begin(c, r), Search(c), Render(c, true), Insert(c, id, false)] == ready + [Insert(c, id, false)];
  }

  /** Call `d` reports that it created the message under this key. */
  ghost predicate CreatedUnder(s: State, d: nat, apiKey: Option<string>, key: string, id: Id) {
    && d in s.calls && s.calls[d].request.apiKey == apiKey && s.calls[d].request.key == key
    && s.calls[d].phase == Done(Created(id))
  }

  /** Every row was created by a call with its two fields. */
  ghost predicate RowsExplained(s: State) {
    forall e :: e in s.table ==> exists d :: CreatedUnder(s, d, e.apiKey, e.key, e.id)
  }

  /** A call that was answered with another message, or refused because of one. */
  predicate MetAnother(s: State, c: nat) {
    c in s.calls && s.calls[c].phase.Done?
    && (s.calls[c].phase.outcome.Replayed? || s.calls[c].phase.outcome.Conflict?)
  }

  ghost predicate CreatorOf(s: State, c: nat, d: nat)
    requires MetAnother(s, c)
  {
    var call := s.calls[c];
    && d != c && d in s.calls && s.calls[d].phase.Done? && s.calls[d].phase.outcome.Created?
    && s.calls[d].request.apiKey == call.request.apiKey && s.calls[d].request.key == call.request.key
    && (call.phase.outcome.Replayed? ==> s.calls[d].phase.outcome.id == call.phase.outcome.id)
  }

  ghost predicate AnswersExplained(s: State) {
    forall c :: MetAnother(s, c) ==> exists d :: CreatorOf(s, c, d)
  }

  /** What a call has reported stays, and at most one call moves. */
  lemma ReportsStay(s: State, e: Event, d: nat)
    requires Enabled(s, e) && d in s.calls && s.calls[d].phase.Done?
    ensures d in Apply(s, e).calls && Apply(s, e).calls[d] == s.calls[d]
  {
    hide Find, Without, PayloadMatches;
  }

  lemma RowsExplainedStep(s: State, e: Event)
    requires RowsExplained(s) && Enabled(s, e)
    ensures RowsExplained(Apply(s, e))
  {
    hide Find, PayloadMatches, Without;
    var t := Apply(s, e);
    if e.Remove? { WithoutRemoves(s.table, e.id); }
    forall x | x in t.table ensures exists d :: CreatedUnder(t, d, x.apiKey, x.key, x.id) {
      if x in s.table {
        var d :| CreatedUnder(s, d, x.apiKey, x.key, x.id);
        ReportsStay(s, e, d);
        assert CreatedUnder(t, d, x.apiKey, x.key, x.id);
      } else {
        assert CreatedUnder(t, e.c, x.apiKey, x.key, x.id);
      }
    }
  }

  lemma AnswersExplainedStep(s: State, e: Event)
    requires RowsExplained(s) && AnswersExplained(s) && Enabled(s, e)
    ensures AnswersExplained(Apply(s, e))
  {
    hide PayloadMatches, Without, Find;
    var t := Apply(s, e);
    forall c | MetAnother(t, c) ensures exists d :: CreatorOf(t, c, d) {
      var d: nat;
      if MetAnother(s, c) {
        d :| CreatorOf(s, c, d);
        ReportsStay(s, e, c);
      } else {
        d := AnsweredFrom(s, e, c);
      }
      ReportsStay(s, e, d);
      assert CreatorOf(t, c, d);
    }
  }

  /** An answer that names another message comes from a row with both fields equal. */
  lemma AnsweredFrom(s: State, e: Event, c: nat) returns (d: nat)
    requires RowsExplained(s) && Enabled(s, e) && MetAnother(Apply(s, e), c) && !MetAnother(s, c)
    ensures d != c && d in s.calls && s.calls[d].phase.Done? && s.calls[d].phase.outcome.Created?
    ensures var call := Apply(s, e).calls[c];
            && s.calls[d].request.apiKey == call.request.apiKey && s.calls[d].request.key == call.request.key
            && (call.phase.outcome.Replayed? ==> s.calls[d].phase.outcome.id == call.phase.outcome.id)
  {
    hide Without;
    var r := s.calls[c].request;
    FindIsNewest(s.table, r.apiKey, r.key);
    var x := Find(s.table, r.apiKey, r.key).value;
    d :| CreatedUnder(s, d, x.apiKey, x.key, x.id);
  }

  /**
   A call is answered with another message, or refused because of one, only if another call with the
   same API key and the same idempotency key created it.
   */
  lemma {:induction false} AnswersHaveCreators(es: seq<Event>)
    ensures RowsExplained(Exec(es)) && AnswersExplained(Exec(es))
  {
    if es != [] {
      var s, e := Exec(es[..|es| - 1]), es[|es| - 1];
      AnswersHaveCreators(es[..|es| - 1]);
      hide RowsExplained, AnswersExplained, Apply, Enabled;
      if Enabled(s, e) {
        RowsExplainedStep(s, e);
        AnswersExplainedStep(s, e);
      }
    }
  }

  predicate HasCreated(s: State, c: nat) {
    c in s.calls && s.calls[c].phase.Done? && s.calls[c].phase.outcome.Created?
  }

  /** Only the call's own insert makes it report a new message, and nothing takes that back. */
  lemma CreatedByInsert(s: State, e: Event, c: nat)
    requires Enabled(s, e) && HasCreated(Apply(s, e), c)
    ensures var call := Apply(s, e).calls[c];
            var id := call.phase.outcome.id;
            if HasCreated(s, c) then s.calls[c] == call
            else
              && e == Insert(c, id, false) && !Collides(s.table, call.request)
              && Apply(s, e).table == s.table + [NewEntry(call.request, id)]
  {
    hide Find, Without, PayloadMatches;
  }

  /** A call that reports a new message made an insert that broke no constraint, and stored its request. */
  lemma {:induction false} CreationStores(es: seq<Event>, c: nat) returns (i: nat)
    requires HasCreated(Exec(es), c)
    ensures var call := Exec(es).calls[c];
            var id := call.phase.outcome.id;
            && i < |es| && es[i] == Insert(c, id, false)
            && Exec(es[..i + 1]).table == Exec(es[..i]).table + [NewEntry(call.request, id)]
            && !Collides(Exec(es[..i]).table, call.request)
  {
    var init, e := es[..|es| - 1], es[|es| - 1];
    assert es[..|es|] == es;
    var s := Exec(init);
    hide Apply, Collides, Enabled;
    if Enabled(s, e) { CreatedByInsert(s, e, c); }
    if HasCreated(s, c) {
      i := CreationStores(init, c);
      assert init[..i] == es[..i] && init[..i + 1] == es[..i + 1];
    } else {
      i := |es| - 1;
    }
  }

  /** Some insert of the call broke another constraint than the one on its key. */
  ghost predicate BreaksAnother(es: seq<Event>, c: nat) {
    exists i :: 0 <= i < |es| && es[i].Insert? && es[i].c == c && es[i].breaks
  }

  /**
   A call whose insert collided finds the winner's row, unless that row was removed meanwhile; so the
   error is raised again only for a call that broke another constraint.
   */
  lemma {:induction false} CollisionIsResolved(es: seq<Event>, c: nat)
    requires c in Exec(es).calls && !BreaksAnother(es, c)
    requires KeyKept(es, Exec(es).calls[c].request.apiKey, Exec(es).calls[c].request.key)
    ensures var s := Exec(es);
            var call := s.calls[c];
            && (call.phase == Collided ==> Find(s.table, call.request.apiKey, call.request.key).Some?)
            && call.phase != Done(Reraised)
  {
    var init, e := es[..|es| - 1], es[|es| - 1];
    var s := Exec(init);
    if c in s.calls {
      var r := s.calls[c].request;
      KeyKeptBefore(es, |es| - 1, r.apiKey, r.key);
      CollisionIsResolved(init, c);
      if e.Insert? && Enabled(s, e) {
        FindSnoc(s.table, NewEntry(s.calls[e.c].request, e.id), r.apiKey, r.key);
      } else if e.Remove? {
        FindWithout(s.table, e.id, r.apiKey, r.key);
      }
    }
  }

  /**
   A call that repeats the request of the one that created the message is answered with that message,
   unless it asks for the empty priority, which is stored as it is and compared as the default.
   */
  lemma {:induction false} RetryIsReplayedExactly(es: seq<Event>, c: nat, d: nat)
    requires Answered(Exec(es), c) && Answered(Exec(es), d) && c != d && Exec(es).calls[c].request.apiKey.Some?
    requires KeyKept(es, Exec(es).calls[c].request.apiKey, Exec(es).calls[c].request.key)
    requires Exec(es).calls[c].request == Exec(es).calls[d].request && Exec(es).calls[c].phase.outcome.Created?
    ensures var s := Exec(es);
            s.calls[d].phase.outcome
            == if s.calls[d].request.priority == Some("") then Conflict else Replayed(s.calls[c].phase.outcome.id)
  {
    hide Exec, Find, KeyKept;
    AnswersAreTruthful(es, c);
    AnswersAreTruthful(es, d);
    OneCreator(es, c, d);
  }

  /** The priority a request is compared with: none given, or an empty one, counts as the default. */
  predicate NamesPriority(r: Request, priority: string) {
    if r.priority == None || r.priority == Some("") then priority == "default" else r.priority == Some(priority)
  }

  predicate NamesContext(r: Request, context: Json) {
    if r.context == None then context == map[] else r.context == Some(context)
  }

  /** A row matches a request exactly when five fields agree; the template plays no part. */
  lemma MatchIsFiveFields(e: Entry, r: Request)
    ensures PayloadMatches(e, r) <==> Compared(r) == e.payload
    ensures PayloadMatches(e, r) <==>
              && e.payload.channel == r.channel && e.payload.recipient == r.recipient
              && NamesContext(r, e.payload.context) && e.payload.scheduledAt == r.scheduledAt
              && NamesPriority(r, e.payload.priority)
    ensures forall t, v :: PayloadMatches(e, r.(template := t, templateVersion := v)) <==> PayloadMatches(e, r)
  {
  }

  /** What the row of a new message holds. */
  lemma RowHoldsRequest(r: Request, id: Id)
    ensures var e := NewEntry(r, id);
            && e.id == id && e.apiKey == r.apiKey && e.key == r.key
            && e.payload.channel == r.channel && e.payload.recipient == r.recipient
            && NamesContext(r, e.payload.context) && e.payload.scheduledAt == r.scheduledAt
            && e.payload.priority == if r.priority == None then "default" else r.priority.value
  {
  }

  /** When a request matches the row that another one created, on the fields of the two requests. */
  lemma RequestMatchesRowOf(first: Request, second: Request, id: Id)
    ensures PayloadMatches(NewEntry(first, id), second) <==>
              && first.channel == second.channel && first.recipient == second.recipient
              && (first.context == second.context
                  || (first.context in {None, Some(map[])} && second.context in {None, Some(map[])}))
              && first.scheduledAt == second.scheduledAt
              && (if second.priority in {None, Some("")} then first.priority in {None, Some("default")}
                  else first.priority == second.priority
                       || (first.priority == None && second.priority == Some("default")))
  {
  }
}
