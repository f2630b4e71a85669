/**
 The resolver's slots and threads under every interleaving of callers, the pool and the clock. A slot
 is taken before a lookup is submitted and given back in the lookup's `finally`, which is before its
 thread is ready for the next one.
 */
module ResolverPool {
  import opened Options
  import opened Resolver

  /** A call, named by a number, and the lookup it makes. */
  type Call = nat

  datatype Stage =
    | Holding   // took a slot, not submitted yet
    | Queued    // submitted, no thread has picked it up
    | Resolving // on a thread, slot held
    | Leaving   // slot given back, thread not idle yet
    | Done      // thread idle again
    | Leaked    // took a slot, submission raised and kept nothing

  /** `free` are the permits of the semaphore; `asking` are the callers still waiting. */
  datatype Pool = Pool(free: int, calls: map<Call, Stage>, asking: set<Call>)

  datatype PoolEvent =
    | Acquire(c: Call)
    | Submit(c: Call)
    | SubmitRaises(c: Call, lost: bool) // whether it raised before the lookup was in the queue
    | Start(c: Call)
    | Release(c: Call)
    | Idle(c: Call)
    | GiveUp(c: Call)

  predicate IsAt(s: Pool, c: Call, stage: Stage) {
    c in s.calls && s.calls[c] == stage
  }

  function At(calls: map<Call, Stage>, stage: Stage): set<Call> {
    set c | c in calls && calls[c] == stage
  }

  function Count(s: Pool, stage: Stage): nat {
    |At(s.calls, stage)|
  }

  /** Threads that are idle or not created yet. */
  function IdleThreads(s: Pool): int {
    RESOLVER_THREADS - Count(s, Resolving) - Count(s, Leaving)
  }

  predicate Possible(s: Pool, e: PoolEvent) {
    match e
    case Acquire(c) => c !in s.calls && s.free > 0
    case Submit(c) => IsAt(s, c, Holding)
    case SubmitRaises(c, _) => IsAt(s, c, Holding)
    case Start(c) => IsAt(s, c, Queued) && IdleThreads(s) > 0
    case Release(c) => IsAt(s, c, Resolving)
    case Idle(c) => IsAt(s, c, Leaving)
    case GiveUp(c) => c in s.asking
  }

  function PoolStep(s: Pool, e: PoolEvent): Pool {
    if !Possible(s, e) then s
    else match e
      case Acquire(c) => s.(calls := s.calls[c := Holding], free := s.free - 1)
      case Submit(c) => s.(calls := s.calls[c := Queued], asking := s.asking + {c})
      case SubmitRaises(c, lost) => s.(calls := s.calls[c := if lost then Leaked else Queued])
      case Start(c) => s.(calls := s.calls[c := Resolving])
      case Release(c) => s.(calls := s.calls[c := Leaving], free := s.free + 1)
      case Idle(c) => s.(calls := s.calls[c := Done], asking := s.asking - {c})
      case GiveUp(c) => s.(asking := s.asking - {c})
  }

  function PoolRun(es: seq<PoolEvent>): Pool {
    if es == [] then Pool(RESOLVER_THREADS, map[], {})
    else PoolStep(PoolRun(es[..|es| - 1]), es[|es| - 1])
  }

  /** Slots in the hands of a call that will give them back. */
  function Held(s: Pool): nat {
    Count(s, Holding) + Count(s, Queued) + Count(s, Resolving)
  }

  ghost predicate PoolOk(s: Pool) {
    && s.free + Held(s) + Count(s, Leaked) == RESOLVER_THREADS && 0 <= s.free
    && 0 <= IdleThreads(s)
    && forall c :: c in s.asking ==> IsAt(s, c, Queued) || IsAt(s, c, Resolving) || IsAt(s, c, Leaving)
  }

  /** A call that moves on is counted at its new stage instead of its old one. */
  lemma CallMoves(calls: map<Call, Stage>, c: Call, to: Stage, stage: Stage)
    ensures |At(calls[c := to], stage)|
         == |At(calls, stage)| - Bit(c in calls && calls[c] == stage) + Bit(stage == to)
  {
    hide At;
    var before, after := At(calls, stage), At(calls[c := to], stage);
    AtMeans(calls, stage);
    AtMeans(calls[c := to], stage);
    assert before - {c} == after - {c};
    assert |before - {c}| == |before| - Bit(c in before);
    assert |after - {c}| == |after| - Bit(c in after);
  }

  lemma AtMeans(calls: map<Call, Stage>, stage: Stage)
    ensures forall c :: c in At(calls, stage) <==> c in calls && calls[c] == stage
  {
  }

  /** The stage an event brings its call to. */
  function Target(e: PoolEvent): Stage
    requires !e.GiveUp?
  {
    match e
    case Acquire(_) => Holding
    case Submit(_) => Queued
    case SubmitRaises(_, lost) => if lost then Leaked else Queued
    case Start(_) => Resolving
    case Release(_) => Leaving
    case Idle(_) => Done
  }

  lemma PoolOkStep(s: Pool, e: PoolEvent)
    requires PoolOk(s)
    ensures PoolOk(PoolStep(s, e))
  {
    hide At;
    if !e.GiveUp? {
      var calls := s.calls[e.c := Target(e)];
      forall stage
        ensures |At(calls, stage)| == |At(s.calls, stage)| - Bit(IsAt(s, e.c, stage)) + Bit(stage == Target(e))
      {
        CallMoves(s.calls, e.c, Target(e), stage);
      }
    }
  }

  lemma {:induction false} PoolHolds(es: seq<PoolEvent>)
    ensures PoolOk(PoolRun(es))
  {
    if es == [] {
      assert forall stage :: At(map[], stage) == {};
    } else {
      PoolHolds(es[..|es| - 1]);
      PoolOkStep(PoolRun(es[..|es| - 1]), es[|es| - 1]);
    }
  }

  // ----- what a raising submission costs

  /** Some submission raised after its slot was taken and before its lookup was in the queue. */
  ghost predicate SomeSlotLost(es: seq<PoolEvent>) {
    exists i :: 0 <= i < |es| && LostAt(es, i)
  }

  ghost predicate LostAt(es: seq<PoolEvent>, i: nat)
    requires i < |es|
  {
    es[i].SubmitRaises? && es[i].lost && Possible(PoolRun(es[..i]), es[i])
  }

  lemma LostBefore(es: seq<PoolEvent>, i: nat, n: nat)
    requires i < n <= |es|
    ensures LostAt(es[..n], i) <==> LostAt(es, i)
  {
    assert es[..n][..i] == es[..i];
  }

  lemma {:induction false} LeaksCome(es: seq<PoolEvent>)
    ensures At(PoolRun(es).calls, Leaked) != {} <==> SomeSlotLost(es)
  {
    if es != [] {
      var n := |es| - 1;
      var s := PoolRun(es[..n]);
      LeaksCome(es[..n]);
      LeakStep(s, es[n]);
      assert LostAt(es, n) <==> es[n].SubmitRaises? && es[n].lost && Possible(s, es[n]);
      forall i | 0 <= i < n ensures LostAt(es[..n], i) <==> LostAt(es, i) { LostBefore(es, i, n); }
      if i :| 0 <= i < n && LostAt(es[..n], i) { assert LostAt(es, i); }
      if i :| 0 <= i < |es| && LostAt(es, i) { assert i < n ==> LostAt(es[..n], i); }
    }
  }

  lemma LeakStep(s: Pool, e: PoolEvent)
    ensures At(PoolStep(s, e).calls, Leaked) != {} <==>
              At(s.calls, Leaked) != {} || (e.SubmitRaises? && e.lost && Possible(s, e))
  {
    var t := PoolStep(s, e);
    if c :| c in At(s.calls, Leaked) { assert c in At(t.calls, Leaked); }
    if e.SubmitRaises? && e.lost && Possible(s, e) { assert e.c in At(t.calls, Leaked); }
  }

  /**
   Over every run, timeouts included: free and held slots add up to four if and only if no submission
   ever raised before its lookup was in the queue; the difference is the number of calls whose
   submission did. A submission that raises later leaves its slot to the thread that runs the lookup.
   */
  lemma {:induction false} SlotsAreConservedExactly(es: seq<PoolEvent>)
    ensures var s := PoolRun(es);
            && (s.free + Held(s) == 4 <==> !SomeSlotLost(es))
            && s.free + Held(s) == 4 - Count(s, Leaked) && 0 <= s.free <= 4
  {
    PoolHolds(es);
    LeaksCome(es);
  }

  /** Every slot is leaked: nothing can happen any more. */
  lemma {:induction false} StaysStuck(es: seq<PoolEvent>, more: seq<PoolEvent>)
    requires var s := PoolRun(es);
             s.free == 0 && s.asking == {} && forall c :: c in s.calls ==> s.calls[c] == Leaked
    ensures PoolRun(es + more) == PoolRun(es)
    decreases |more|
  {
    if more == [] {
      assert es + more == es;
    } else {
      var init := more[..|more| - 1];
      StaysStuck(es, init);
      assert es + more == (es + init) + [more[|more| - 1]];
      RunSnoc(es + init, more[|more| - 1]);
    }
  }

  /** Four raising submissions, and no call with a time limit is ever looked up again. */
  lemma FourLeaks() returns (es: seq<PoolEvent>)
    ensures forall more :: PoolRun(es + more).free == 0 && PoolRun(es + more) == PoolRun(es)
    ensures Held(PoolRun(es)) == 0
  {
    es := [];
    assert PoolRun(es) == Pool(RESOLVER_THREADS, map[], {});
    hide PoolRun;
    for k := 0 to RESOLVER_THREADS
      invariant PoolRun(es).free == RESOLVER_THREADS - k && PoolRun(es).asking == {}
      invariant forall c :: c in PoolRun(es).calls ==> c < k && PoolRun(es).calls[c] == Leaked
    {
      RunSnoc(es, Acquire(k));
      RunSnoc(es + [Acquire(k)], SubmitRaises(k, true));
      es := es + [Acquire(k)] + [SubmitRaises(k, true)];
    }
    var s := PoolRun(es);
    assert At(s.calls, Holding) == At(s.calls, Queued) == At(s.calls, Resolving) == {};
    forall more: seq<PoolEvent> ensures PoolRun(es + more) == s { StaysStuck(es, more); }
  }

  // ----- what a lookup may have to wait for

  /** Some lookup is in the queue and no thread is left for it, counting those not started yet. */
  predicate Waits(s: Pool) {
    Count(s, Queued) > IdleThreads(s)
  }

  /**
   In every run a lookup waits for a thread if and only if the threads that have given their slot back
   and are not idle yet outnumber the slots that are free, leaked or taken without a submission. So it
   never waits for another lookup to be resolved; every caller waits for a lookup under way.
   */
  lemma {:induction false} WaitsExactly(es: seq<PoolEvent>)
    ensures var s := PoolRun(es);
            && (Waits(s) <==> Count(s, Leaving) > s.free + Count(s, Holding) + Count(s, Leaked))
            && Count(s, Queued) <= IdleThreads(s) + Count(s, Leaving)
            && forall c :: c in s.asking ==> IsAt(s, c, Queued) || IsAt(s, c, Resolving) || IsAt(s, c, Leaving)
  {
    PoolHolds(es);
  }

  /** What callers do, as opposed to the pool's threads. */
  predicate CallerStep(e: PoolEvent) {
    e.Acquire? || e.Submit? || e.SubmitRaises? || e.GiveUp?
  }

  ghost predicate CallersGoOn(before: seq<PoolEvent>, es: seq<PoolEvent>) {
    before <= es && forall i :: |before| <= i < |es| ==> CallerStep(es[i])
  }

  lemma CallerKeeps(s: Pool, e: PoolEvent)
    requires CallerStep(e)
    ensures Count(PoolStep(s, e), Leaving) == Count(s, Leaving)
    ensures Count(PoolStep(s, e), Leaked) >= Count(s, Leaked)
  {
    hide At;
    if !e.GiveUp? {
      CallMoves(s.calls, e.c, Target(e), Leaving);
      CallMoves(s.calls, e.c, Target(e), Leaked);
    }
  }

  lemma {:induction false} CallersKeep(before: seq<PoolEvent>, es: seq<PoolEvent>)
    requires CallersGoOn(before, es)
    ensures Count(PoolRun(es), Leaving) == Count(PoolRun(before), Leaving)
    ensures Count(PoolRun(es), Leaked) >= Count(PoolRun(before), Leaked)
    decreases |es|
  {
    hide Count;
    if |es| == |before| {
      assert es == before;
    } else {
      CallersKeep(before, es[..|es| - 1]);
      CallerKeeps(PoolRun(es[..|es| - 1]), es[|es| - 1]);
    }
  }

  lemma {:induction false} NewCall(used: set<Call>) returns (c: Call)
    ensures c !in used && forall u :: u in used ==> u < c
    decreases used
  {
    if used == {} {
      c := 0;
    } else {
      var u :| u in used;
      var rest := NewCall(used - {u});
      c := if rest <= u then u + 1 else rest;
      forall v | v in used ensures v < c { assert v != u ==> v in used - {u}; }
    }
  }

  /** The callers take all free slots and submit all they have taken. */
  lemma {:induction false} TakeAll(before: seq<PoolEvent>) returns (es: seq<PoolEvent>)
    requires PoolRun(before).free >= 0
    ensures CallersGoOn(before, es) && PoolRun(es).free == 0 && Count(PoolRun(es), Holding) == 0
    ensures Count(PoolRun(es), Leaked) == Count(PoolRun(before), Leaked)
    decreases PoolRun(before).free, Count(PoolRun(before), Holding)
  {
    var s := PoolRun(before);
    if s.free == 0 && Count(s, Holding) == 0 {
      es := before;
    } else {
      var c;
      var e;
      if s.free > 0 {
        c := NewCall(s.calls.Keys);
        e := Acquire(c);
      } else {
        c :| c in At(s.calls, Holding);
        e := Submit(c);
      }
      RunSnoc(before, e);
      CallMoves(s.calls, c, Target(e), Holding);
      CallMoves(s.calls, c, Target(e), Leaked);
      hide At, PoolRun;
      es := TakeAll(before + [e]);
    }
  }

  /**
   From any state of any run, callers alone can bring a lookup to wait for a thread if and only if
   more threads are on their way from one lookup to the next than slots have leaked.
   */
  lemma {:induction false} CallersCanMakeOneWaitExactly(before: seq<PoolEvent>)
    ensures (exists es :: CallersGoOn(before, es) && Waits(PoolRun(es)))
            <==> Count(PoolRun(before), Leaving) > Count(PoolRun(before), Leaked)
  {
    hide Count, PoolRun, CallersGoOn, Waits;
    if es :| CallersGoOn(before, es) && Waits(PoolRun(es)) {
      CallersKeep(before, es);
      WaitsExactly(es);
      SlotsAreConservedExactly(es);
    }
    SlotsAreConservedExactly(before);
    var all := TakeAll(before);
    CallersKeep(before, all);
    WaitsExactly(all);
  }

  lemma RunSnoc(es: seq<PoolEvent>, e: PoolEvent)
    ensures PoolRun(es + [e]) == PoolStep(PoolRun(es), e)
  {
  }

  /** A new call is submitted. */
  lemma Submitted(before: seq<PoolEvent>, c: Call) returns (es: seq<PoolEvent>)
    requires Possible(PoolRun(before), Acquire(c))
    ensures var s, t := PoolRun(before), PoolRun(es);
            t.free == s.free - 1 && t.calls == s.calls[c := Queued] && IdleThreads(t) == IdleThreads(s)
  {
    var s := PoolRun(before);
    RunSnoc(before, Acquire(c));
    RunSnoc(before + [Acquire(c)], Submit(c));
    es := before + [Acquire(c)] + [Submit(c)];
    hide At;
    assert PoolRun(es).calls == s.calls[c := Queued];
    CallMoves(s.calls, c, Queued, Resolving);
    CallMoves(s.calls, c, Queued, Leaving);
  }

  /** A new call is looked up, and its thread has given the slot back. */
  lemma LookedUp(before: seq<PoolEvent>, c: Call) returns (es: seq<PoolEvent>)
    requires Possible(PoolRun(before), Acquire(c)) && IdleThreads(PoolRun(before)) > 0
    ensures var s, t := PoolRun(before), PoolRun(es);
            t.free == s.free && t.calls == s.calls[c := Leaving] && IdleThreads(t) == IdleThreads(s) - 1
  {
    hide At;
    var s := PoolRun(before);
    var queued := Submitted(before, c);
    RunSnoc(queued, Start(c));
    RunSnoc(queued + [Start(c)], Release(c));
    es := queued + [Start(c)] + [Release(c)];
    assert PoolRun(es).calls == s.calls[c := Leaving];
    CallMoves(s.calls, c, Leaving, Resolving);
    CallMoves(s.calls, c, Leaving, Leaving);
  }

  /** A lookup that has its slot and finds no thread: four threads have released and are not idle yet. */
  lemma LookupMayQueue() returns (es: seq<PoolEvent>, c: Call)
    ensures var s := PoolRun(es); IsAt(s, c, Queued) && IdleThreads(s) == 0 && Count(s, Resolving) == 0
    ensures !Possible(PoolRun(es), Start(c))
  {
    hide At;
    es := [];
    PoolHolds(es);
    AtMeans(map[], Resolving);
    AtMeans(map[], Leaving);
    assert At(map[], Resolving) == {} && At(map[], Leaving) == {};
    for k := 0 to RESOLVER_THREADS
      invariant var s := PoolRun(es);
                s.free == RESOLVER_THREADS && IdleThreads(s) == RESOLVER_THREADS - k && Count(s, Resolving) == 0
      invariant forall c :: c in PoolRun(es).calls ==> c < k
    {
      var s := PoolRun(es);
      es := LookedUp(es, k);
      CallMoves(s.calls, k, Leaving, Resolving);
    }
    c := RESOLVER_THREADS;
    var s := PoolRun(es);
    es := Submitted(es, c);
    CallMoves(s.calls, c, Queued, Resolving);
  }

  // ----- the pool comes to rest

  /** A caller whose time is up leaves; its lookup goes on and keeps its slot. */
  lemma TimeoutsTouchNoSlot(s: Pool, c: Call)
    requires c in s.asking
    ensures var t := PoolStep(s, GiveUp(c));
            c !in t.asking && t.calls == s.calls && t.free == s.free && Held(t) == Held(s)
  {
  }

  /** How far the calls under way are from their end. */
  function StepsLeft(s: Pool): nat {
    4 * Count(s, Holding) + 3 * Count(s, Queued) + 2 * Count(s, Resolving) + Count(s, Leaving)
  }

  /** Some call under way can always go on. */
  lemma SomeCallGoesOn(s: Pool) returns (e: PoolEvent)
    requires StepsLeft(s) > 0
    ensures Possible(s, e) && !e.GiveUp? && !e.SubmitRaises? && !e.Acquire? && StepsLeft(PoolStep(s, e)) < StepsLeft(s)
    ensures Count(PoolStep(s, e), Leaked) == Count(s, Leaked)
  {
    if c :| c in At(s.calls, Leaving) {
      e := Idle(c);
    } else if c :| c in At(s.calls, Resolving) {
      e := Release(c);
    } else if c :| c in At(s.calls, Queued) {
      e := Start(c);
    } else {
      var c :| c in At(s.calls, Holding);
      e := Submit(c);
    }
    AtMeans(s.calls, Leaving);
    hide At;
    forall stage
      ensures |At(s.calls[e.c := Target(e)], stage)|
           == |At(s.calls, stage)| - Bit(IsAt(s, e.c, stage)) + Bit(stage == Target(e))
    {
      CallMoves(s.calls, e.c, Target(e), stage);
    }
  }

  /**
   From any state of any run the calls under way can come to their end; then every slot is free that
   has not leaked, every thread is idle and no caller waits.
   */
  lemma {:induction false} PoolComesToRest(before: seq<PoolEvent>) returns (es: seq<PoolEvent>)
    ensures before <= es
    ensures var s := PoolRun(es);
            && Held(s) == 0 && IdleThreads(s) == 4 && s.asking == {}
            && s.free == 4 - Count(PoolRun(before), Leaked)
    decreases StepsLeft(PoolRun(before))
  {
    var s := PoolRun(before);
    if StepsLeft(s) == 0 {
      es := before;
      PoolHolds(es);
      forall c ensures c !in s.asking {
        assert c in s.asking ==> c in At(s.calls, Queued) + At(s.calls, Resolving) + At(s.calls, Leaving);
      }
    } else {
      var e := SomeCallGoesOn(s);
      RunSnoc(before, e);
      hide PoolRun, Count, StepsLeft;
      es := PoolComesToRest(before + [e]);
    }
  }
}
