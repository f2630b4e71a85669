/**
 The token bucket: the lazily refilled, expiring hash the script keeps in Redis against a bucket
 that is topped up every millisecond and never forgotten. Exact reals throughout.
 */
module Bucket {
  import opened Options

  /** Tokens per second, and the most the bucket holds. */
  datatype Limits = Limits(rate: real, burst: int)

  /** What the script keeps under a key; the key may disappear from `expireAt` (ms) on. */
  datatype Stored = Stored(tokens: real, last: int, expireAt: int)

  datatype BucketResult = BucketResult(allowed: bool, remaining: real, retryAfterMs: int)

  predicate Positive(p: Limits) { p.rate > 0.0 && p.burst > 0 }

  function Ceil(x: real): int { -((-x).Floor) }

  function Min(a: real, b: real): real { if a <= b then a else b }

  function Gain(p: Limits, ms: int): real { (ms as real * p.rate) / 1000.0 }

  function TtlSeconds(p: Limits): int
    requires Positive(p)
  {
    Ceil(p.burst as real / p.rate) + 1
  }

  function Elapsed(last: int, now: int): nat { if now < last then 0 else now - last }

  /** The tokens the script finds before it decides. */
  function Available(p: Limits, stored: Option<Stored>, now: int): real {
    match stored
    case None => Min(p.burst as real, p.burst as real + Gain(p, 0))
    case Some(s) => Min(p.burst as real, s.tokens + Gain(p, Elapsed(s.last, now)))
  }

  /** The decision on `tokens` available tokens. */
  function Decision(p: Limits, tokens: real, req: int): BucketResult
    requires Positive(p)
  {
    if tokens >= req as real then BucketResult(true, tokens - req as real, 0)
    else BucketResult(false, tokens, Ceil(((req as real - tokens) * 1000.0) / p.rate))
  }

  /** One execution of the script: the new hash and the reply. */
  function Script(p: Limits, stored: Option<Stored>, now: int, req: int): (Stored, BucketResult)
    requires Positive(p)
  {
    var r := Decision(p, Available(p, stored, now), req);
    (Stored(r.remaining, now, now + TtlSeconds(p) * 1000), r)
  }

  // ----- the simple bucket

  /** One millisecond passes. */
  function Tick(p: Limits, tokens: real): real { Min(p.burst as real, tokens + p.rate / 1000.0) }

  function Ticks(p: Limits, tokens: real, n: nat): real {
    if n == 0 then tokens else Tick(p, Ticks(p, tokens, n - 1))
  }

  /** Level at time `at`; a bucket nobody used yet is full. */
  datatype Eager = Eager(tokens: real, at: int)

  function Level(p: Limits, e: Option<Eager>, now: int): real {
    if e.None? then p.burst as real else Ticks(p, e.value.tokens, Elapsed(e.value.at, now))
  }

  /** A call takes what it asks for if that is there, and otherwise nothing. */
  function EagerCall(p: Limits, e: Option<Eager>, c: Request): (Eager, BucketResult)
    requires Positive(p)
  {
    var level := Level(p, e, c.now);
    var missing := c.req as real - level;
    if missing <= 0.0 then (Eager(-missing, c.now), BucketResult(true, -missing, 0))
    else (Eager(level, c.now), BucketResult(false, level, Ceil(missing * 1000.0 / p.rate)))
  }

  // ----- call sequences

  datatype Request = Request(now: int, req: int)

  predicate Monotone(cs: seq<Request>) {
    forall i, j :: 0 <= i < j < |cs| ==> cs[i].now <= cs[j].now
  }

  predicate Wellformed(cs: seq<Request>) {
    forall i :: 0 <= i < |cs| ==> cs[i].req > 0
  }

  /** What Redis shows the script: an expired key may be gone. */
  function Seen(stored: Option<Stored>, now: int, purged: bool): Option<Stored> {
    if purged && stored.Some? && now >= stored.value.expireAt then None else stored
  }

  /** All replies, in order; `purged[i]` says whether Redis had dropped the key if it was expired. */
  function Replies(p: Limits, stored: Option<Stored>, cs: seq<Request>, purged: seq<bool>): seq<BucketResult>
    requires Positive(p) && |cs| == |purged|
    decreases |cs|
  {
    if cs == [] then []
    else
      var (next, r) := Script(p, Seen(stored, cs[0].now, purged[0]), cs[0].now, cs[0].req);
      [r] + Replies(p, Some(next), cs[1..], purged[1..])
  }

  function EagerReplies(p: Limits, e: Option<Eager>, cs: seq<Request>): seq<BucketResult>
    requires Positive(p)
    decreases |cs|
  {
    if cs == [] then []
    else
      var (next, r) := EagerCall(p, e, cs[0]);
      [r] + EagerReplies(p, Some(next), cs[1..])
  }

  /** A hash as the script leaves it. */
  ghost predicate Sound(p: Limits, stored: Option<Stored>)
    requires Positive(p)
  {
    stored.Some? ==>
      && 0.0 <= stored.value.tokens <= p.burst as real
      && stored.value.expireAt == stored.value.last + TtlSeconds(p) * 1000
  }

  // ----- arithmetic

  lemma CeilIsLeast(x: real, n: int)
    ensures n >= Ceil(x) <==> n as real >= x
  {
  }

  lemma GainGrows(p: Limits, a: int, b: int)
    requires Positive(p) && a <= b
    ensures Gain(p, a) <= Gain(p, b)
  {
  }

  lemma GainAdds(p: Limits, a: int, b: int)
    ensures Gain(p, a + b) == Gain(p, a) + Gain(p, b)
  {
  }

  /** By the time a key may expire, the bucket is full again. */
  lemma TtlCoversFullRefill(p: Limits, ms: int)
    requires Positive(p) && ms >= TtlSeconds(p) * 1000
    ensures Gain(p, ms) >= p.burst as real
  {
  }

  /** The lazy refill is the sum of the ticks. */
  lemma {:induction false} TicksAreLazy(p: Limits, tokens: real, n: nat)
    requires Positive(p) && tokens <= p.burst as real
    ensures Ticks(p, tokens, n) == Min(p.burst as real, tokens + Gain(p, n))
  {
    if n > 0 {
      TicksAreLazy(p, tokens, n - 1);
      GainAdds(p, n - 1, 1);
      assert Gain(p, 1) == p.rate / 1000.0;
    } else {
      assert Gain(p, 0) == 0.0;
    }
  }

  lemma {:induction false} TicksAdd(p: Limits, tokens: real, a: nat, b: nat)
    ensures Ticks(p, Ticks(p, tokens, a), b) == Ticks(p, tokens, a + b)
  {
    if b > 0 { TicksAdd(p, tokens, a, b - 1); }
  }

  // ----- expiry is invisible

  /** Dropping an expired key does not change what the script finds. */
  lemma ExpiryIsInvisible(p: Limits, stored: Option<Stored>, now: int, purged: bool)
    requires Positive(p) && Sound(p, stored)
    ensures Available(p, Seen(stored, now, purged), now) == Available(p, stored, now)
    ensures 0.0 <= Available(p, stored, now) <= p.burst as real
  {
    assert Gain(p, 0) == 0.0;
    if stored.Some? {
      var ms := Elapsed(stored.value.last, now);
      GainGrows(p, 0, ms);
      assert TtlSeconds(p) >= 0 by {
        CeilIsLeast(p.burst as real / p.rate, -1);
        assert p.burst as real / p.rate > 0.0;
      }
      if now >= stored.value.expireAt { TtlCoversFullRefill(p, ms); }
    }
  }

  lemma ScriptIsSound(p: Limits, stored: Option<Stored>, now: int, req: int)
    requires Positive(p) && Sound(p, stored) && req > 0
    ensures Sound(p, Some(Script(p, stored, now, req).0))
  {
  }

  // ----- the lazy bucket is the simple bucket

  ghost predicate Same(stored: Option<Stored>, e: Option<Eager>) {
    match (stored, e)
    case (None, None) => true
    case (Some(s), Some(b)) => s.tokens == b.tokens && s.last == b.at
    case _ => false
  }

  lemma {:induction false} CallsAgree(p: Limits, stored: Option<Stored>, e: Option<Eager>, c: Request, purged: bool)
    requires Positive(p) && Sound(p, stored) && Same(stored, e) && c.req > 0
    ensures var (next, r) := Script(p, Seen(stored, c.now, purged), c.now, c.req);
            var (next', r') := EagerCall(p, e, c);
            r == r' && Same(Some(next), Some(next')) && Sound(p, Some(next))
  {
    ExpiryIsInvisible(p, stored, c.now, purged);
    assert Gain(p, 0) == 0.0;
    if stored.Some? { TicksAreLazy(p, stored.value.tokens, Elapsed(stored.value.last, c.now)); }
  }

  lemma {:induction false} RepliesAgree(p: Limits, stored: Option<Stored>, e: Option<Eager>, cs: seq<Request>,
                                        purged: seq<bool>)
    requires Positive(p) && Sound(p, stored) && Same(stored, e) && Wellformed(cs) && |cs| == |purged|
    ensures Replies(p, stored, cs, purged) == EagerReplies(p, e, cs)
    decreases |cs|
  {
    if cs != [] {
      CallsAgree(p, stored, e, cs[0], purged[0]);
      var next := Script(p, Seen(stored, cs[0].now, purged[0]), cs[0].now, cs[0].req).0;
      RepliesAgree(p, Some(next), Some(EagerCall(p, e, cs[0]).0), cs[1..], purged[1..]);
    }
  }

  /**
   On every call sequence, and whenever Redis drops expired keys, the script answers like the
   bucket that gains rate / 1000 tokens each millisecond and never expires.
   */
  lemma {:induction false} LazyIsEager(p: Limits, cs: seq<Request>, purged: seq<bool>)
    requires Positive(p) && Wellformed(cs) && |cs| == |purged|
    ensures Replies(p, None, cs, purged) == EagerReplies(p, None, cs)
  {
    RepliesAgree(p, None, None, cs, purged);
  }

  // ----- how much a window can grant

  function Granted(cs: seq<Request>, rs: seq<BucketResult>): int
    requires |cs| == |rs|
  {
    if cs == [] then 0 else (if rs[0].allowed then cs[0].req else 0) + Granted(cs[1..], rs[1..])
  }

  /** The forward movements of the clock, from `last` through the calls. */
  function Span(last: int, cs: seq<Request>): nat
    decreases |cs|
  {
    if cs == [] then 0 else Elapsed(last, cs[0].now) + Span(cs[0].now, cs[1..])
  }

  lemma {:induction false} ReplyPerCall(p: Limits, stored: Option<Stored>, cs: seq<Request>, purged: seq<bool>)
    requires Positive(p) && |cs| == |purged|
    ensures |Replies(p, stored, cs, purged)| == |cs|
    decreases |cs|
  {
    if cs != [] {
      var next := Script(p, Seen(stored, cs[0].now, purged[0]), cs[0].now, cs[0].req).0;
      ReplyPerCall(p, Some(next), cs[1..], purged[1..]);
    }
  }

  /** Tokens are conserved: what is granted comes out of the hash or out of the refill. */
  lemma {:induction false} GrantsComeFromTokens(p: Limits, s: Stored, cs: seq<Request>, purged: seq<bool>)
    requires Positive(p) && Sound(p, Some(s)) && Wellformed(cs) && |cs| == |purged|
    ensures |Replies(p, Some(s), cs, purged)| == |cs|
    ensures Granted(cs, Replies(p, Some(s), cs, purged)) as real <= s.tokens + Gain(p, Span(s.last, cs))
    decreases |cs|
  {
    ReplyPerCall(p, Some(s), cs, purged);
    if cs == [] {
      assert Gain(p, 0) == 0.0;
    } else {
      var c, seen := cs[0], Seen(Some(s), cs[0].now, purged[0]);
      var (next, r) := Script(p, seen, c.now, c.req);
      ExpiryIsInvisible(p, Some(s), c.now, purged[0]);
      CallsAgree(p, Some(s), Some(Eager(s.tokens, s.last)), c, purged[0]);
      GrantsComeFromTokens(p, next, cs[1..], purged[1..]);
      GainAdds(p, Elapsed(s.last, c.now), Span(c.now, cs[1..]));
      var rs := Replies(p, Some(s), cs, purged);
      assert rs[1..] == Replies(p, Some(next), cs[1..], purged[1..]);
      assert (if r.allowed then c.req else 0) as real + next.tokens <= s.tokens + Gain(p, Elapsed(s.last, c.now));
    }
  }

  // ----- nothing is lost below the cap

  /** The refill meets the cap at none of the calls. */
  ghost predicate Uncapped(p: Limits, s: Stored, cs: seq<Request>, purged: seq<bool>)
    requires Positive(p) && |cs| == |purged|
    decreases |cs|
  {
    cs != [] ==>
      && s.tokens + Gain(p, Elapsed(s.last, cs[0].now)) <= p.burst as real
      && Uncapped(p, Script(p, Seen(Some(s), cs[0].now, purged[0]), cs[0].now, cs[0].req).0, cs[1..], purged[1..])
  }

  /** One call below the cap: what it leaves and what it grants is what was there and what came in. */
  lemma CallConserves(p: Limits, s: Stored, c: Request, purged: bool)
    requires Positive(p) && Sound(p, Some(s)) && s.tokens + Gain(p, Elapsed(s.last, c.now)) <= p.burst as real
    ensures var (next, r) := Script(p, Seen(Some(s), c.now, purged), c.now, c.req);
            next.tokens + (if r.allowed then c.req else 0) as real == s.tokens + Gain(p, Elapsed(s.last, c.now))
  {
    ExpiryIsInvisible(p, Some(s), c.now, purged);
  }

  /**
   Exact conservation: as long as the refill does not meet the cap, the tokens left and the tokens
   granted are the tokens there were and the refill, whatever was refused in between.
   */
  lemma {:induction false} TokensAreConserved(p: Limits, s: Stored, cs: seq<Request>, purged: seq<bool>)
    requires Positive(p) && Sound(p, Some(s)) && Wellformed(cs) && |cs| == |purged| && Uncapped(p, s, cs, purged)
    ensures After(p, Some(s), cs, purged).Some? && |Replies(p, Some(s), cs, purged)| == |cs|
    ensures After(p, Some(s), cs, purged).value.tokens + Granted(cs, Replies(p, Some(s), cs, purged)) as real
         == s.tokens + Gain(p, Span(s.last, cs))
    decreases |cs|
  {
    ReplyPerCall(p, Some(s), cs, purged);
    if cs == [] {
      assert Gain(p, 0) == 0.0;
    } else {
      var c, seen := cs[0], Seen(Some(s), cs[0].now, purged[0]);
      var (next, r) := Script(p, seen, c.now, c.req);
      ScriptIsSound(p, seen, c.now, c.req);
      CallConserves(p, s, c, purged[0]);
      TokensAreConserved(p, next, cs[1..], purged[1..]);
      GainAdds(p, Elapsed(s.last, c.now), Span(c.now, cs[1..]));
      var rs, rest := Replies(p, Some(s), cs, purged), Replies(p, Some(next), cs[1..], purged[1..]);
      assert rs[0] == r && rs[1..] == rest;
      hide Script, Seen, Replies, Gain, Uncapped, Sound;
      assert Granted(cs, rs) == (if r.allowed then c.req else 0) + Granted(cs[1..], rest);
    }
  }

  function Asked(cs: seq<Request>): int {
    if cs == [] then 0 else cs[0].req + Asked(cs[1..])
  }

  /**
   Calls at one moment that ask together for no more than is there are all admitted, and each leaves
   what was there less what was asked so far. A bucket nobody used yet has `burst`.
   */
  lemma {:induction false} AffordableCallsAreAdmitted(p: Limits, stored: Option<Stored>, now: int, cs: seq<Request>,
                                                      purged: seq<bool>, i: nat)
    requires Positive(p) && Sound(p, stored) && Wellformed(cs) && |cs| == |purged|
    requires forall k :: 0 <= k < |cs| ==> cs[k].now == now
    requires Asked(cs) as real <= Available(p, stored, now) && i < |cs|
    ensures |Replies(p, stored, cs, purged)| == |cs|
    ensures Replies(p, stored, cs, purged)[i]
         == BucketResult(true, Available(p, stored, now) - Asked(cs[..i + 1]) as real, 0)
    ensures stored.None? ==> Available(p, stored, now) == p.burst as real
    decreases |cs|
  {
    assert Gain(p, 0) == 0.0;
    ReplyPerCall(p, stored, cs, purged);
    AskedIsPositive(cs[1..]);
    ExpiryIsInvisible(p, stored, now, purged[0]);
    var next := Script(p, Seen(stored, now, purged[0]), now, cs[0].req).0;
    assert next.tokens == Available(p, stored, now) - cs[0].req as real;
    assert cs[..i + 1][0] == cs[0] && cs[..i + 1][1..] == cs[1..][..i];
    if i == 0 {
      assert Asked(cs[..1]) == cs[0].req + Asked([]);
    } else {
      ScriptIsSound(p, Seen(stored, now, purged[0]), now, cs[0].req);
      assert Available(p, Some(next), now) == next.tokens;
      AffordableCallsAreAdmitted(p, Some(next), now, cs[1..], purged[1..], i - 1);
    }
  }

  lemma {:induction false} AskedIsPositive(cs: seq<Request>)
    requires Wellformed(cs)
    ensures Asked(cs) >= 0
  {
    if cs != [] { AskedIsPositive(cs[1..]); }
  }

  /** The hash after a sequence of calls. */
  function After(p: Limits, stored: Option<Stored>, cs: seq<Request>, purged: seq<bool>): Option<Stored>
    requires Positive(p) && |cs| == |purged|
    decreases |cs|
  {
    if cs == [] then stored
    else After(p, Some(Script(p, Seen(stored, cs[0].now, purged[0]), cs[0].now, cs[0].req).0), cs[1..], purged[1..])
  }

  lemma {:induction false} AfterIsSound(p: Limits, stored: Option<Stored>, cs: seq<Request>, purged: seq<bool>)
    requires Positive(p) && Sound(p, stored) && Wellformed(cs) && |cs| == |purged|
    ensures Sound(p, After(p, stored, cs, purged))
    decreases |cs|
  {
    if cs != [] {
      var seen := Seen(stored, cs[0].now, purged[0]);
      ScriptIsSound(p, seen, cs[0].now, cs[0].req);
      AfterIsSound(p, Some(Script(p, seen, cs[0].now, cs[0].req).0), cs[1..], purged[1..]);
    }
  }

  /** The replies to a window are those of the window run from the hash the calls before it left. */
  lemma {:induction false} RepliesSplit(p: Limits, stored: Option<Stored>, a: seq<Request>, b: seq<Request>,
                                        pa: seq<bool>, pb: seq<bool>)
    requires Positive(p) && |a| == |pa| && |b| == |pb|
    ensures Replies(p, stored, a + b, pa + pb) == Replies(p, stored, a, pa) + Replies(p, After(p, stored, a, pa), b, pb)
    decreases |a|
  {
    if a == [] {
      assert a + b == b && pa + pb == pb;
    } else {
      var next := Script(p, Seen(stored, a[0].now, pa[0]), a[0].now, a[0].req).0;
      assert (a + b)[1..] == a[1..] + b && (pa + pb)[1..] == pa[1..] + pb;
      RepliesSplit(p, Some(next), a[1..], b, pa[1..], pb);
    }
  }

  lemma {:induction false} WindowFromAnyHash(p: Limits, stored: Option<Stored>, cs: seq<Request>, purged: seq<bool>)
    requires Positive(p) && Sound(p, stored) && Wellformed(cs) && |cs| == |purged| && cs != []
    ensures |Replies(p, stored, cs, purged)| == |cs|
    ensures Granted(cs, Replies(p, stored, cs, purged)) as real <= p.burst as real + Gain(p, Span(cs[0].now, cs[1..]))
  {
    ReplyPerCall(p, stored, cs, purged);
    var seen := Seen(stored, cs[0].now, purged[0]);
    var (next, r) := Script(p, seen, cs[0].now, cs[0].req);
    ExpiryIsInvisible(p, stored, cs[0].now, purged[0]);
    ScriptIsSound(p, seen, cs[0].now, cs[0].req);
    GrantsComeFromTokens(p, next, cs[1..], purged[1..]);
    assert Replies(p, stored, cs, purged)[1..] == Replies(p, Some(next), cs[1..], purged[1..]);
  }

  /**
   Every contiguous window of every call sequence grants at most burst + rate x (forward clock
   movement within it), even if the clock also jumps back, and the hash stays within 0..burst.
   */
  lemma {:induction false} WindowBound(p: Limits, before: seq<Request>, window: seq<Request>, after: seq<Request>,
                    pb: seq<bool>, pw: seq<bool>, pa: seq<bool>)
    requires Positive(p) && Wellformed(before) && Wellformed(window) && window != []
    requires |before| == |pb| && |window| == |pw| && |after| == |pa|
    ensures var rs := Replies(p, None, before + window + after, pb + pw + pa);
            && |rs| == |before| + |window| + |after|
            && Granted(window, rs[|before|..|before| + |window|]) as real
               <= p.burst as real + Gain(p, Span(window[0].now, window[1..]))
    ensures Sound(p, After(p, None, before + window, pb + pw))
  {
    RepliesSplit(p, None, before + window, after, pb + pw, pa);
    RepliesSplit(p, None, before, window, pb, pw);
    ReplyPerCall(p, None, before, pb);
    ReplyPerCall(p, After(p, None, before + window, pb + pw), after, pa);
    AfterIsSound(p, None, before, pb);
    AfterIsSound(p, None, before + window, pb + pw);
    WindowFromAnyHash(p, After(p, None, before, pb), window, pw);
    var rs := Replies(p, None, before + window + after, pb + pw + pa);
    assert rs[|before|..|before| + |window|] == Replies(p, After(p, None, before, pb), window, pw);
  }

  /** With a clock that never jumps back the movement is last minus first. */
  lemma {:induction false} SpanIsElapsed(last: int, cs: seq<Request>)
    requires Monotone(cs) && (cs != [] ==> last <= cs[0].now)
    ensures Span(last, cs) == if cs == [] then 0 else cs[|cs| - 1].now - last
    decreases |cs|
  {
    if cs != [] { SpanIsElapsed(cs[0].now, cs[1..]); }
  }

  /** On a monotone clock: at most burst + rate x elapsed in every window. */
  lemma {:induction false} WindowBoundOnMonotoneClock(p: Limits, before: seq<Request>, window: seq<Request>,
                                                      after: seq<Request>, pb: seq<bool>, pw: seq<bool>,
                                                      pa: seq<bool>)
    requires Positive(p) && Wellformed(before) && Wellformed(window) && window != [] && Monotone(window)
    requires |before| == |pb| && |window| == |pw| && |after| == |pa|
    ensures var rs := Replies(p, None, before + window + after, pb + pw + pa);
            && |rs| == |before| + |window| + |after|
            && Granted(window, rs[|before|..|before| + |window|]) as real
               <= p.burst as real + Gain(p, window[|window| - 1].now - window[0].now)
  {
    hide Granted, Replies, Span, Gain;
    WindowBound(p, before, window, after, pb, pw, pa);
    SpanIsElapsed(window[0].now, window[1..]);
    assert Span(window[0].now, window[1..]) == window[|window| - 1].now - window[0].now;
  }

  // ----- refused calls leave no trace

  /** The entries a mask keeps. */
  function Kept<T>(s: seq<T>, mask: seq<bool>): seq<T>
    requires |s| == |mask|
  {
    if s == [] then [] else (if mask[0] then [s[0]] else []) + Kept(s[1..], mask[1..])
  }

  /** `full` has seen some refused calls that `thin` has not. */
  ghost predicate Thinned(p: Limits, full: Option<Eager>, thin: Option<Eager>) {
    match (full, thin)
    case (None, None) => true
    case (Some(f), None) => f.tokens == p.burst as real
    case (Some(f), Some(t)) => t.at <= f.at && f.tokens == Ticks(p, t.tokens, f.at - t.at)
    case (None, Some(_)) => false
  }

  lemma {:induction false} FullStaysFull(p: Limits, n: nat)
    requires Positive(p)
    ensures Ticks(p, p.burst as real, n) == p.burst as real
  {
    if n > 0 { FullStaysFull(p, n - 1); }
  }

  lemma SameLevel(p: Limits, full: Option<Eager>, thin: Option<Eager>, now: int)
    requires Positive(p) && Thinned(p, full, thin) && (full.Some? ==> full.value.at <= now)
    ensures Level(p, full, now) == Level(p, thin, now)
  {
    if full.Some? {
      var n := now - full.value.at;
      if thin.None? { FullStaysFull(p, n); } else { TicksAdd(p, thin.value.tokens, full.value.at - thin.value.at, n); }
    }
  }

  /** Both buckets answer alike, and stay alike whether or not a refused call is left out. */
  lemma ThinnedCall(p: Limits, full: Option<Eager>, thin: Option<Eager>, c: Request)
    requires Positive(p) && Thinned(p, full, thin) && (full.Some? ==> full.value.at <= c.now)
    ensures var (f, r), (t, r') := EagerCall(p, full, c), EagerCall(p, thin, c);
            r == r' && Thinned(p, Some(f), Some(t)) && (!r.allowed ==> Thinned(p, Some(f), thin))
  {
    SameLevel(p, full, thin, c.now);
  }

  ghost predicate OnlyRefusedDropped(rs: seq<BucketResult>, mask: seq<bool>)
    requires |rs| == |mask|
  {
    forall i :: 0 <= i < |rs| && !mask[i] ==> !rs[i].allowed
  }

  lemma EagerCons(p: Limits, e: Option<Eager>, c: Request, cs: seq<Request>)
    requires Positive(p)
    ensures var (next, r) := EagerCall(p, e, c);
            EagerReplies(p, e, [c] + cs) == [r] + EagerReplies(p, Some(next), cs) && next.at == c.now
  {
  }

  lemma DropFirst(r: BucketResult, rs: seq<BucketResult>, mask: seq<bool>)
    requires |mask| == |rs| + 1 && OnlyRefusedDropped([r] + rs, mask)
    ensures OnlyRefusedDropped(rs, mask[1..]) && (mask[0] || !r.allowed)
  {
  }

  lemma {:induction false} ThinnedReplies(p: Limits, full: Option<Eager>, thin: Option<Eager>, cs: seq<Request>,
                                          rs: seq<BucketResult>, mask: seq<bool>)
    requires Positive(p) && Monotone(cs) && |cs| == |mask| == |rs| && Thinned(p, full, thin)
    requires full.Some? && cs != [] ==> full.value.at <= cs[0].now
    requires rs == EagerReplies(p, full, cs) && OnlyRefusedDropped(rs, mask)
    ensures EagerReplies(p, thin, Kept(cs, mask)) == Kept(rs, mask)
    decreases |cs|
  {
    if cs != [] {
      var c, rest := cs[0], cs[1..];
      var next, r := Some(EagerCall(p, full, c).0), EagerCall(p, full, c).1;
      assert cs == [c] + rest;
      EagerCons(p, full, c, rest);
      ThinnedCall(p, full, thin, c);
      hide EagerCall, Thinned, EagerReplies, OnlyRefusedDropped;
      var rs' := EagerReplies(p, next, rest);
      assert rs[1..] == rs' && rs[0] == r;
      DropFirst(r, rs', mask);
      if mask[0] {
        var thin' := EagerCall(p, thin, c).0;
        ThinnedReplies(p, next, Some(thin'), rest, rs', mask[1..]);
        EagerCons(p, thin, c, Kept(rest, mask[1..]));
      } else {
        ThinnedReplies(p, next, thin, rest, rs', mask[1..]);
        assert Kept(cs, mask) == Kept(rest, mask[1..]) && Kept(rs, mask) == Kept(rs', mask[1..]);
      }
    }
  }

  lemma {:induction false} KeptWellformed(cs: seq<Request>, mask: seq<bool>)
    requires |cs| == |mask| && Wellformed(cs)
    ensures Wellformed(Kept(cs, mask))
  {
    if cs != [] { KeptWellformed(cs[1..], mask[1..]); }
  }

  /**
   Deleting any refused calls from a sequence changes no other reply, although a refused call
   rewrites the hash and extends its life, and whatever Redis drops in either sequence.
   */
  lemma {:induction false} RefusedCallsAreNeutral(p: Limits, cs: seq<Request>, purged: seq<bool>, mask: seq<bool>,
                                                  purged': seq<bool>)
    requires Positive(p) && Wellformed(cs) && Monotone(cs) && |cs| == |purged| == |mask|
    requires |Replies(p, None, cs, purged)| == |cs| && |Kept(cs, mask)| == |purged'|
    requires forall i :: 0 <= i < |cs| && !mask[i] ==> !Replies(p, None, cs, purged)[i].allowed
    ensures Replies(p, None, Kept(cs, mask), purged') == Kept(Replies(p, None, cs, purged), mask)
  {
    LazyIsEager(p, cs, purged);
    KeptWellformed(cs, mask);
    LazyIsEager(p, Kept(cs, mask), purged');
    ThinnedReplies(p, None, None, cs, EagerReplies(p, None, cs), mask);
  }

  // ----- the retry time

  /** Waiting helps exactly when the request fits the bucket at all. */
  lemma NeededWait(p: Limits, tokens: real, req: int, w: int)
    requires Positive(p) && tokens < req as real && w >= 0
    ensures Min(p.burst as real, tokens + Gain(p, w)) >= req as real <==>
              req <= p.burst && w >= Decision(p, tokens, req).retryAfterMs
  {
    var need := req as real - tokens;
    CeilIsLeast((need * 1000.0) / p.rate, w);
    var x := (need * 1000.0) / p.rate;
    assert x * p.rate == need * 1000.0;
    if w as real >= x {
      assert w as real * p.rate >= x * p.rate;
    } else {
      assert w as real * p.rate < x * p.rate;
    }
    assert Gain(p, w) >= need <==> w as real * p.rate >= need * 1000.0;
  }

  /**
   After a refused call the same request passes w ms later, with nothing consumed in between,
   exactly when it fits the bucket and w has reached the reported wait.
   */
  lemma {:induction false} RetryTimeIsLeast(p: Limits, stored: Option<Stored>, now: int, req: int, w: nat, purged: bool)
    requires Positive(p) && Sound(p, stored) && req > 0
    ensures var (next, r) := Script(p, stored, now, req);
            !r.allowed ==>
              (Script(p, Seen(Some(next), now + w, purged), now + w, req).1.allowed
               <==> req <= p.burst && w >= r.retryAfterMs)
  {
    var (next, r) := Script(p, stored, now, req);
    ScriptIsSound(p, stored, now, req);
    ExpiryIsInvisible(p, Some(next), now + w, purged);
    if !r.allowed { NeededWait(p, Available(p, stored, now), req, w); }
  }

  /** The Retry-After header, in whole seconds. */
  function RetryAfterSeconds(r: BucketResult): int {
    if r.allowed then 0
    else
      var up := (r.retryAfterMs + 999) / 1000;
      if up > 1 then up else 1
  }

  /** A client that honours the header is let in, and no smaller positive header would do. */
  lemma {:induction false} RetryAfterSuffices(p: Limits, stored: Option<Stored>, now: int, req: int, seconds: nat,
                                              purged: bool)
    requires Positive(p) && Sound(p, stored) && 0 < req <= p.burst && seconds > 0
    ensures var (next, r) := Script(p, stored, now, req);
            if r.allowed then RetryAfterSeconds(r) == 0
            else
              Script(p, Seen(Some(next), now + seconds * 1000, purged), now + seconds * 1000, req).1.allowed
              <==> seconds >= RetryAfterSeconds(r)
  {
    RetryTimeIsLeast(p, stored, now, req, seconds * 1000, purged);
  }

  // ----- the script as written

  class Redis {
    var hashes: map<string, Stored>

    /** Reads, refills, decides and writes back; `purged` tells whether an expired key is gone. */
    method TokenBucketScript(key: string, rate: real, burst: int, req: int, nowMs: int, purged: bool)
      returns (r: BucketResult)
      requires Positive(Limits(rate, burst))
      modifies this
      ensures var p, stored := Limits(rate, burst), if key in old(hashes) then Some(old(hashes)[key]) else None;
              var (next, reply) := Script(p, Seen(stored, nowMs, purged), nowMs, req);
              r == reply && hashes == old(hashes)[key := next]
    {
      var tokens, last := burst as real, nowMs;
      if key in hashes && !(purged && nowMs >= hashes[key].expireAt) {
        tokens, last := hashes[key].tokens, hashes[key].last;
      }
      var elapsedMs := nowMs - last;
      if elapsedMs < 0 { elapsedMs := 0; }
      var refill := (elapsedMs as real * rate) / 1000.0;
      tokens := tokens + refill;
      if tokens > burst as real { tokens := burst as real; }
      ghost var stored := if key in hashes then Some(hashes[key]) else None;
      assert tokens == Available(Limits(rate, burst), Seen(stored, nowMs, purged), nowMs);
      var allowed, retryAfterMs := false, 0;
      if tokens >= req as real {
        tokens := tokens - req as real;
        allowed := true;
      } else {
        var need := req as real - tokens;
        retryAfterMs := Ceil((need * 1000.0) / rate);
      }
      var ttl := Ceil(burst as real / rate) + 1;
      hashes := hashes[key := Stored(tokens, nowMs, nowMs + ttl * 1000)];
      r := BucketResult(allowed, tokens, retryAfterMs);
    }

    /** The client side: refuses meaningless limits, prefixes the key, converts the rate. */
    method Consume(identity: string, ratePerMin: int, burst: int, tokens: int, nowMs: int, purged: bool)
      returns (r: Option<BucketResult>)
      modifies this
      ensures r.None? <==> ratePerMin <= 0 || burst <= 0 || tokens <= 0
      ensures r.None? ==> hashes == old(hashes)
      ensures r.Some? ==>
                var key, p := "rl:" + identity, Limits(ratePerMin as real / 60.0, burst);
                var stored := if key in old(hashes) then Some(old(hashes)[key]) else None;
                var (next, reply) := Script(p, Seen(stored, nowMs, purged), nowMs, tokens);
                r == Some(reply) && hashes == old(hashes)[key := next]
    {
      if ratePerMin <= 0 || burst <= 0 || tokens <= 0 { return None; }
      var reply := TokenBucketScript("rl:" + identity, ratePerMin as real / 60.0, burst, tokens, nowMs, purged);
      r := Some(reply);
    }
  }
}
