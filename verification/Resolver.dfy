/**
 Vetting a webhook host: the bounded resolver, and the loop that collects the addresses a delivery
 may connect to. Which addresses are blocked is a parameter.
 */
module Resolver {
  import opened Options
  import opened Listing

  // ----- collecting addresses

  /** `Escapes` stands for an exception other than a validation error. */
  datatype Vetting = Vetted(addresses: seq<string>) | Refused(reason: string) | Escapes

  /** The distinct entries in the order of their first occurrence. */
  function FirstSeen(s: seq<string>): seq<string> {
    if s == [] then []
    else
      var init, x := FirstSeen(s[..|s| - 1]), s[|s| - 1];
      if x in init then init else init + [x]
  }

  function FirstIndex(s: seq<string>, x: string): nat
    requires x in s
  {
    if s[0] == x then 0 else 1 + FirstIndex(s[1..], x)
  }

  lemma {:induction false} FirstSeenMembers(s: seq<string>)
    ensures Distinct(FirstSeen(s)) && forall x :: x in FirstSeen(s) <==> x in s
  {
    if s != [] {
      FirstSeenMembers(s[..|s| - 1]);
      assert s == s[..|s| - 1] + [s[|s| - 1]];
    }
  }

  lemma {:induction false} FirstIndexAppend(a: seq<string>, b: seq<string>, x: string)
    requires x in a + b
    ensures FirstIndex(a + b, x) == if x in a then FirstIndex(a, x) else |a| + FirstIndex(b, x)
  {
    if a == [] {
      assert a + b == b;
    } else if a[0] != x {
      assert (a + b)[1..] == a[1..] + b;
      assert x in (a + b)[1..];
      FirstIndexAppend(a[1..], b, x);
    }
  }

  lemma {:induction false} FirstIndexBound(s: seq<string>, x: string)
    requires x in s
    ensures FirstIndex(s, x) < |s| && s[FirstIndex(s, x)] == x
  {
    if s[0] != x { FirstIndexBound(s[1..], x); }
  }

  /** Earlier in the result means first seen earlier. */
  lemma {:induction false} FirstSeenOrder(s: seq<string>, i: nat, j: nat)
    requires i < j < |FirstSeen(s)|
    ensures FirstSeen(s)[i] in s && FirstSeen(s)[j] in s
    ensures FirstIndex(s, FirstSeen(s)[i]) < FirstIndex(s, FirstSeen(s)[j])
  {
    var a, last, r := s[..|s| - 1], s[|s| - 1], FirstSeen(s);
    FirstSeenMembers(s);
    FirstSeenMembers(a);
    assert s == a + [last];
    var x, y := r[i], r[j];
    assert x in FirstSeen(a);
    FirstIndexAppend(a, [last], x);
    FirstIndexAppend(a, [last], y);
    FirstIndexBound(a, x);
    if j < |FirstSeen(a)| { FirstSeenOrder(a, i, j); }
  }

  /** One blocked address refuses the host; otherwise each address is listed once. */
  method CollectAddresses(infos: seq<string>, blocked: string -> bool) returns (v: Vetting)
    ensures if infos != [] && forall a :: a in infos ==> !blocked(a) then v == Vetted(FirstSeen(infos)) else v.Refused?
  {
    var addresses: seq<string> := [];
    for i := 0 to |infos|
      invariant addresses == FirstSeen(infos[..i])
      invariant forall k :: 0 <= k < i ==> !blocked(infos[k])
    {
      var addr := infos[i];
      if blocked(addr) { return Refused("webhook URL resolves to a blocked address range"); }
      assert infos[..i + 1][..i] == infos[..i];
      if addr !in addresses { addresses := addresses + [addr]; }
    }
    assert infos[..|infos|] == infos;
    FirstSeenMembers(infos);
    assert infos != [] ==> infos[0] in addresses;
    if addresses == [] {
      return Refused("webhook URL hostname does not resolve");
    }
    v := Vetted(addresses);
  }

  // ----- the bounded lookup

  const RESOLVER_THREADS: nat := 4

  /** What the name service says in the end. */
  datatype Reply = Fails | Finds(infos: seq<string>)

  /** What the caller gets. */
  datatype Lookup = Replied(reply: Reply) | NoAnswerInTime | CannotSubmit

  /** The pool accepts a lookup, or raises after it has queued it, or raises without keeping it. */
  datatype Submission = Accepted | RaisesQueued | RaisesLost

  /** The environment of one lookup: what the pool does with it, how long it takes, what comes out. */
  datatype Weather = Weather(submission: Submission, takes: int, reply: Reply)

  /** The semaphore as one process sees it between calls. */
  class Slots {
    var free: nat
    var late: nat   // lookups still running whose caller has gone
    var leaked: nat // slots whose lookup will never run

    ghost predicate Valid()
      reads this
    {
      free + late + leaked == RESOLVER_THREADS
    }

    constructor ()
      ensures Valid() && free == RESOLVER_THREADS
    {
      free, late, leaked := RESOLVER_THREADS, 0, 0;
    }

    /**
     A caller without a time limit always gets the reply, and uses no slot. One with a time limit gets
     nothing if no slot is free or the lookup is late, and a late lookup keeps its slot.
     */
    method GetAddrInfo(timeout: Option<int>, w: Weather) returns (r: Lookup)
      requires Valid()
      modifies this
      ensures Valid()
      ensures timeout == None ==> r == Replied(w.reply) && late == old(late) && leaked == old(leaked)
      ensures timeout != None && old(free) == 0 ==> r == NoAnswerInTime && late == old(late) && leaked == old(leaked)
      ensures timeout != None && old(free) > 0 && w.submission == Accepted ==>
                if w.takes <= timeout.value then r == Replied(w.reply) && late == old(late) && leaked == old(leaked)
                else r == NoAnswerInTime && late == old(late) + 1 && leaked == old(leaked)
      ensures timeout != None && old(free) > 0 && w.submission == RaisesQueued ==>
                r == CannotSubmit && late == old(late) + 1 && leaked == old(leaked)
      ensures timeout != None && old(free) > 0 && w.submission == RaisesLost ==>
                r == CannotSubmit && late == old(late) && leaked == old(leaked) + 1
    {
      if timeout.None? { return Replied(w.reply); }
      if free == 0 { return NoAnswerInTime; }
      free := free - 1;
      if w.submission.RaisesLost? {
        leaked := leaked + 1;
        return CannotSubmit;
      }
      if w.submission.RaisesQueued? {
        late := late + 1;
        return CannotSubmit;
      }
      if w.takes <= timeout.value {
        free := free + 1;
        return Replied(w.reply);
      }
      late := late + 1;
      r := NoAnswerInTime;
    }

    /** A late lookup comes to its end and gives its slot back. */
    method LateLookupEnds()
      requires Valid() && late > 0
      modifies this
      ensures Valid() && late == old(late) - 1 && free == old(free) + 1 && leaked == old(leaked)
    {
      late, free := late - 1, free + 1;
    }
  }

  // ----- the whole check

  datatype Url = Url(scheme: string, host: string, port: Option<int>)

  /**
   `url` is None when it does not parse. The sender calls it without a timeout, so it always has a
   first address to connect to; the API gets an empty list if no slot is free or the reply is late.
   */
  method ValidateWebhookUrl(url: Option<Url>, isIp: string -> bool, blocked: string -> bool, timeout: Option<int>,
                            slots: Slots, w: Weather)
    returns (v: Vetting)
    requires slots.Valid()
    modifies slots
    ensures slots.Valid()
    ensures var ok := && url != None && url.value.scheme in ["http", "https"] && url.value.host != ""
                      && (url.value.port == None || 0 < url.value.port.value < 65536) && '%' !in url.value.host;
            var clean := w.reply.Finds? && w.reply.infos != [] && forall a :: a in w.reply.infos ==> !blocked(a);
            var vetted := if clean then v == Vetted(FirstSeen(w.reply.infos)) else v.Refused?;
            if !ok then v.Refused?
            else if isIp(url.value.host) then
              if blocked(url.value.host) then v.Refused? else v == Vetted([url.value.host])
            else if timeout == None then vetted
            else if old(slots.free) == 0 then v == Vetted([])
            else if w.submission != Accepted then v == Escapes
            else if w.takes <= timeout.value then vetted
            else v == Vetted([])
    ensures timeout == None && v.Vetted? ==> v.addresses != []
    ensures v.Vetted? ==> (forall a :: a in v.addresses ==> !blocked(a)) && Distinct(v.addresses)
    ensures slots.leaked == old(slots.leaked) + Bit(v.Escapes? && w.submission == RaisesLost)
  {
    if url.None? { return Refused("webhook URL is malformed"); }
    var Url(scheme, host, port) := url.value;
    if scheme !in ["http", "https"] { return Refused("webhook URL must use http(s)"); }
    if host == "" { return Refused("webhook URL must include a hostname"); }
    if port.Some? && !(0 < port.value < 65536) { return Refused("webhook URL port is out of range"); }
    if '%' in host { return Refused("webhook URL must not carry an IPv6 zone id"); }
    if isIp(host) {
      if blocked(host) { return Refused("webhook URL points to a blocked address range"); }
      return Vetted([host]);
    }
    var lookup := slots.GetAddrInfo(timeout, w);
    match lookup
    case CannotSubmit => v := Escapes;
    case NoAnswerInTime => v := Vetted([]);
    case Replied(Fails) => v := Refused("webhook URL hostname does not resolve");
    case Replied(Finds(infos)) =>
      FirstSeenMembers(infos);
      v := CollectAddresses(infos, blocked);
  }
}
