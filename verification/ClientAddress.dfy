/** Whom a request is counted against when it arrives through trusted proxies. */
module ClientAddress {
  import opened Options

  // ----- the forwarded chain

  /** Splitting at commas; the empty header is one empty part. */
  function Split(s: string): (parts: seq<string>)
    ensures |parts| > 0
  {
    if s == "" then [""]
    else
      var rest := Split(s[1..]);
      if s[0] == ',' then [""] + rest else [[s[0]] + rest[0]] + rest[1..]
  }

  function StripLeft(s: string, space: char -> bool): string {
    if s != "" && space(s[0]) then StripLeft(s[1..], space) else s
  }

  function StripRight(s: string, space: char -> bool): string {
    if s != "" && space(s[|s| - 1]) then StripRight(s[..|s| - 1], space) else s
  }

  function Strip(s: string, space: char -> bool): string { StripRight(StripLeft(s, space), space) }

  /** The parts that are not blank, stripped. */
  function NonBlank(parts: seq<string>, space: char -> bool): seq<string> {
    if parts == [] then []
    else
      var p := Strip(parts[0], space);
      (if p == "" then [] else [p]) + NonBlank(parts[1..], space)
  }

  function Chain(header: string, space: char -> bool): seq<string> { NonBlank(Split(header), space) }

  lemma {:induction false} SplitAtComma(a: string, b: string)
    ensures Split(a + "," + b) == Split(a) + Split(b)
  {
    if a == "" {
      assert a + "," + b == "," + b;
      assert ("," + b)[1..] == b;
    } else {
      assert (a + "," + b)[1..] == a[1..] + "," + b;
      SplitAtComma(a[1..], b);
    }
  }

  lemma {:induction false} NonBlankAppend(a: seq<string>, b: seq<string>, space: char -> bool)
    ensures NonBlank(a + b, space) == NonBlank(a, space) + NonBlank(b, space)
  {
    if a == [] {
      assert a + b == b;
    } else {
      assert (a + b)[1..] == a[1..] + b;
      NonBlankAppend(a[1..], b, space);
    }
  }

  lemma ChainAtComma(a: string, b: string, space: char -> bool)
    ensures Chain(a + "," + b, space) == Chain(a, space) + Chain(b, space)
  {
    SplitAtComma(a, b);
    NonBlankAppend(Split(a), Split(b), space);
  }

  // ----- buckets

  datatype Ip = V4(bits: nat) | V6(bits: nat)

  const TWO_32: nat := 0x1_0000_0000
  const TWO_64: nat := 0x1_0000_0000_0000_0000

  /**
   An IPv4-mapped address, section 2.5.5.2 of RFC 4291: eighty zero bits, sixteen one bits, the IPv4
   address.
   */
  predicate Mapped(ip: Ip) { ip.V6? && ip.bits / TWO_32 == 0xffff }

  /** The address an IPv4 client gets when it is written as IPv6. */
  function MappedFrom(v4: nat): Ip { V6(0xffff * TWO_32 + v4) }

  datatype Bucket = Host(v4: nat) | Net64(prefix: nat)

  function BucketOf(ip: Ip): Bucket {
    match ip
    case V4(bits) => Host(bits)
    case V6(bits) => if Mapped(ip) then Host(bits % TWO_32) else Net64(bits / TWO_64)
  }

  /** Everything before the first percent sign. */
  function DropZone(raw: string): string {
    if raw == "" || raw[0] == '%' then "" else [raw[0]] + DropZone(raw[1..])
  }

  /** `parse` is the address parser of the standard library. */
  function BucketAddress(raw: string, parse: string -> Option<Ip>): Option<Bucket> {
    match parse(DropZone(raw))
    case None => None
    case Some(ip) => Some(BucketOf(ip))
  }

  datatype Identity = Known(bucket: Bucket) | Verbatim(text: string)

  function FromRemote(remote: string, parse: string -> Option<Ip>): Identity {
    match BucketAddress(remote, parse)
    case Some(bucket) => Known(bucket)
    case None => Verbatim(if remote == "" then "unknown" else remote)
  }

  /** The identity a request without an API key is limited by. */
  function ClientIp(hops: int, forwarded: string, remote: string, parse: string -> Option<Ip>, space: char -> bool)
    : Identity
  {
    var chain := Chain(forwarded, space);
    if hops > 0 && |chain| >= hops && BucketAddress(chain[|chain| - hops], parse).Some?
    then Known(BucketAddress(chain[|chain| - hops], parse).value)
    else FromRemote(remote, parse)
  }

  /** Text in front of a long enough trusted part does not change the bucket. */
  lemma TextInFrontIsIgnored(hops: int, front: string, trusted: string, remote: string,
                             parse: string -> Option<Ip>, space: char -> bool)
    requires |Chain(trusted, space)| >= hops
    ensures ClientIp(hops, front + "," + trusted, remote, parse, space) == ClientIp(hops, trusted, remote, parse, space)
  {
    hide Chain;
    ChainAtComma(front, trusted, space);
  }

  /** A header entry that reads as an address of another bucket than the remote's. */
  predicate OtherAddress(w: string, remote: string, parse: string -> Option<Ip>, space: char -> bool) {
    && w != "" && ',' !in w && Strip(w, space) == w
    && BucketAddress(w, parse).Some? && Known(BucketAddress(w, parse).value) != FromRemote(remote, parse)
  }

  /** With a shorter trusted part the entry that counts lies in front of it. */
  lemma ShortPartIsNotEnough(hops: int, trusted: string, remote: string, parse: string -> Option<Ip>,
                             space: char -> bool, w: string)
    returns (front: string)
    requires |Chain(trusted, space)| < hops && OtherAddress(w, remote, parse, space)
    ensures ClientIp(hops, front + "," + trusted, remote, parse, space) != ClientIp(hops, trusted, remote, parse, space)
  {
    hide Chain, BucketAddress;
    var k := hops - |Chain(trusted, space)|;
    front := Repeat(w, k);
    RepeatChain(w, k, space);
    ChainAtComma(front, trusted, space);
    assert ClientIp(hops, front + "," + trusted, remote, parse, space) == Known(BucketAddress(w, parse).value);
    assert ClientIp(hops, trusted, remote, parse, space) == FromRemote(remote, parse);
  }

  /**
   The exact condition, for any remote address and parser for which some entry reads as an address of
   another bucket: text in front never matters if and only if the trusted part holds at least `hops`
   entries that are not blank.
   */
  lemma TextInFrontIsIgnoredExactly(hops: int, trusted: string, remote: string, parse: string -> Option<Ip>,
                                    space: char -> bool, w: string)
    requires OtherAddress(w, remote, parse, space)
    ensures (forall front: string ::
               ClientIp(hops, front + "," + trusted, remote, parse, space)
               == ClientIp(hops, trusted, remote, parse, space))
            <==> |Chain(trusted, space)| >= hops
  {
    hide Chain, ClientIp;
    if |Chain(trusted, space)| >= hops {
      forall front: string
        ensures ClientIp(hops, front + "," + trusted, remote, parse, space)
             == ClientIp(hops, trusted, remote, parse, space)
      {
        TextInFrontIsIgnored(hops, front, trusted, remote, parse, space);
      }
    } else {
      var front := ShortPartIsNotEnough(hops, trusted, remote, parse, space, w);
    }
  }

  /** `w,w,...,w` with `k` entries. */
  function Repeat(w: string, k: int): string
    requires k > 0
  {
    if k == 1 then w else w + "," + Repeat(w, k - 1)
  }

  lemma {:induction false} SplitWithoutComma(w: string)
    requires ',' !in w
    ensures Split(w) == [w]
  {
    if w != "" {
      SplitWithoutComma(w[1..]);
      assert w == [w[0]] + w[1..];
    }
  }

  lemma OneEntry(w: string, space: char -> bool)
    requires w != "" && ',' !in w && Strip(w, space) == w
    ensures Chain(w, space) == [w]
  {
    hide Strip;
    SplitWithoutComma(w);
    assert NonBlank([w][1..], space) == [];
  }

  lemma {:induction false} RepeatChain(w: string, k: int, space: char -> bool)
    requires k > 0 && w != "" && ',' !in w && Strip(w, space) == w
    ensures |Chain(Repeat(w, k), space)| == k && Chain(Repeat(w, k), space)[0] == w
  {
    hide Chain, Strip;
    OneEntry(w, space);
    if k > 1 {
      RepeatChain(w, k - 1, space);
      ChainAtComma(w, Repeat(w, k - 1), space);
    }
  }

  // ----- reading a header back

  function Join(parts: seq<string>): string
    requires parts != []
  {
    if |parts| == 1 then parts[0] else parts[0] + "," + Join(parts[1..])
  }

  /** Splitting undoes joining. */
  lemma {:induction false} SplitUndoesJoin(parts: seq<string>)
    requires parts != [] && forall i :: 0 <= i < |parts| ==> ',' !in parts[i]
    ensures Split(Join(parts)) == parts
  {
    SplitWithoutComma(parts[0]);
    if |parts| > 1 {
      SplitUndoesJoin(parts[1..]);
      SplitAtComma(parts[0], Join(parts[1..]));
    }
  }

  predicate Blank(s: string, space: char -> bool) {
    forall i :: 0 <= i < |s| ==> space(s[i])
  }

  /** No blank at either end. */
  predicate Trimmed(w: string, space: char -> bool) {
    w != "" ==> !space(w[0]) && !space(w[|w| - 1])
  }

  lemma {:induction false} StripLeftDrops(l: string, w: string, space: char -> bool)
    requires Blank(l, space)
    ensures StripLeft(l + w, space) == StripLeft(w, space)
  {
    if l == "" {
      assert l + w == w;
    } else {
      assert (l + w)[1..] == l[1..] + w;
      StripLeftDrops(l[1..], w, space);
    }
  }

  lemma {:induction false} StripRightDrops(w: string, t: string, space: char -> bool)
    requires Blank(t, space)
    ensures StripRight(w + t, space) == StripRight(w, space)
  {
    if t == "" {
      assert w + t == w;
    } else {
      assert (w + t)[..|w + t| - 1] == w + t[..|t| - 1];
      StripRightDrops(w, t[..|t| - 1], space);
    }
  }

  /** Stripping drops the blanks around a word and nothing else. */
  lemma StripDropsBlanks(l: string, w: string, t: string, space: char -> bool)
    requires Blank(l, space) && Blank(t, space) && Trimmed(w, space)
    ensures Strip(l + w + t, space) == w
  {
    assert l + w + t == l + (w + t);
    StripLeftDrops(l, w + t, space);
    if w == "" {
      assert w + t == t + "";
      StripLeftDrops(t, "", space);
    } else {
      StripRightDrops(w, t, space);
    }
  }

  /** The word `w` with blanks around it. */
  ghost predicate Padded(part: string, w: string, space: char -> bool) {
    exists l, t :: Blank(l, space) && Blank(t, space) && part == l + w + t
  }

  ghost predicate AllPadded(parts: seq<string>, entries: seq<string>, space: char -> bool) {
    && |parts| == |entries|
    && forall i :: 0 <= i < |parts| ==>
         ',' !in parts[i] && entries[i] != "" && Trimmed(entries[i], space) && Padded(parts[i], entries[i], space)
  }

  lemma {:induction false} PaddingIsDropped(parts: seq<string>, entries: seq<string>, space: char -> bool)
    requires AllPadded(parts, entries, space)
    ensures NonBlank(parts, space) == entries
  {
    if parts != [] {
      var l, t :| Blank(l, space) && Blank(t, space) && parts[0] == l + entries[0] + t;
      StripDropsBlanks(l, entries[0], t, space);
      PaddingIsDropped(parts[1..], entries[1..], space);
    }
  }

  lemma HeaderIsRead(parts: seq<string>, entries: seq<string>, space: char -> bool)
    requires AllPadded(parts, entries, space) && |parts| > 0
    ensures Chain(Join(parts), space) == entries
  {
    SplitUndoesJoin(parts);
    PaddingIsDropped(parts, entries, space);
  }

  /** An address with or without a zone id. */
  predicate WithZone(raw: string, addr: string, zone: string) {
    raw == addr + zone && '%' !in addr && (zone != "" ==> zone[0] == '%')
  }

  lemma {:induction false} ZoneIsDropped(addr: string, zone: string)
    requires '%' !in addr && (zone != "" ==> zone[0] == '%')
    ensures DropZone(addr + zone) == addr
  {
    if addr == "" {
      assert addr + zone == zone;
    } else {
      assert (addr + zone)[1..] == addr[1..] + zone;
      ZoneIsDropped(addr[1..], zone);
      assert addr == [addr[0]] + addr[1..];
    }
  }

  /** The bucket of an address, and what is counted when there is none. */
  function CountedAs(ip: Option<Ip>, otherwise: Identity): Identity {
    if ip == None then otherwise else Known(BucketOf(ip.value))
  }

  /** Without a long enough header the request counts against the remote address, its zone id dropped. */
  lemma RemoteIsCounted(hops: int, forwarded: string, remote: string, addr: string, zone: string,
                        parse: string -> Option<Ip>, space: char -> bool)
    requires WithZone(remote, addr, zone) && (hops <= 0 || |Chain(forwarded, space)| < hops)
    ensures ClientIp(hops, forwarded, remote, parse, space)
         == CountedAs(parse(addr), Verbatim(if remote == "" then "unknown" else remote))
  {
    ZoneIsDropped(addr, zone);
  }

  /**
   Behind `hops` proxies the request counts against the entry that many from the right, whatever
   blanks surround it, its zone id dropped; garbage there counts against the remote address.
   */
  lemma EntryFromTheRightIsCounted(hops: int, parts: seq<string>, entries: seq<string>, remote: string, addr: string,
                                   zone: string, parse: string -> Option<Ip>, space: char -> bool)
    requires 0 < hops <= |entries| == |parts| && AllPadded(parts, entries, space)
    requires WithZone(entries[|entries| - hops], addr, zone)
    ensures ClientIp(hops, Join(parts), remote, parse, space)
         == CountedAs(parse(addr), ClientIp(0, "", remote, parse, space))
  {
    hide Chain, Join, AllPadded, DropZone, BucketOf;
    HeaderIsRead(parts, entries, space);
    ZoneIsDropped(addr, zone);
  }

  /** Which addresses share a bucket. */
  lemma SharedBuckets(a: Ip, b: Ip)
    requires (a.V4? ==> a.bits < TWO_32) && (b.V4? ==> b.bits < TWO_32)
    ensures a.V6? && b.V6? && !Mapped(a) && !Mapped(b) ==>
              (BucketOf(a) == BucketOf(b) <==> a.bits / TWO_64 == b.bits / TWO_64)
    ensures a.V4? ==> (BucketOf(b) == BucketOf(a) <==> b == a || b == MappedFrom(a.bits))
  {
  }
}
