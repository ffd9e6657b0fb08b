/** Subnets as values: text form, containment, and first-hit matching (addrmask.c). */
module Subnets {
  import opened Options
  import opened CStr
  import opened Prefix

  datatype Family = V4 | V6

  function BitCount(f: Family): nat { if f == V6 then 128 else 32 }

  function ByteCount(f: Family): nat { if f == V6 then 16 else 4 }

  datatype Subnet = Subnet(family: Family, net: Bytes, shift: nat)

  /** No host bit is set and the prefix fits the family. */
  ghost predicate Canonical(s: Subnet) {
    && |s.net| == ByteCount(s.family)
    && s.shift <= BitCount(s.family)
    && Masked(s.net, s.shift) == s.net
  }

  /** The system's numeric-host reader (getaddrinfo) and printer (inet_ntop). */
  datatype Host = Host(lookup: (string, Family) -> Option<Bytes>, show: (Family, Bytes) -> string)

  /** Addresses read have the size of their family. */
  ghost predicate Sized(h: Host) {
    forall t, f :: h.lookup(t, f).Some? ==> |h.lookup(t, f).value| == ByteCount(f)
  }

  /** Printing an address and reading it back gives the address; printed text has no delimiter in it. */
  ghost predicate Inverse(h: Host) {
    forall f, b: Bytes | |b| == ByteCount(f) ::
      var t := h.show(f, b);
      && h.lookup(t, f) == Some(b)
      && CString(t)
      && t != [] && '/' !in t && '[' !in t && ']' !in t && '#' !in t
      && (':' in t <==> f == V6)
  }

  // ----- text form

  /** str_split_at: the parts before and after the first delimiter. */
  function SplitAt(s: string, c: char): (r: Option<(string, string)>)
    ensures r.None? <==> c !in s
    ensures r.Some? ==> s == r.value.0 + [c] + r.value.1 && c !in r.value.0
  {
    if s == [] then None
    else if s[0] == c then Some(([], s[1..]))
    else
      match SplitAt(s[1..], c)
      case None => None
      case Some(p) => Some(([s[0]] + p.0, p.1))
  }

  /** Address part and prefix-length part of "addr", "addr/len", "[addr]", "[addr/len]" or "[addr]/len". */
  function SplitText(text: string): Option<(string, Option<string>)> {
    if text != [] && text[0] == '[' then
      match SplitAt(text[1..], ']')
      case None => None
      case Some(p) =>
        if p.1 == [] then Some(SplitMask(p.0))
        else if p.1[0] == '/' then Some((p.0, Some(p.1[1..])))
        else None
    else Some(SplitMask(text))
  }

  function SplitMask(text: string): (string, Option<string>) {
    match SplitAt(text, '/')
    case None => (text, None)
    case Some(p) => (p.0, Some(p.1))
  }

  function AddrFamily(pattern: string): Family { if ':' in pattern then V6 else V4 }

  /** The prefix length stored: atoi saturates at the largest long, and the field is one unsigned char. */
  function StoredShift(mask: string): (k: nat)
    requires AllDigits(mask)
    ensures k < 256
  {
    if Num(mask) >= 0x8000_0000_0000_0000 then 255 else Num(mask) % 256
  }

  /** What addrmask_parse yields. */
  function Parse(h: Host, text: string): Option<Subnet> {
    match SplitText(text)
    case None => None
    case Some((pattern, mask)) =>
      var f := AddrFamily(pattern);
      match mask
      case None =>
        (match h.lookup(pattern, f)
         case None => None
         case Some(b) => Some(Subnet(f, b, BitCount(f))))
      case Some(m) =>
        if m == [] || !AllDigits(m) || StoredShift(m) > BitCount(f) then None
        else
          match h.lookup(pattern, f)
          case None => None
          case Some(b) => Some(Subnet(f, Masked(b, StoredShift(m)), StoredShift(m)))
  }

  /** addrmask_verify_subnet for one family. */
  function ValidSubnet(h: Host, text: string, f: Family): bool {
    text != [] && Parse(h, text).Some? && Parse(h, text).value.family == f
  }

  /** What addrmask_to_string writes. */
  function Print(h: Host, s: Subnet): string {
    h.show(s.family, s.net) + "/" + Decimal(s.shift)
  }

  /** Whatever is parsed is canonical, even when the text named host bits. */
  lemma ParseCanonical(h: Host, text: string)
    requires Sized(h)
    ensures Parse(h, text).Some? ==> Canonical(Parse(h, text).value)
  {
    match Parse(h, text)
    case None =>
    case Some(s) =>
      var (pattern, mask) := SplitText(text).value;
      var b := h.lookup(pattern, AddrFamily(pattern)).value;
      MaskCompose(b, s.shift, s.shift);
      if s.shift == BitCount(s.family) {
        MaskWhole(b, s.shift);
      }
  }

  /** The length read is the length written exactly when it fits the one-byte field. */
  lemma ShiftReadIsShiftWritten(mask: string)
    requires AllDigits(mask)
    ensures StoredShift(mask) == Num(mask) <==> Num(mask) < 256
  {
  }

  /** Past that point the code accepts what the notation forbids: "/256" is read as the whole address space. */
  lemma OverlongLengthAccepted(h: Host, addr: string)
    requires addr != [] && addr[0] != '[' && '/' !in addr
    requires h.lookup(addr, AddrFamily(addr)).Some?
    ensures Parse(h, addr + "/256").Some? && Parse(h, addr + "/256").value.shift == 0
  {
    SplitAtFirst(addr, '/', "256");
    assert addr + "/256" == addr + ['/'] + "256";
    assert "256"[..2] == "25" && "25"[..1] == "2" && "2"[..0] == "";
    assert Num("2") == 2 && Num("25") == 25 && Num("256") == 256;
  }

  lemma {:induction false} SplitAtFirst(a: string, c: char, b: string)
    requires c !in a
    ensures SplitAt(a + [c] + b, c) == Some((a, b))
  {
    var s := a + [c] + b;
    if a == [] {
      assert s[1..] == b;
    } else {
      assert s[1..] == a[1..] + [c] + b;
      SplitAtFirst(a[1..], c, b);
      assert a == [a[0]] + a[1..];
    }
  }

  /** Printing a canonical subnet and parsing the text gives it back; so do both bracketed forms. */
  lemma TextRoundTrip(h: Host, s: Subnet)
    requires Inverse(h) && Canonical(s)
    ensures Parse(h, Print(h, s)) == Some(s)
    ensures Parse(h, "[" + Print(h, s) + "]") == Some(s)
    ensures Parse(h, "[" + h.show(s.family, s.net) + "]/" + Decimal(s.shift)) == Some(s)
  {
    var t, d := h.show(s.family, s.net), Decimal(s.shift);
    PlainForm(t, d);
    ParseParts(h, s, Print(h, s));
    BracketedForm(t, d);
    ParseParts(h, s, "[" + Print(h, s) + "]");
    HalfBracketedForm(t, d);
    ParseParts(h, s, "[" + h.show(s.family, s.net) + "]/" + Decimal(s.shift));
  }

  lemma ParseParts(h: Host, s: Subnet, text: string)
    requires Inverse(h) && Canonical(s)
    requires SplitText(text) == Some((h.show(s.family, s.net), Some(Decimal(s.shift))))
    ensures Parse(h, text) == Some(s)
  {
    assert StoredShift(Decimal(s.shift)) == s.shift;
  }

  lemma PlainForm(t: string, d: string)
    requires t != [] && t[0] != '[' && '/' !in t
    ensures SplitMask(t + "/" + d) == (t, Some(d)) && SplitText(t + "/" + d) == Some((t, Some(d)))
  {
    SplitAtFirst(t, '/', d);
    assert t + "/" + d == t + ['/'] + d;
  }

  lemma BracketedForm(t: string, d: string)
    requires t != [] && t[0] != '[' && '/' !in t && ']' !in t && AllDigits(d)
    ensures SplitText("[" + (t + "/" + d) + "]") == Some((t, Some(d)))
  {
    PlainForm(t, d);
    Bracketed(t + "/" + d, "");
    assert "[" + (t + "/" + d) + "]" == "[" + (t + "/" + d) + "]" + "";
  }

  lemma HalfBracketedForm(t: string, d: string)
    requires ']' !in t
    ensures SplitText("[" + t + "]/" + d) == Some((t, Some(d)))
  {
    Bracketed(t, "/" + d);
    assert "[" + t + "]/" + d == "[" + t + "]" + ("/" + d);
    assert ("/" + d)[1..] == d;
  }

  lemma Bracketed(inner: string, tail: string)
    requires ']' !in inner
    ensures var s := "[" + inner + "]" + tail;
            s[0] == '[' && SplitAt(s[1..], ']') == Some((inner, tail))
  {
    SplitAtFirst(inner, ']', tail);
    assert ("[" + inner + "]" + tail)[1..] == inner + [']'] + tail;
  }

  // ----- containment

  /** The addresses of a subnet, as a range of big-endian numbers. */
  ghost predicate InNet(s: Subnet, v: int)
    requires s.shift <= BitCount(s.family)
  {
    Value(s.net) <= v < Value(s.net) + Pow2(BitCount(s.family) - s.shift)
  }

  /** The bytewise test of addrmask_match on one entry. */
  predicate Hits(e: Subnet, q: Subnet) {
    e.family == q.family && Masked(q.net, e.shift) == e.net
  }

  /** Every address of q is an address of e. */
  ghost predicate Includes(e: Subnet, q: Subnet)
    requires Canonical(e) && Canonical(q)
  {
    e.family == q.family && forall v :: InNet(q, v) ==> InNet(e, v)
  }

  /** Masking an address gives the network exactly for the network's addresses. */
  lemma HitIsMembership(e: Subnet, a: Bytes)
    requires Canonical(e) && |a| == |e.net|
    ensures Masked(a, e.shift) == e.net <==> InNet(e, Value(a))
  {
    var m := BitCount(e.family) - e.shift;
    MaskValue(a, e.shift);
    MaskValue(e.net, e.shift);
    ClearLowIsFloor(Value(a), m);
    ClearLowIsFloor(Value(e.net), m);
    if Value(Masked(a, e.shift)) == Value(e.net) {
      ValueInjective(Masked(a, e.shift), e.net);
    }
    SameBlock(Value(a), Value(e.net), Pow2(m));
  }

  lemma SameBlock(v: nat, t: nat, p: nat)
    requires p > 0 && t / p * p == t
    ensures v / p * p == t <==> t <= v < t + p
  {
    var q, r := v / p, v % p;
    assert v == q * p + r;
    if t <= v < t + p {
      QuotientUnique(v, p, t / p, v - t);
    }
  }

  /** The test of addrmask_match, bytes and prefix length together, is inclusion of address sets. */
  lemma MatchIsInclusion(e: Subnet, q: Subnet)
    requires Canonical(e) && Canonical(q)
    ensures Hits(e, q) && e.shift <= q.shift <==> Includes(e, q)
  {
    if e.family == q.family {
      HitIsMembership(e, q.net);
      if InNet(e, Value(q.net)) && e.shift <= q.shift {
        InclusionHolds(e, q);
      }
      if Includes(e, q) {
        InclusionNeedsLength(e, q);
      }
    }
  }

  lemma CanonicalValue(s: Subnet)
    requires Canonical(s)
    ensures ClearLow(Value(s.net), BitCount(s.family) - s.shift) == Value(s.net)
  {
    MaskValue(s.net, s.shift);
  }

  lemma InclusionHolds(e: Subnet, q: Subnet)
    requires Canonical(e) && Canonical(q) && e.family == q.family
    requires InNet(e, Value(q.net)) && e.shift <= q.shift
    ensures Includes(e, q)
  {
    var n := BitCount(e.family);
    CanonicalValue(q);
    CanonicalValue(e);
    BlocksNest(Value(e.net), Value(q.net), n - e.shift, n - q.shift);
  }

  lemma InclusionNeedsLength(e: Subnet, q: Subnet)
    requires Canonical(e) && Canonical(q) && Includes(e, q)
    ensures InNet(e, Value(q.net)) && e.shift <= q.shift
  {
    var n := BitCount(e.family);
    assert InNet(q, Value(q.net)) && InNet(q, Value(q.net) + Pow2(n - q.shift) - 1);
    if q.shift < e.shift {
      Pow2Smaller(n - e.shift, n - q.shift);
    }
  }

  lemma Pow2Smaller(i: nat, j: nat)
    requires i < j
    ensures Pow2(i) < Pow2(j)
    decreases j - i
  {
    if i + 1 < j {
      Pow2Smaller(i + 1, j);
    }
  }

  /** An aligned block that starts inside a wider aligned block lies inside it. */
  lemma {:induction false} BlocksNest(t: nat, u: nat, i: nat, j: nat)
    requires j <= i && ClearLow(t, i) == t && ClearLow(u, j) == u && t <= u < t + Pow2(i)
    ensures u + Pow2(j) <= t + Pow2(i)
  {
    if j > 0 {
      BlocksNest(t / 2, u / 2, i - 1, j - 1);
    }
  }
}
