/** The notation addrmask_parse accepts and what it means, stated without the splitting the code does. */
module SubnetText {
  import opened Options
  import opened CStr
  import opened Prefix
  import opened Subnets

  /** An address without a slash, with or without a length behind one. */
  ghost predicate Slashed(t: string, pattern: string, mask: Option<string>) {
    '/' !in pattern && t == pattern + match mask case None => "" case Some(d) => "/" + d
  }

  /** The three ways to write an address and a length. */
  ghost predicate Written(text: string, pattern: string, mask: Option<string>) {
    || ((text == [] || text[0] != '[') && Slashed(text, pattern, mask))
    || (exists inner :: ']' !in inner && text == "[" + inner + "]" && Slashed(inner, pattern, mask))
    || (mask.Some? && ']' !in pattern && text == "[" + pattern + "]/" + mask.value)
  }

  lemma SlashedIff(t: string, pattern: string, mask: Option<string>)
    ensures SplitMask(t) == (pattern, mask) <==> Slashed(t, pattern, mask)
  {
    assert pattern + "" == pattern;
    if Slashed(t, pattern, mask) {
      match mask
      case None => assert t == pattern;
      case Some(d) =>
        SplitAtFirst(pattern, '/', d);
        assert t == pattern + ['/'] + d;
    }
  }

  /** The code's splitting finds exactly the address and length that were written. */
  lemma SplitIff(text: string, pattern: string, mask: Option<string>)
    ensures SplitText(text) == Some((pattern, mask)) <==> Written(text, pattern, mask)
  {
    if SplitText(text) == Some((pattern, mask)) {
      SplitIsWritten(text, pattern, mask);
    }
    if Written(text, pattern, mask) {
      WrittenIsSplit(text, pattern, mask);
    }
  }

  lemma SplitIsWritten(text: string, pattern: string, mask: Option<string>)
    requires SplitText(text) == Some((pattern, mask))
    ensures Written(text, pattern, mask)
  {
    if text == [] || text[0] != '[' {
      SlashedIff(text, pattern, mask);
    } else {
      BracketIsWritten(text, pattern, mask);
    }
  }

  lemma BracketIsWritten(text: string, pattern: string, mask: Option<string>)
    requires SplitText(text) == Some((pattern, mask)) && text != [] && text[0] == '['
    ensures Written(text, pattern, mask)
  {
    var (inner, tail) := SplitAt(text[1..], ']').value;
    Rejoin(text, inner, tail);
    if tail == [] {
      SlashedIff(inner, pattern, mask);
    }
  }

  lemma Rejoin(text: string, inner: string, tail: string)
    requires text != [] && text[0] == '[' && text[1..] == inner + [']'] + tail
    ensures tail == [] ==> text == "[" + inner + "]"
    ensures tail != [] && tail[0] == '/' ==> text == "[" + inner + "]/" + tail[1..]
  {
    assert text == "[" + text[1..];
    if tail != [] && tail[0] == '/' {
      assert tail == "/" + tail[1..];
      assert text == "[" + inner + "]" + tail;
      assert "[" + inner + "]/" == "[" + inner + "]" + "/";
    }
  }

  lemma WrittenIsSplit(text: string, pattern: string, mask: Option<string>)
    requires Written(text, pattern, mask)
    ensures SplitText(text) == Some((pattern, mask))
  {
    if (text == [] || text[0] != '[') && Slashed(text, pattern, mask) {
      SlashedIff(text, pattern, mask);
    } else if mask.Some? && ']' !in pattern && text == "[" + pattern + "]/" + mask.value {
      HalfBracketedForm(pattern, mask.value);
    } else {
      var inner :| ']' !in inner && text == "[" + inner + "]" && Slashed(inner, pattern, mask);
      SlashedIff(inner, pattern, mask);
      Bracketed(inner, "");
      assert "[" + inner + "]" + "" == text;
    }
  }

  /** The prefix length a text stands for: all bits without one, else its number modulo 256. */
  ghost predicate LengthOf(mask: Option<string>, f: Family, k: nat) {
    match mask
    case None => k == if f == V6 then 128 else 32
    case Some(d) => d != [] && AllDigits(d) && Num(d) < 0x8000_0000_0000_0000 && k == Num(d) % 256
  }

  /** The subnet of that length, without host bits, which holds the address written. */
  ghost predicate Denotes(h: Host, text: string, s: Subnet) {
    Canonical(s) && exists pattern, mask ::
      && Written(text, pattern, mask)
      && s.family == (if ':' in pattern then V6 else V4)
      && LengthOf(mask, s.family, s.shift)
      && h.lookup(pattern, s.family).Some? && InNet(s, Value(h.lookup(pattern, s.family).value))
  }

  /** The parser accepts exactly the texts of the notation, and yields what they denote. */
  lemma ParseDenotes(h: Host, text: string, s: Subnet)
    requires Sized(h)
    ensures Parse(h, text) == Some(s) <==> Denotes(h, text, s)
  {
    if Parse(h, text) == Some(s) {
      var (pattern, mask) := SplitText(text).value;
      SplitIff(text, pattern, mask);
      ParseCanonical(h, text);
      var b := h.lookup(pattern, s.family).value;
      if mask.None? { MaskWhole(b, s.shift); }
      HitIsMembership(s, b);
    }
    if Denotes(h, text, s) {
      DenotedIsParsed(h, text, s);
    }
  }

  lemma DenotedIsParsed(h: Host, text: string, s: Subnet)
    requires Sized(h) && Denotes(h, text, s)
    ensures Parse(h, text) == Some(s)
  {
    var pattern, mask :| Written(text, pattern, mask) && s.family == (if ':' in pattern then V6 else V4)
      && LengthOf(mask, s.family, s.shift)
      && h.lookup(pattern, s.family).Some? && InNet(s, Value(h.lookup(pattern, s.family).value));
    SplitIff(text, pattern, mask);
    var b := h.lookup(pattern, s.family).value;
    HitIsMembership(s, b);
    MaskWhole(b, BitCount(s.family));
  }

  /** addrmask_verify_subnet accepts exactly the non-empty texts that denote a subnet of the family. */
  lemma ValidExactly(h: Host, text: string, f: Family)
    requires Sized(h)
    ensures ValidSubnet(h, text, f) <==> text != "" && exists s :: Denotes(h, text, s) && s.family == f
  {
    if ValidSubnet(h, text, f) {
      ParseDenotes(h, text, Parse(h, text).value);
    }
    if text != "" && exists s :: Denotes(h, text, s) && s.family == f {
      var s :| Denotes(h, text, s) && s.family == f;
      ParseDenotes(h, text, s);
    }
  }

  /** A bare address, with or without brackets, is the subnet of that one address. */
  lemma BareAddress(h: Host, f: Family, b: Bytes)
    requires Inverse(h) && |b| == ByteCount(f)
    ensures var t := h.show(f, b);
            && Parse(h, t).Some? && Parse(h, "[" + t + "]") == Parse(h, t)
            && Canonical(Parse(h, t).value) && Parse(h, t).value.family == f
            && forall v :: InNet(Parse(h, t).value, v) <==> v == Value(b)
  {
    var t := h.show(f, b);
    assert Slashed(t, t, None) by { assert t + "" == t; }
    assert Written(t, t, None) && Written("[" + t + "]", t, None);
    SplitIff(t, t, None);
    SplitIff("[" + t + "]", t, None);
    MaskWhole(b, BitCount(f));
    assert Parse(h, t) == Some(Subnet(f, b, BitCount(f)));
  }

  /** With a length, host bits are cleared: the result is the subnet of that length that holds the address. */
  lemma AddressWithLength(h: Host, f: Family, b: Bytes, k: nat)
    requires Inverse(h) && |b| == ByteCount(f) && k <= BitCount(f)
    ensures var r := Parse(h, h.show(f, b) + "/" + Decimal(k));
            r.Some? && Canonical(r.value) && r.value.family == f && r.value.shift == k && InNet(r.value, Value(b))
  {
    var t, d := h.show(f, b), Decimal(k);
    PlainForm(t, d);
    ParseAs(h, f, b, k, t + "/" + d);
    MaskCompose(b, k, k);
    HitIsMembership(Subnet(f, Masked(b, k), k), b);
  }

  lemma ParseAs(h: Host, f: Family, b: Bytes, k: nat, text: string)
    requires Inverse(h) && |b| == ByteCount(f) && k <= BitCount(f)
    requires SplitText(text) == Some((h.show(f, b), Some(Decimal(k))))
    ensures Parse(h, text) == Some(Subnet(f, Masked(b, k), k))
  {
    var t, d := h.show(f, b), Decimal(k);
    assert h.lookup(t, f) == Some(b) && AddrFamily(t) == f;
    assert d != [] && AllDigits(d) && StoredShift(d) == k;
  }
}
