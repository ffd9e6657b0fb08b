/** strnatcmp.c: how single characters, blanks and digit runs decide the order, at any place in the strings. */
module CharOrder {
  import opened CStr
  import opened NaturalOrder

  // ----- tokens of a concatenation

  /** The two strings do not meet inside a digit run. */
  predicate Apart(p: string, r: string) {
    p == [] || r == [] || !IsDigit(p[|p| - 1]) || !IsDigit(r[0])
  }

  function Front(ts: seq<Token>): seq<Token>
    requires ts != []
  {
    ts[..|ts| - 1]
  }

  /** The tokens of two strings that are apart, put together. */
  predicate Concatenated(m: Mode, p: string, r: string) {
    && Tokens(m, p + r) == Front(Tokens(m, p)) + Tokens(m, r)
    && Tokens(m, p)[|Tokens(m, p)| - 1] == Sign(0)
  }

  lemma {:induction false} TokensConcat(m: Mode, p: string, r: string)
    requires Apart(p, r)
    ensures Concatenated(m, p, r)
    decreases |p|
  {
    if p == [] {
      assert p + r == r;
    } else if IsDigit(p[0]) {
      RunConcat(m, p, r);
      TokensConcat(m, p[|DigitPrefix(p)|..], r);
      RunFirst(m, p, r);
    } else {
      assert Apart(p[1..], r);
      TokensConcat(m, p[1..], r);
      OtherFirst(m, p, r);
    }
  }

  lemma RunFirst(m: Mode, p: string, r: string)
    requires p != [] && IsDigit(p[0]) && Apart(p, r) && Concatenated(m, p[|DigitPrefix(p)|..], r)
    ensures Concatenated(m, p, r)
  {
    RunConcat(m, p, r);
    PrependToken(Run(DigitPrefix(p)), Tokens(m, p[|DigitPrefix(p)|..]), Tokens(m, r));
  }

  lemma OtherFirst(m: Mode, p: string, r: string)
    requires p != [] && !IsDigit(p[0]) && Concatenated(m, p[1..], r)
    ensures Concatenated(m, p, r)
  {
    assert (p + r)[0] == p[0] && (p + r)[1..] == p[1..] + r;
    if !IsSpace(p[0]) {
      PrependToken(Sign(CharKey(m, p[0])), Tokens(m, p[1..]), Tokens(m, r));
    }
  }

  lemma PrependToken(t: Token, ts: seq<Token>, us: seq<Token>)
    requires ts != []
    ensures [t] + (Front(ts) + us) == Front([t] + ts) + us
    ensures ([t] + ts)[|[t] + ts| - 1] == ts[|ts| - 1]
  {
    assert Front([t] + ts) == [t] + Front(ts);
  }

  lemma RunConcat(m: Mode, p: string, r: string)
    requires p != [] && IsDigit(p[0]) && Apart(p, r)
    ensures var d := DigitPrefix(p);
            && d != [] && Apart(p[|d|..], r)
            && Tokens(m, p) == [Run(d)] + Tokens(m, p[|d|..])
            && Tokens(m, p + r) == [Run(d)] + Tokens(m, p[|d|..] + r)
  {
    var d := DigitPrefix(p);
    var rest := p[|d|..] + r;
    assert p + r == d + rest;
    assert rest != [] ==> !IsDigit(rest[0]) by {
      if p[|d|..] == [] {
        assert p == d;
        assert rest == r;
      } else {
        assert rest[0] == p[|d|];
      }
    }
    RunThenRest(m, d, rest);
  }

  lemma CStringConcat(a: string, b: string)
    requires CString(a) && CString(b)
    ensures CString(a + b)
  {
  }

  /** What stands in front of both strings does not matter. */
  lemma {:induction false} SamePrefix(ps: seq<Token>, ts: seq<Token>, us: seq<Token>)
    requires ValidTokens(ps) && ValidTokens(ts) && ValidTokens(us)
    ensures ValidTokens(ps + ts) && ValidTokens(ps + us)
    ensures CompareTokens(ps + ts, ps + us) == CompareTokens(ts, us)
  {
    if ps == [] {
      assert ps + ts == ts && ps + us == us;
    } else {
      assert (ps + ts)[1..] == ps[1..] + ts && (ps + us)[1..] == ps[1..] + us;
      TokenAntisymmetric(ps[0], ps[0]);
      SamePrefix(ps[1..], ts, us);
    }
  }

  /** With a common front that ends no digit run, only the rests are compared. */
  lemma OrderOfRests(m: Mode, p: string, a: string, b: string)
    requires CString(p) && CString(a) && CString(b) && Apart(p, a) && Apart(p, b)
    ensures CString(p + a) && CString(p + b)
    ensures NatOrder(m, p + a, p + b) == NatOrder(m, a, b)
  {
    CStringConcat(p, a);
    CStringConcat(p, b);
    TokensConcat(m, p, a);
    TokensConcat(m, p, b);
    TokensValid(m, p);
    TokensValid(m, a);
    TokensValid(m, b);
    SamePrefix(Front(Tokens(m, p)), Tokens(m, a), Tokens(m, b));
  }

  lemma FirstDecides(m: Mode, a: string, b: string)
    requires CString(a) && CString(b)
    ensures var t, u := Tokens(m, a)[0], Tokens(m, b)[0];
            ValidToken(t) && ValidToken(u) && (CompareToken(t, u) != 0 ==> NatOrder(m, a, b) == CompareToken(t, u))
  {
    TokensValid(m, a);
    TokensValid(m, b);
  }

  // ----- characters

  /** The value a character is compared by: its code, or that of the capital letter when case is folded. */
  function Code(fold: bool, x: char): int {
    if fold && 'a' <= x <= 'z' then x as int - 32 else x as int
  }

  /** A 7-bit character that is neither the terminator nor a blank. */
  predicate Ascii(x: char) { '\0' < x < 128 as char && !IsSpace(x) }

  lemma HeadToken(m: Mode, x: char, s: string)
    requires Ascii(x)
    ensures !IsDigit(x) ==> Tokens(m, [x] + s)[0] == Sign(Code(m.foldCase, x))
    ensures IsDigit(x) ==> Tokens(m, [x] + s)[0].Run? && Tokens(m, [x] + s)[0].digits[..1] == [x]
  {
    var t := [x] + s;
    assert t[0] == x && t[1..] == s;
    if IsDigit(x) {
      var d := DigitPrefix(t);
      assert d != [] && d[0] == t[0];
    }
  }

  /** The first place where two strings differ decides by the character codes, unless digit runs meet there. */
  lemma CharactersDecide(m: Mode, p: string, x: char, s: string, y: char, t: string)
    requires CString(p) && CString(s) && CString(t) && Ascii(x) && Ascii(y)
    requires !(IsDigit(x) && IsDigit(y)) && (IsDigit(x) || IsDigit(y) ==> p == [] || !IsDigit(p[|p| - 1]))
    ensures CString(p + ([x] + s)) && CString(p + ([y] + t))
    ensures var c, d := Code(m.foldCase, x), Code(m.foldCase, y);
            && (c < d ==> NatOrder(m, p + ([x] + s), p + ([y] + t)) == -1)
            && (c > d ==> NatOrder(m, p + ([x] + s), p + ([y] + t)) == 1)
  {
    var a, b := [x] + s, [y] + t;
    OrderOfRests(m, p, a, b);
    HeadToken(m, x, s);
    HeadToken(m, y, t);
    FirstDecides(m, a, b);
    assert IsDigit(x) ==> Tokens(m, a)[0].digits[0] == x;
    assert IsDigit(y) ==> Tokens(m, b)[0].digits[0] == y;
  }

  /** A string followed by another character comes after the string itself. */
  lemma LongerIsLater(m: Mode, p: string, x: char, s: string)
    requires CString(p) && CString(s) && Ascii(x) && (IsDigit(x) ==> p == [] || !IsDigit(p[|p| - 1]))
    ensures CString(p + ([x] + s)) && NatOrder(m, p + ([x] + s), p) == 1
  {
    OrderOfRests(m, p, [x] + s, []);
    assert p + [] == p;
    HeadToken(m, x, s);
    FirstDecides(m, [x] + s, []);
    assert IsDigit(x) ==> Tokens(m, [x] + s)[0].digits[0] == x;
  }

  /** A character beyond ASCII comes before the end of the string where char is signed, else after all of ASCII. */
  lemma HighCharacter(m: Mode, p: string, x: char, s: string, y: char, t: string)
    requires CString(p) && CString(s) && CString(t) && 128 <= x as int < 256
    requires Ascii(y) && (IsDigit(y) ==> p == [] || !IsDigit(p[|p| - 1]))
    ensures CString(p + ([x] + s)) && CString(p + ([y] + t))
    ensures NatOrder(m, p + ([x] + s), p) == if m.signedChar then -1 else 1
    ensures NatOrder(m, p + ([x] + s), p + ([y] + t)) == if m.signedChar then -1 else 1
  {
    var a, b := [x] + s, [y] + t;
    assert CString(a) && a[0] == x && a[1..] == s;
    assert Tokens(m, a)[0] == Sign(if m.signedChar then x as int - 256 else x as int);
    OrderOfRests(m, p, a, []);
    OrderOfRests(m, p, a, b);
    assert p + [] == p;
    FirstDecides(m, a, []);
    FirstDecides(m, a, b);
    HeadToken(m, y, t);
    assert IsDigit(y) ==> Tokens(m, b)[0].digits[0] == y;
  }

  /** A version with a suffix is above the version, so a pre-release of 1.1 passes the gate "above 1.1". */
  lemma SuffixedVersionAbove(m: Mode, v: seq<nat>, x: char, s: string)
    requires v != [] && CString(s) && Ascii(x) && !IsDigit(x)
    ensures CString(Dotted(v)) && CString(Dotted(v) + ([x] + s)) && Above(m, Dotted(v) + ([x] + s), Dotted(v))
  {
    DottedIsCString(v);
    LongerIsLater(m, Dotted(v), x, s);
  }

  lemma PreReleaseAbove(m: Mode)
    ensures CString("1.1pre17") && CString("1.1") && Above(m, "1.1pre17", "1.1")
  {
    LongerIsLater(m, "1.1", 'p', "re17");
    assert "1.1" + (['p'] + "re17") == "1.1pre17";
  }

  // ----- case, blanks, leading zeros

  /** Folding case makes strings equal that differ in case only. */
  lemma {:induction false} FoldedEqual(m: Mode, a: string, b: string)
    requires m.foldCase && CString(a) && CString(b)
    requires |a| == |b| && forall i | 0 <= i < |a| :: Code(true, a[i]) == Code(true, b[i])
    ensures NatOrder(m, a, b) == 0
  {
    FoldedTokens(m, a, b);
    NaturalOrderLaws(m, a, b, a);
  }

  lemma {:induction false} FoldedTokens(m: Mode, a: string, b: string)
    requires m.foldCase && |a| == |b| && forall i | 0 <= i < |a| :: Code(true, a[i]) == Code(true, b[i])
    ensures Tokens(m, a) == Tokens(m, b)
    decreases |a|
  {
    if a != [] {
      assert Code(true, a[0]) == Code(true, b[0]);
      if IsDigit(a[0]) {
        var d := DigitPrefix(a);
        assert forall i | 0 <= i < |d| :: Code(true, a[i]) == Code(true, b[i]) && IsDigit(d[i]);
        assert b[..|d|] == d && b == d + b[|d|..];
        assert |d| < |b| ==> Code(true, a[|d|]) == Code(true, b[|d|]);
        DigitPrefixUnique(b, d, b[|d|..]);
        FoldedTokens(m, a[|d|..], b[|d|..]);
      } else {
        FoldedTokens(m, a[1..], b[1..]);
      }
    }
  }

  /** A blank that does not part two digits changes nothing. */
  lemma BlankIgnored(m: Mode, p: string, c: char, s: string)
    requires CString(p) && CString(s) && (c == ' ' || '\t' <= c <= '\r') && Apart(p, s)
    ensures CString(p + ([c] + s)) && CString(p + s) && NatOrder(m, p + ([c] + s), p + s) == 0
  {
    CStringConcat(p, [c] + s);
    CStringConcat(p, s);
    TokensConcat(m, p, [c] + s);
    TokensConcat(m, p, s);
    assert ([c] + s)[1..] == s;
    NaturalOrderLaws(m, p + ([c] + s), p + s, p);
  }

  lemma HeadRun(m: Mode, d: string, s: string)
    requires d != [] && AllDigits(d) && CString(s) && (s == [] || !IsDigit(s[0]))
    ensures CString(d + s) && Tokens(m, d + s)[0] == Run(d)
  {
    RunThenRest(m, d, s);
    assert forall i | 0 <= i < |d| :: IsDigit(d[i]);
  }

  /** When one of two digit runs starts with a zero, they are compared like fractions: the first difference decides. */
  lemma FractionsDecide(m: Mode, d: string, s: string, e: string, t: string, k: nat)
    requires d != [] && e != [] && AllDigits(d) && AllDigits(e) && CString(s) && CString(t)
    requires (s == [] || !IsDigit(s[0])) && (t == [] || !IsDigit(t[0]))
    requires d[0] == '0' || e[0] == '0'
    requires k < |d| && k <= |e| && d[..k] == e[..k] && (k < |e| ==> d[k] != e[k])
    ensures CString(d + s) && CString(e + t)
    ensures NatOrder(m, d + s, e + t) == if k == |e| then 1 else Sgn(d[k] as int - e[k] as int)
  {
    HeadRun(m, d, s);
    HeadRun(m, e, t);
    FirstDecides(m, d + s, e + t);
    LexAt(d, e, k);
  }

  lemma LexAt(d: string, e: string, k: nat)
    requires k < |d| && k <= |e| && d[..k] == e[..k] && (k < |e| ==> d[k] != e[k])
    ensures Lex(d, e) == if k == |e| then 1 else Sgn(d[k] as int - e[k] as int)
  {
    assert d == d[..k] + d[k..] && e == d[..k] + e[k..];
    LexPrefix(d[..k], d[k..], e[k..]);
  }

  /** Otherwise the longer run is the larger number, and runs of one length compare as numbers. */
  lemma NumbersDecide(m: Mode, d: string, s: string, e: string, t: string)
    requires d != [] && e != [] && AllDigits(d) && AllDigits(e) && CString(s) && CString(t)
    requires (s == [] || !IsDigit(s[0])) && (t == [] || !IsDigit(t[0]))
    requires d[0] != '0' && e[0] != '0' && Num(d) != Num(e)
    ensures CString(d + s) && CString(e + t)
    ensures NatOrder(m, d + s, e + t) == Sgn(Num(d) - Num(e))
  {
    HeadRun(m, d, s);
    HeadRun(m, e, t);
    FirstDecides(m, d + s, e + t);
    RunsByNumber(d, e);
  }

  lemma RunsByNumber(d: string, e: string)
    requires d != [] && e != [] && AllDigits(d) && AllDigits(e) && d[0] != '0' && e[0] != '0'
    ensures CompareRuns(d, e) == Sgn(Num(d) - Num(e))
  {
    if |d| == |e| {
      LexNumeric(d, e);
    } else {
      NumBound(d);
      NumBound(e);
      NumLow(d);
      NumLow(e);
      if |d| < |e| { Pow10Monotone(|d|, |e| - 1); } else { Pow10Monotone(|e|, |d| - 1); }
    }
  }
}
