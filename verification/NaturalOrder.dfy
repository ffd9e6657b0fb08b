/** strnatcmp.c: natural order on strings, and the version gates that rest on it. */
module NaturalOrder {
  import opened CStr

  /** The comparison's two settings: whether C's char is signed, and fold_case. */
  datatype Mode = Mode(signedChar: bool, foldCase: bool)

  /** A maximal run of digits, or one other character (the terminator included) by its value as a C char. */
  datatype Token = Run(digits: string) | Sign(key: int)

  function CharKey(m: Mode, c: char): int {
    var k := (if m.foldCase then ToUpper(c) else c) as int;
    if m.signedChar && 128 <= k < 256 then k - 256 else k
  }

  /** Tokens of a string: white space separates runs and is otherwise dropped; the terminator closes. */
  function Tokens(m: Mode, s: string): (ts: seq<Token>)
    ensures |ts| > 0
    decreases |s|
  {
    if s == [] then [Sign(0)]
    else if IsSpace(s[0]) then Tokens(m, s[1..])
    else if IsDigit(s[0]) then
      var d := DigitPrefix(s);
      [Run(d)] + Tokens(m, s[|d|..])
    else [Sign(CharKey(m, s[0]))] + Tokens(m, s[1..])
  }

  // ----- the order on tokens

  /** Left-aligned comparison: first difference decides, a proper prefix is smaller. */
  function Lex(d: string, e: string): int {
    if d == [] && e == [] then 0
    else if d == [] then -1
    else if e == [] then 1
    else if d[0] != e[0] then Sgn(d[0] as int - e[0] as int)
    else Lex(d[1..], e[1..])
  }

  /** Right-aligned comparison: the longer run wins, then the first difference. */
  function Right(d: string, e: string): int {
    if |d| != |e| then Sgn(|d| - |e|) else Lex(d, e)
  }

  function CompareRuns(d: string, e: string): int
    requires d != [] && e != []
  {
    if d[0] == '0' || e[0] == '0' then Lex(d, e) else Right(d, e)
  }

  ghost predicate ValidToken(t: Token) {
    match t
    case Run(d) => d != [] && AllDigits(d)
    case Sign(k) => !('0' as int <= k <= '9' as int)
  }

  function TokenKey(t: Token): int
    requires t.Run? ==> t.digits != []
  {
    match t
    case Run(d) => d[0] as int
    case Sign(k) => k
  }

  function CompareToken(t: Token, u: Token): int
    requires t.Run? ==> t.digits != []
    requires u.Run? ==> u.digits != []
  {
    if t.Run? && u.Run? then CompareRuns(t.digits, u.digits)
    else Sgn(TokenKey(t) - TokenKey(u))
  }

  ghost predicate ValidTokens(ts: seq<Token>) { forall i | 0 <= i < |ts| :: ValidToken(ts[i]) }

  /** Lexicographic comparison of token sequences. */
  ghost function CompareTokens(ts: seq<Token>, us: seq<Token>): int
    requires ValidTokens(ts) && ValidTokens(us)
  {
    if ts == [] && us == [] then 0
    else if ts == [] then -1
    else if us == [] then 1
    else
      var c := CompareToken(ts[0], us[0]);
      if c != 0 then c else CompareTokens(ts[1..], us[1..])
  }

  lemma {:induction false} TokensValid(m: Mode, s: string)
    requires CString(s)
    ensures ValidTokens(Tokens(m, s))
    decreases |s|
  {
    if s == [] {
    } else if IsSpace(s[0]) {
      TokensValid(m, s[1..]);
    } else if IsDigit(s[0]) {
      TokensValid(m, s[|DigitPrefix(s)|..]);
    } else {
      TokensValid(m, s[1..]);
    }
  }

  // ----- total order

  lemma {:induction false} LexAntisymmetric(d: string, e: string)
    ensures Lex(d, e) == -Lex(e, d)
    ensures Lex(d, e) == 0 <==> d == e
  {
    if d != [] && e != [] && d[0] == e[0] {
      LexAntisymmetric(d[1..], e[1..]);
      assert d == [d[0]] + d[1..] && e == [e[0]] + e[1..];
    }
  }

  lemma {:induction false} LexTransitive(d: string, e: string, f: string)
    requires Lex(d, e) <= 0 && Lex(e, f) <= 0
    ensures Lex(d, f) <= 0
  {
    if d != [] && e != [] && f != [] && d[0] == e[0] == f[0] {
      LexTransitive(d[1..], e[1..], f[1..]);
    }
  }

  lemma TokenAntisymmetric(t: Token, u: Token)
    requires ValidToken(t) && ValidToken(u)
    ensures CompareToken(t, u) == -CompareToken(u, t)
    ensures CompareToken(t, u) == 0 <==> t == u
  {
    if t.Run? && u.Run? {
      LexAntisymmetric(t.digits, u.digits);
    } else if t.Run? {
      assert IsDigit(t.digits[0]);
    } else if u.Run? {
      assert IsDigit(u.digits[0]);
    }
  }

  lemma TokenTransitive(t: Token, u: Token, v: Token)
    requires ValidToken(t) && ValidToken(u) && ValidToken(v)
    requires CompareToken(t, u) <= 0 && CompareToken(u, v) <= 0
    ensures CompareToken(t, v) <= 0
  {
    if t.Run? { assert IsDigit(t.digits[0]); }
    if u.Run? { assert IsDigit(u.digits[0]); }
    if v.Run? { assert IsDigit(v.digits[0]); }
    if t.Run? && u.Run? && v.Run? {
      RunsTransitive(t.digits, u.digits, v.digits);
    }
  }

  /** The delicate case: runs starting with 0 compare left-aligned, all others right-aligned. */
  lemma RunsTransitive(d: string, e: string, f: string)
    requires d != [] && e != [] && f != [] && AllDigits(d) && AllDigits(e) && AllDigits(f)
    requires CompareRuns(d, e) <= 0 && CompareRuns(e, f) <= 0
    ensures CompareRuns(d, f) <= 0
  {
    assert IsDigit(d[0]) && IsDigit(e[0]) && IsDigit(f[0]);
    if Lex(d, e) <= 0 && Lex(e, f) <= 0 {
      LexTransitive(d, e, f);
    }
  }

  lemma {:induction false} TokensAntisymmetric(ts: seq<Token>, us: seq<Token>)
    requires ValidTokens(ts) && ValidTokens(us)
    ensures CompareTokens(ts, us) == -CompareTokens(us, ts)
    ensures CompareTokens(ts, us) == 0 <==> ts == us
  {
    if ts != [] && us != [] {
      TokenAntisymmetric(ts[0], us[0]);
      TokensAntisymmetric(ts[1..], us[1..]);
      assert ts == [ts[0]] + ts[1..] && us == [us[0]] + us[1..];
    }
  }

  lemma {:induction false} TokensTransitive(ts: seq<Token>, us: seq<Token>, vs: seq<Token>)
    requires ValidTokens(ts) && ValidTokens(us) && ValidTokens(vs)
    requires CompareTokens(ts, us) <= 0 && CompareTokens(us, vs) <= 0
    ensures CompareTokens(ts, vs) <= 0
  {
    if ts != [] && us != [] && vs != [] {
      TokenTransitive(ts[0], us[0], vs[0]);
      TokenAntisymmetric(ts[0], us[0]);
      TokenAntisymmetric(us[0], vs[0]);
      TokenAntisymmetric(ts[0], vs[0]);
      if ts[0] == us[0] == vs[0] {
        TokensTransitive(ts[1..], us[1..], vs[1..]);
      }
    }
  }

  // ----- the code

  /** The result strnatcmp0 is meant to have. */
  ghost function NatOrder(m: Mode, a: string, b: string): int
    requires CString(a) && CString(b)
  {
    TokensValid(m, a);
    TokensValid(m, b);
    CompareTokens(Tokens(m, a), Tokens(m, b))
  }

  lemma {:induction false} LexSnoc(d: string, e: string, x: char, y: char)
    requires |d| == |e|
    ensures Lex(d + [x], e + [y]) == if Lex(d, e) != 0 then Lex(d, e) else Sgn(x as int - y as int)
  {
    if d == [] {
    } else {
      assert (d + [x])[1..] == d[1..] + [x] && (e + [y])[1..] == e[1..] + [y];
      LexSnoc(d[1..], e[1..], x, y);
    }
  }

  lemma {:induction false} LexPrefix(p: string, d: string, e: string)
    ensures Lex(p + d, p + e) == Lex(d, e)
  {
    if p == [] {
      assert p + d == d && p + e == e;
    } else {
      assert (p + d)[1..] == p[1..] + d && (p + e)[1..] == p[1..] + e;
      LexPrefix(p[1..], d, e);
    }
  }

  /** compare_right on pointers into two strings. */
  method CompareRight(a: string, b: string) returns (r: int)
    requires CString(a) && CString(b)
    ensures r == Right(DigitPrefix(a), DigitPrefix(b))
  {
    ghost var d, e := DigitPrefix(a), DigitPrefix(b);
    var bias := 0;
    var i := 0;
    while true
      invariant 0 <= i <= |d| && i <= |e|
      invariant bias == Lex(d[..i], e[..i])
      decreases |a| - i
    {
      var ca, cb := At(a, i), At(b, i);
      assert IsDigit(ca) <==> i < |d|;
      assert IsDigit(cb) <==> i < |e|;
      if !IsDigit(ca) && !IsDigit(cb) {
        assert d[..i] == d && e[..i] == e;
        return bias;
      } else if !IsDigit(ca) {
        return -1;
      } else if !IsDigit(cb) {
        return 1;
      }
      LexSnoc(d[..i], e[..i], ca, cb);
      assert d[..i + 1] == d[..i] + [ca] && e[..i + 1] == e[..i] + [cb];
      if ca < cb {
        if bias == 0 {
          bias := -1;
        }
      } else if ca > cb {
        if bias == 0 {
          bias := 1;
        }
      }
      i := i + 1;
    }
  }

  /** compare_left on pointers into two strings. */
  method CompareLeft(a: string, b: string) returns (r: int)
    requires CString(a) && CString(b)
    ensures r == Lex(DigitPrefix(a), DigitPrefix(b))
  {
    ghost var d, e := DigitPrefix(a), DigitPrefix(b);
    var i := 0;
    while true
      invariant 0 <= i <= |d| && i <= |e|
      invariant Lex(d, e) == Lex(d[i..], e[i..])
      decreases |a| - i
    {
      var ca, cb := At(a, i), At(b, i);
      assert IsDigit(ca) <==> i < |d|;
      assert IsDigit(cb) <==> i < |e|;
      if !IsDigit(ca) && !IsDigit(cb) {
        return 0;
      } else if !IsDigit(ca) {
        return -1;
      } else if !IsDigit(cb) {
        return 1;
      } else if ca < cb {
        return -1;
      } else if ca > cb {
        return 1;
      }
      assert d[i..][1..] == d[i + 1..] && e[i..][1..] == e[i + 1..];
      i := i + 1;
    }
  }

  /** Stepping one character past two equal heads leaves the comparison unchanged, also inside a run. */
  lemma StepEqual(m: Mode, a: string, ai: nat, b: string, bi: nat)
    requires CString(a) && CString(b) && ai < |a| && bi < |b|
    requires !IsSpace(a[ai]) && !IsSpace(b[bi])
    requires IsDigit(a[ai]) && IsDigit(b[bi]) ==> DigitPrefix(a[ai..]) == DigitPrefix(b[bi..])
    requires CharKey(m, a[ai]) == CharKey(m, b[bi])
    ensures OrderFrom(m, a, ai, b, bi) == OrderFrom(m, a, ai + 1, b, bi + 1)
  {
    var u, v := a[ai..], b[bi..];
    assert u[1..] == a[ai + 1..] && v[1..] == b[bi + 1..];
    TokensValid(m, u);
    TokensValid(m, v);
    TokenAntisymmetric(Tokens(m, u)[0], Tokens(m, v)[0]);
    if IsDigit(u[0]) {
      InsideRun(m, u);
      InsideRun(m, v);
      TokensValid(m, u[1..]);
      var d := DigitPrefix(u);
      if |d| > 1 {
        TokenAntisymmetric(Run(d[1..]), Run(d[1..]));
      }
    }
  }

  /** Tokens of a string that starts inside a run. */
  lemma InsideRun(m: Mode, s: string)
    requires s != [] && IsDigit(s[0])
    ensures var d := DigitPrefix(s);
            var rest := Tokens(m, s[|d|..]);
            Tokens(m, s) == [Run(d)] + rest &&
            Tokens(m, s[1..]) == if |d| > 1 then [Run(d[1..])] + rest else rest
  {
    var d := DigitPrefix(s);
    if |d| > 1 {
      assert s[1] == d[1];
      DigitPrefixUnique(s[1..], d[1..], s[|d|..]);
      assert s[1..][|d| - 1..] == s[|d|..];
    }
  }

  /** The order on what is left of the strings at two offsets. */
  ghost function OrderFrom(m: Mode, a: string, ai: nat, b: string, bi: nat): int
    requires CString(a) && CString(b) && ai <= |a| && bi <= |b|
  {
    NatOrder(m, a[ai..], b[bi..])
  }

  /** The comparison of the two runs that start at two offsets. */
  ghost function RunsFrom(a: string, ai: nat, b: string, bi: nat): int
    requires ai <= |a| && bi <= |b| && IsDigit(At(a, ai)) && IsDigit(At(b, bi))
  {
    CompareRuns(DigitPrefix(a[ai..]), DigitPrefix(b[bi..]))
  }

  /** White space in front changes nothing. */
  lemma {:induction false} SkipSpace(m: Mode, s: string, i: nat, j: nat)
    requires i <= j <= |s| && forall k | i <= k < j :: IsSpace(s[k])
    ensures Tokens(m, s[i..]) == Tokens(m, s[j..])
    decreases j - i
  {
    if i < j {
      assert s[i..][1..] == s[i + 1..];
      SkipSpace(m, s, i + 1, j);
    }
  }

  /** The first token of a string whose first character is not white space. */
  lemma FirstToken(m: Mode, s: string, i: nat)
    requires CString(s) && i <= |s| && !IsSpace(At(s, i))
    ensures var t := Tokens(m, s[i..])[0];
            if IsDigit(At(s, i)) then t == Run(DigitPrefix(s[i..])) && t.digits != [] && t.digits[0] == At(s, i)
            else t == Sign(CharKey(m, At(s, i)))
    ensures CharKey(m, At(s, i)) == 0 <==> i == |s|
  {
  }

  /** What two heads decide, neither of them white space. */
  lemma HeadsDecide(m: Mode, a: string, ai: nat, b: string, bi: nat)
    requires CString(a) && CString(b) && ai <= |a| && bi <= |b|
    requires !IsSpace(At(a, ai)) && !IsSpace(At(b, bi))
    ensures var r, ka, kb := OrderFrom(m, a, ai, b, bi), CharKey(m, At(a, ai)), CharKey(m, At(b, bi));
            if IsDigit(At(a, ai)) && IsDigit(At(b, bi)) then
              var d, e := DigitPrefix(a[ai..]), DigitPrefix(b[bi..]);
              d[0] == At(a, ai) && e[0] == At(b, bi) && (CompareRuns(d, e) != 0 ==> r == CompareRuns(d, e)) && (CompareRuns(d, e) == 0 ==> d == e && ka == kb)
            else
              (ka != kb ==> r == Sgn(ka - kb)) && (ai == |a| && bi == |b| ==> r == 0)
    ensures CharKey(m, At(a, ai)) == 0 <==> ai == |a|
    ensures CharKey(m, At(b, bi)) == 0 <==> bi == |b|
  {
    FirstToken(m, a, ai);
    FirstToken(m, b, bi);
    TokensValid(m, a[ai..]);
    TokensValid(m, b[bi..]);
    TokenAntisymmetric(Tokens(m, a[ai..])[0], Tokens(m, b[bi..])[0]);
    if ai == |a| && bi == |b| {
      assert a[ai..] == [] && b[bi..] == [];
      assert Tokens(m, []) == [Sign(0)] && [Sign(0)][1..] == [];
    }
  }

  /** One round of the loop: white space up to aj and bj, then the heads there decide or are stepped over. */
  lemma Round(m: Mode, a: string, ai: nat, aj: nat, b: string, bi: nat, bj: nat)
    requires CString(a) && CString(b) && ai <= aj <= |a| && bi <= bj <= |b|
    requires forall k | ai <= k < aj :: IsSpace(a[k])
    requires forall k | bi <= k < bj :: IsSpace(b[k])
    requires !IsSpace(At(a, aj)) && !IsSpace(At(b, bj))
    ensures var ca, cb := At(a, aj), At(b, bj);
            var r, ka, kb := OrderFrom(m, a, ai, b, bi), CharKey(m, ca), CharKey(m, cb);
            var c := if IsDigit(ca) && IsDigit(cb) then RunsFrom(a, aj, b, bj) else 0;
            if c != 0 then r == c
            else if ca == cb == '\0' then r == 0
            else if ka != kb then r == Sgn(ka - kb)
            else aj < |a| && bj < |b| && r == OrderFrom(m, a, aj + 1, b, bj + 1)
  {
    SkipSpace(m, a, ai, aj);
    SkipSpace(m, b, bi, bj);
    HeadsDecide(m, a, aj, b, bj);
    if aj < |a| && bj < |b| && CharKey(m, a[aj]) == CharKey(m, b[bj]) {
      if IsDigit(a[aj]) && IsDigit(b[bj]) ==> DigitPrefix(a[aj..]) == DigitPrefix(b[bj..]) {
        StepEqual(m, a, aj, b, bj);
      }
    }
  }

  /** The digit branch: left-aligned as soon as one run starts with 0. */
  method CompareDigits(a: string, ai: nat, b: string, bi: nat) returns (result: int)
    requires CString(a) && CString(b) && ai <= |a| && bi <= |b| && IsDigit(At(a, ai)) && IsDigit(At(b, bi))
    ensures result == RunsFrom(a, ai, b, bi)
  {
    var fractional := At(a, ai) == '0' || At(b, bi) == '0';
    if fractional {
      result := CompareLeft(a[ai..], b[bi..]);
    } else {
      result := CompareRight(a[ai..], b[bi..]);
    }
  }

  /** strnatcmp0 computes the lexicographic order on tokens. */
  method StrNatCmp0(m: Mode, a: string, b: string) returns (r: int)
    requires CString(a) && CString(b)
    ensures r == NatOrder(m, a, b)
  {
    var ai, bi := 0, 0;
    assert a[0..] == a && b[0..] == b;
    while true
      invariant 0 <= ai <= |a| && 0 <= bi <= |b|
      invariant NatOrder(m, a, b) == OrderFrom(m, a, ai, b, bi)
      decreases |a| - ai
    {
      ghost var a0, b0 := ai, bi;
      while IsSpace(At(a, ai))
        invariant a0 <= ai <= |a| && forall k | a0 <= k < ai :: IsSpace(a[k])
        decreases |a| - ai
      {
        ai := ai + 1;
      }
      while IsSpace(At(b, bi))
        invariant b0 <= bi <= |b| && forall k | b0 <= k < bi :: IsSpace(b[k])
        decreases |b| - bi
      {
        bi := bi + 1;
      }
      var ca, cb := At(a, ai), At(b, bi);
      Round(m, a, a0, ai, b, b0, bi);
      if IsDigit(ca) && IsDigit(cb) {
        var result := CompareDigits(a, ai, b, bi);
        if result != 0 {
          return result;
        }
      }
      if ca == '\0' && cb == '\0' {
        return 0;
      }
      var ka, kb := CharKey(m, ca), CharKey(m, cb);
      if ka < kb {
        return -1;
      } else if ka > kb {
        return 1;
      }
      ai, bi := ai + 1, bi + 1;
    }
  }

  // ----- what callers rely on

  /** strnatcmp and strnatcasecmp are total preorders; equal means equal tokens. */
  lemma NaturalOrderLaws(m: Mode, a: string, b: string, c: string)
    requires CString(a) && CString(b) && CString(c)
    ensures NatOrder(m, a, b) in {-1, 0, 1} && NatOrder(m, a, a) == 0
    ensures NatOrder(m, a, b) == -NatOrder(m, b, a)
    ensures NatOrder(m, a, b) == 0 <==> Tokens(m, a) == Tokens(m, b)
    ensures NatOrder(m, a, b) <= 0 && NatOrder(m, b, c) <= 0 ==> NatOrder(m, a, c) <= 0
    ensures NatOrder(m, a, b) < 0 && NatOrder(m, b, c) <= 0 ==> NatOrder(m, a, c) < 0
    ensures NatOrder(m, a, b) <= 0 && NatOrder(m, b, c) < 0 ==> NatOrder(m, a, c) < 0
  {
    TokensValid(m, a);
    TokensValid(m, b);
    TokensValid(m, c);
    var ta, tb, tc := Tokens(m, a), Tokens(m, b), Tokens(m, c);
    SignOnly(ta, tb);
    TokensAntisymmetric(ta, ta);
    TokensAntisymmetric(ta, tb);
    TokensAntisymmetric(tb, tc);
    TokensAntisymmetric(ta, tc);
    if CompareTokens(ta, tb) <= 0 && CompareTokens(tb, tc) <= 0 {
      TokensTransitive(ta, tb, tc);
    }
  }

  lemma {:induction false} SignOnly(ts: seq<Token>, us: seq<Token>)
    requires ValidTokens(ts) && ValidTokens(us)
    ensures CompareTokens(ts, us) in {-1, 0, 1}
  {
    if ts != [] && us != [] {
      if ts[0].Run? && us[0].Run? {
        LexSign(ts[0].digits, us[0].digits);
      }
      SignOnly(ts[1..], us[1..]);
    }
  }

  lemma {:induction false} LexSign(d: string, e: string)
    ensures Lex(d, e) in {-1, 0, 1}
  {
    if d != [] && e != [] {
      LexSign(d[1..], e[1..]);
    }
  }

  /** Two runs of one length compare like the numbers they denote. */
  lemma {:induction false} LexNumeric(d: string, e: string)
    requires AllDigits(d) && AllDigits(e) && |d| == |e|
    ensures Lex(d, e) == Sgn(Num(d) - Num(e))
  {
    if d != [] {
      var k := |d| - 1;
      LexNumeric(d[..k], e[..k]);
      LexSnoc(d[..k], e[..k], d[k], e[k]);
      assert d == d[..k] + [d[k]] && e == e[..k] + [e[k]];
      assert IsDigit(d[k]) && IsDigit(e[k]);
    }
  }

  /** Digit runs as printed by %d compare like the numbers, whatever their size. */
  lemma RunsNumeric(i: nat, j: nat)
    ensures CompareRuns(Decimal(i), Decimal(j)) == Sgn(i - j)
  {
    var d, e := Decimal(i), Decimal(j);
    assert IsDigit(d[0]) && IsDigit(e[0]);
    if i == 0 || j == 0 {
      if i == j { LexAntisymmetric(d, e); }
    } else if |d| == |e| {
      LexNumeric(d, e);
    } else {
      NumLow(d); NumBound(d); NumLow(e); NumBound(e);
      if |d| < |e| { Pow10Monotone(|d|, |e| - 1); } else { Pow10Monotone(|e|, |d| - 1); }
    }
  }

  /** A version with the given components, written in dotted decimal. */
  function Dotted(v: seq<nat>): string
    requires v != []
  {
    if |v| == 1 then Decimal(v[0]) else Decimal(v[0]) + "." + Dotted(v[1..])
  }

  function LexNat(u: seq<nat>, v: seq<nat>): int {
    if u == [] && v == [] then 0
    else if u == [] then -1
    else if v == [] then 1
    else if u[0] < v[0] then -1
    else if u[0] > v[0] then 1
    else LexNat(u[1..], v[1..])
  }

  /** The tokens of a dotted version. */
  ghost function VersionTokens(v: seq<nat>): (ts: seq<Token>)
    requires v != []
    ensures ts != [] && ValidTokens(ts)
  {
    [Run(Decimal(v[0]))] + if |v| == 1 then [Sign(0)] else [Sign('.' as int)] + VersionTokens(v[1..])
  }

  lemma RunThenRest(m: Mode, d: string, rest: string)
    requires d != [] && AllDigits(d) && (rest == [] || !IsDigit(rest[0]))
    ensures Tokens(m, d + rest) == [Run(d)] + Tokens(m, rest)
  {
    DigitPrefixUnique(d + rest, d, rest);
    assert (d + rest)[|d|..] == rest && (d + rest)[0] == d[0];
    assert IsDigit(d[0]);
  }

  lemma RunDotRest(m: Mode, d: string, rest: string)
    requires d != [] && AllDigits(d)
    ensures Tokens(m, d + "." + rest) == [Run(d)] + ([Sign('.' as int)] + Tokens(m, rest))
  {
    RunThenRest(m, d, "." + rest);
    assert ("." + rest)[1..] == rest;
    assert d + "." + rest == d + ("." + rest);
  }

  lemma DecimalIsCString(n: nat)
    ensures CString(Decimal(n))
  {
    var d := Decimal(n);
    forall i | 0 <= i < |d| ensures d[i] != '\0' && d[i] as int < 256 {
      assert IsDigit(d[i]);
    }
  }

  lemma {:induction false} DottedIsCString(v: seq<nat>)
    requires v != []
    ensures CString(Dotted(v))
  {
    DecimalIsCString(v[0]);
    if |v| > 1 {
      DottedIsCString(v[1..]);
    }
  }

  lemma {:induction false} DottedTokens(m: Mode, v: seq<nat>)
    requires v != []
    ensures Tokens(m, Dotted(v)) == VersionTokens(v)
  {
    if |v| == 1 {
      RunThenRest(m, Decimal(v[0]), "");
      assert Decimal(v[0]) + "" == Decimal(v[0]);
    } else {
      DottedTokens(m, v[1..]);
      RunDotRest(m, Decimal(v[0]), Dotted(v[1..]));
    }
  }

  lemma SecondDecides(t: Token, u: Token, ts: seq<Token>, us: seq<Token>)
    requires ValidToken(t) && ValidToken(u) && ValidTokens(ts) && ValidTokens(us)
    requires ts != [] && us != []
    ensures ValidTokens([t] + ts) && ValidTokens([u] + us)
    ensures CompareTokens([t] + ts, [u] + us) ==
            if CompareToken(t, u) != 0 then CompareToken(t, u)
            else if CompareToken(ts[0], us[0]) != 0 then CompareToken(ts[0], us[0])
            else CompareTokens(ts[1..], us[1..])
  {
    assert ([t] + ts)[1..] == ts && ([u] + us)[1..] == us;
  }

  lemma {:induction false} VersionTokensOrder(u: seq<nat>, v: seq<nat>)
    requires u != [] && v != []
    ensures CompareTokens(VersionTokens(u), VersionTokens(v)) == LexNat(u, v)
  {
    RunsNumeric(u[0], v[0]);
    var ts, us := VersionTokens(u)[1..], VersionTokens(v)[1..];
    SecondDecides(VersionTokens(u)[0], VersionTokens(v)[0], ts, us);
    if |u| > 1 && |v| > 1 {
      assert ts[1..] == VersionTokens(u[1..]) && us[1..] == VersionTokens(v[1..]);
      VersionTokensOrder(u[1..], v[1..]);
    } else if |u| == 1 && |v| == 1 {
      assert ts[1..] == [] && us[1..] == [];
    }
  }

  /** Dotted versions compare like their component lists, for any number and size of components. */
  lemma VersionOrder(m: Mode, u: seq<nat>, v: seq<nat>)
    requires u != [] && v != []
    ensures CString(Dotted(u)) && CString(Dotted(v))
    ensures NatOrder(m, Dotted(u), Dotted(v)) == LexNat(u, v)
  {
    DottedIsCString(u);
    DottedIsCString(v);
    DottedTokens(m, u);
    DottedTokens(m, v);
    VersionTokensOrder(u, v);
  }

  /** The test in front of every version-dependent option. */
  ghost predicate Above(m: Mode, version: string, bound: string)
    requires CString(version) && CString(bound)
  {
    NatOrder(m, version, bound) > 0
  }

  /** A gate, once passed, stays passed for every later version, of any shape. */
  lemma GateMonotone(m: Mode, v: string, w: string, bound: string)
    requires CString(v) && CString(w) && CString(bound)
    requires NatOrder(m, v, w) <= 0 && Above(m, v, bound)
    ensures Above(m, w, bound)
  {
    NaturalOrderLaws(m, bound, v, w);
    NaturalOrderLaws(m, v, bound, w);
    NaturalOrderLaws(m, w, bound, v);
  }

  /** The three gates nest, whatever text tincd reports as its version. */
  lemma GatesNested(m: Mode, v: string)
    requires CString(v)
    ensures CString("1.1") && CString("1.0.16") && CString("1.0.12")
    ensures Above(m, v, "1.1") ==> Above(m, v, "1.0.16")
    ensures Above(m, v, "1.0.16") ==> Above(m, v, "1.0.12")
  {
    BoundsOrdered(m);
    NaturalOrderLaws(m, "1.0.12", "1.0.16", v);
    NaturalOrderLaws(m, "1.0.16", "1.1", v);
    NaturalOrderLaws(m, v, "1.0.12", v);
    NaturalOrderLaws(m, v, "1.0.16", v);
    NaturalOrderLaws(m, v, "1.1", v);
  }

  lemma BoundsOrdered(m: Mode)
    ensures CString("1.1") && CString("1.0.16") && CString("1.0.12")
    ensures NatOrder(m, "1.0.12", "1.0.16") < 0 && NatOrder(m, "1.0.16", "1.1") < 0
  {
    BoundsWritten();
    VersionOrder(m, [1, 0, 12], [1, 0, 16]);
    VersionOrder(m, [1, 0, 16], [1, 1]);
  }

  lemma BoundsWritten()
    ensures Dotted([1, 0, 12]) == "1.0.12" && Dotted([1, 0, 16]) == "1.0.16" && Dotted([1, 1]) == "1.1"
  {
    DecimalSmall();
  }

  lemma DecimalSmall()
    ensures Decimal(0) == "0" && Decimal(1) == "1" && Decimal(12) == "12" && Decimal(16) == "16"
  {
    assert DigitChar(0) == '0' && DigitChar(1) == '1' && DigitChar(2) == '2' && DigitChar(6) == '6';
    assert Decimal(1) == "1";
  }
}
