/** ar.c: extracting one member from an in-memory ar archive (layout: ar.h). */
module Archive {
  import opened Options
  import opened CStr
  import opened Buffers

  const ARMAG: string := "!<arch>\n"
  const ARFMAG: string := "`\n"
  const HEADER: nat := 60

  // ----- fields

  /** The part before the first space. */
  function CutAtSpace(f: string): string {
    if f == [] || f[0] == ' ' then [] else [f[0]] + CutAtSpace(f[1..])
  }

  /** strtol in base 10 on at most ten characters: the value and what is left unread. */
  function Strtol(t: string): (int, string) {
    var u := SkipSpaces(t);
    var neg := u != [] && u[0] == '-';
    var v := if u != [] && (u[0] == '-' || u[0] == '+') then u[1..] else u;
    var d := DigitPrefix(v);
    var n: int := Num(d);
    if d == [] then (0, t) else ((if neg then -n else n), v[|d|..])
  }

  function SkipSpaces(t: string): string {
    if t != [] && IsSpace(t[0]) then SkipSpaces(t[1..]) else t
  }

  predicate HasNul(s: string) { s != [] && (s[0] == '\0' || HasNul(s[1..])) }

  /** ar_parseheaderlength. */
  function HeaderLength(field: string): Option<nat> {
    if HasNul(field) then None
    else
      var (r, rest) := Strtol(CutAtSpace(field));
      if r < 0 || rest != [] then None else Some(r)
  }

  /** ar_compare_name: one trailing slash is dropped; a field with a NUL byte counts as equal. */
  predicate NameMatches(field: string, name: string) {
    HasNul(field) || StripSlash(CutAtSpace(field)) == name
  }

  function StripSlash(t: string): string {
    if t != [] && t[|t| - 1] == '/' then t[..|t| - 1] else t
  }

  // ----- the walk

  datatype Outcome = Malformed | Missing | Found(body: string)

  function NameField(h: string): string requires |h| == HEADER { h[..16] }
  function SizeField(h: string): string requires |h| == HEADER { h[48..58] }
  function MagicField(h: string): string requires |h| == HEADER { h[58..] }

  /** How a walk reads the size field and compares the name field; the walk itself does not depend on it. */
  datatype Reader = Reader(length: string -> Option<nat>, matches: (string, string) -> bool)

  const AR: Reader := Reader(f => HeaderLength(f), (f, name) => NameMatches(f, name))

  /** What is found for a name in the members from position pos on. */
  function Walk(r: Reader, archive: string, pos: nat, name: string): (o: Outcome)
    requires pos <= |archive|
    decreases |archive| - pos
  {
    if pos + HEADER > |archive| then Malformed
    else
      var h, at := archive[pos..pos + HEADER], pos + HEADER;
      if MagicField(h) != ARFMAG then Malformed
      else
        match r.length(SizeField(h))
        case None => Malformed
        case Some(n) =>
          var next := at + n + n % 2;
          if next > |archive| then Malformed
          else if r.matches(NameField(h), name) then Found(archive[at..at + n])
          else if next == |archive| then Missing
          else Walk(r, archive, next, name)
  }

  function Lookup(archive: string, name: string): Outcome {
    if ARMAG <= archive then Walk(AR, archive, |ARMAG|, name) else Malformed
  }

  /** What the caller gets for an outcome: the only failure after a hit is a buffer that cannot grow. */
  ghost predicate Delivered(o: Outcome, ok: bool, result: StringBuf)
    requires result.Valid()
    reads result, result.s
  {
    match o
    case Malformed => !ok && result.Contents() == []
    case Missing => ok && result.Contents() == []
    case Found(body) => (ok <==> body == [] || result.growby > 0) && result.Contents() == if ok then body else []
  }

  /** ar_extract. A member that is missing from a non-empty archive gives an empty result and success. */
  method Extract(archive: string, membername: string, result: StringBuf) returns (ok: bool)
    requires result.Valid()
    modifies result, result.s
    ensures result.Valid() && result.growby == old(result.growby)
    ensures Delivered(Lookup(archive, membername), ok, result)
  {
    result.Free();
    var len: int := |archive|;
    if len < |ARMAG| {
      return false;
    }
    var pos := 0;
    if archive[..|ARMAG|] != ARMAG {
      return false;
    }
    pos := pos + |ARMAG|;
    len := len - |ARMAG|;
    ok := ExtractFrom(AR, archive, pos, len, membername, result, Walk(AR, archive, pos, membername));
  }

  /** The member loop of ar_extract. */
  method ExtractFrom(r: Reader, archive: string, pos0: nat, len0: nat, membername: string, result: StringBuf, ghost want: Outcome)
    returns (ok: bool)
    requires pos0 + len0 == |archive| && want == Walk(r, archive, pos0, membername)
    requires result.Valid() && result.s == null
    modifies result
    ensures result.Valid() && result.growby == old(result.growby)
    ensures Delivered(want, ok, result)
  {
    var pos, len: int := pos0, len0;
    while true
      invariant 0 <= pos && 0 <= len && pos + len == |archive|
      invariant want == Walk(r, archive, pos, membername)
      invariant result.Valid() && result.s == null && result.growby == old(result.growby)
      decreases len
    {
      var memberlen, name := ReadHeader(r, archive, pos, len, membername);
      if memberlen.None? {
        return false;
      }
      var n := memberlen.value;
      pos := pos + HEADER;
      len := len - HEADER;
      if r.matches(name, membername) {
        ok := result.Concatb(archive[pos..pos + n]);
        return ok;
      }
      pos := pos + n + n % 2;
      len := len - (n + n % 2);
      if len == 0 {
        return true;
      } else if len < 0 {
        assert false;
      }
    }
  }

  /** The checks on one header: its member's length and name field, unless the buffer is corrupt. */
  method ReadHeader(r: Reader, archive: string, pos: nat, len: nat, name: string) returns (memberlen: Option<nat>, nameField: string)
    requires pos + len == |archive|
    ensures memberlen.None? ==> Walk(r, archive, pos, name) == Malformed
    ensures memberlen.Some? ==>
              var at, n := pos + HEADER, memberlen.value;
              var next := at + n + n % 2;
              next <= |archive| && Walk(r, archive, pos, name) ==
              if r.matches(nameField, name) then Found(archive[at..at + n])
              else if next == |archive| then Missing
              else Walk(r, archive, next, name)
  {
    if len < HEADER {
      return None, "";
    }
    var arh := archive[pos..pos + HEADER];
    if MagicField(arh) != ARFMAG {
      return None, "";
    }
    memberlen := r.length(SizeField(arh));
    if memberlen.None? {
      return None, "";
    }
    var n := memberlen.value;
    if n + n % 2 > len - HEADER {
      return None, "";
    }
    nameField := NameField(arh);
  }

  // ----- round trip

  /** A member: its name, whether the writer ended the name with a slash, date to mode fields, and data. */
  datatype Member = Member(name: string, slash: bool, meta: string, body: string)

  predicate CleanName(name: string) {
    name != [] && ' ' !in name && '\0' !in name && name[|name| - 1] != '/'
  }

  predicate WellFormed(m: Member) {
    && CleanName(m.name)
    && |m.name| + (if m.slash then 1 else 0) <= 16
    && |m.meta| == 32
    && |Decimal(|m.body|)| <= 10
  }

  function Spaces(n: nat): string { seq(n, _ => ' ') }

  function Padded(t: string, n: nat): (f: string)
    requires |t| <= n
    ensures |f| == n
  {
    t + Spaces(n - |t|)
  }

  function FieldName(m: Member): string { if m.slash then m.name + "/" else m.name }

  function Header(m: Member): (h: string)
    requires WellFormed(m)
    ensures |h| == HEADER
  {
    Padded(FieldName(m), 16) + m.meta + Padded(Decimal(|m.body|), 10) + ARFMAG
  }

  function Encode(m: Member): string
    requires WellFormed(m)
  {
    Header(m) + m.body + (if |m.body| % 2 == 1 then "\n" else "")
  }

  predicate AllWellFormed(ms: seq<Member>) { forall i | 0 <= i < |ms| :: WellFormed(ms[i]) }

  function EncodeAll(ms: seq<Member>): string
    requires AllWellFormed(ms)
  {
    if ms == [] then [] else Encode(ms[0]) + EncodeAll(ms[1..])
  }

  /** The data of the first member of that name. */
  function FirstBody(ms: seq<Member>, name: string): Outcome {
    if ms == [] then Missing
    else if ms[0].name == name then Found(ms[0].body)
    else FirstBody(ms[1..], name)
  }

  lemma {:induction false} CutPadded(t: string, n: nat)
    requires ' ' !in t
    ensures CutAtSpace(t + Spaces(n)) == t
  {
    if t == [] {
      assert t + Spaces(n) == Spaces(n);
    } else {
      assert (t + Spaces(n))[1..] == t[1..] + Spaces(n);
      CutPadded(t[1..], n);
    }
  }

  lemma StrtolDigits(d: string)
    requires d != [] && AllDigits(d)
    ensures Strtol(d) == (Num(d), [])
  {
    assert IsDigit(d[0]);
    assert SkipSpaces(d) == d;
    DigitPrefixUnique(d, d, []);
    assert d + [] == d && d[|d|..] == [];
  }

  lemma {:induction false} NoNul(t: string, n: nat)
    requires |t| <= n && '\0' !in t
    ensures !HasNul(Padded(t, n))
  {
    if t != [] {
      assert Padded(t, n)[1..] == Padded(t[1..], n - 1);
      NoNul(t[1..], n - 1);
    } else if n > 0 {
      assert Padded(t, n)[1..] == Padded(t, n - 1);
      NoNul(t, n - 1);
    }
  }

  lemma DigitsReadBack(d: string)
    requires d != [] && AllDigits(d) && |d| <= 10
    ensures HeaderLength(Padded(d, 10)) == Some(Num(d))
  {
    assert forall i | 0 <= i < |d| :: IsDigit(d[i]);
    CutPadded(d, 10 - |d|);
    StrtolDigits(d);
    NoNul(d, 10);
  }

  lemma LengthReadBack(n: nat)
    requires |Decimal(n)| <= 10
    ensures HeaderLength(Padded(Decimal(n), 10)) == Some(n)
  {
    DigitsReadBack(Decimal(n));
  }

  lemma NameReadBack(m: Member, name: string)
    requires WellFormed(m) && CleanName(name)
    ensures NameMatches(Padded(FieldName(m), 16), name) <==> m.name == name
  {
    var t := FieldName(m);
    NoNul(t, 16);
    CutPadded(t, 16 - |t|);
    assert m.slash ==> t[..|t| - 1] == m.name;
  }

  lemma HeaderFields(m: Member)
    requires WellFormed(m)
    ensures NameField(Header(m)) == Padded(FieldName(m), 16)
    ensures SizeField(Header(m)) == Padded(Decimal(|m.body|), 10)
    ensures MagicField(Header(m)) == ARFMAG
  {
  }

  lemma EncodedParts(pre: string, m: Member, tail: string)
    requires WellFormed(m)
    ensures var s, at, n := pre + Encode(m) + tail, |pre| + HEADER, |m.body|;
            && |s| == at + n + n % 2 + |tail|
            && s[|pre|..at] == Header(m)
            && s[at..at + n] == m.body
  {
  }

  /** A reader that gets the length and the name of a laid-out member right. */
  ghost predicate ReadsBack(r: Reader, m: Member, name: string)
    requires WellFormed(m)
  {
    && r.length(Padded(Decimal(|m.body|), 10)) == Some(|m.body|)
    && (r.matches(Padded(FieldName(m), 16), name) <==> m.name == name)
  }

  /** The walk stops at a laid-out member of that name, or steps over it to what follows. */
  lemma WalkMember(r: Reader, pre: string, m: Member, tail: string, name: string)
    requires WellFormed(m) && ReadsBack(r, m, name)
    ensures var s := pre + Encode(m) + tail;
            Walk(r, s, |pre|, name) ==
            if m.name == name then Found(m.body) else if tail == [] then Missing else Walk(r, s, |pre + Encode(m)|, name)
  {
    EncodedParts(pre, m, tail);
    HeaderFields(m);
  }

  ghost predicate AllReadBack(r: Reader, ms: seq<Member>, name: string)
    requires AllWellFormed(ms)
  {
    forall i | 0 <= i < |ms| :: ReadsBack(r, ms[i], name)
  }

  lemma {:induction false} WalkAll(r: Reader, pre: string, ms: seq<Member>, name: string)
    requires AllWellFormed(ms) && ms != [] && AllReadBack(r, ms, name)
    ensures Walk(r, pre + EncodeAll(ms), |pre|, name) == FirstBody(ms, name)
    decreases |ms|
  {
    var code, tail := Encode(ms[0]), EncodeAll(ms[1..]);
    assert pre + EncodeAll(ms) == pre + code + tail;
    WalkMember(r, pre, ms[0], tail, name);
    if |ms| > 1 {
      WalkAll(r, pre + code, ms[1..], name);
    }
  }

  /** Looking a name up in a laid-out archive gives the first member of that name, or reports none. */
  lemma ArchiveRoundTrip(ms: seq<Member>, name: string)
    requires AllWellFormed(ms) && CleanName(name)
    ensures Lookup(ARMAG + EncodeAll(ms), name) == if ms == [] then Malformed else FirstBody(ms, name)
  {
    if ms != [] {
      AllRead(ms, name);
      WalkAll(AR, ARMAG, ms, name);
    }
  }

  // ----- corrupt archives

  /** What cannot be read as a member: too short, without the end mark, with a bad length, or cut off. */
  predicate BadMember(r: Reader, t: string) {
    || |t| < 60
    || t[58..60] != "`\n"
    || r.length(t[48..58]).None?
    || r.length(t[48..58]).value + r.length(t[48..58]).value % 2 > |t| - 60
  }

  lemma BadIsMalformed(r: Reader, pre: string, t: string, name: string)
    requires BadMember(r, t)
    ensures Walk(r, pre + t, |pre|, name) == Malformed
  {
    var s := pre + t;
    assert |t| >= 60 ==> s[|pre|..|pre| + 60] == t[..60] && t[..60][48..58] == t[48..58] && t[..60][58..] == t[58..60];
  }

  /** The walk over laid-out members followed by something else. */
  lemma {:induction false} WalkOver(r: Reader, s: string, pre: string, ms: seq<Member>, tail: string, name: string)
    requires AllWellFormed(ms) && AllReadBack(r, ms, name) && tail != [] && s == pre + EncodeAll(ms) + tail
    ensures Walk(r, s, |pre|, name) ==
            if FirstBody(ms, name).Found? then FirstBody(ms, name) else Walk(r, s, |s| - |tail|, name)
    decreases |ms|
  {
    if ms != [] {
      var code, rest := Encode(ms[0]), EncodeAll(ms[1..]);
      FirstOff(pre, code, rest, tail);
      WalkMember(r, pre, ms[0], rest + tail, name);
      WalkOver(r, s, pre + code, ms[1..], tail, name);
    }
  }

  lemma FirstOff(pre: string, code: string, rest: string, tail: string)
    ensures pre + (code + rest) + tail == pre + code + (rest + tail)
    ensures pre + (code + rest) + tail == pre + code + rest + tail
  {
  }

  /** A corrupt member makes the archive malformed for every name that does not stand in front of it. */
  lemma CorruptTail(ms: seq<Member>, tail: string, name: string)
    requires AllWellFormed(ms) && CleanName(name) && tail != [] && BadMember(AR, tail)
    ensures Lookup("!<arch>\n" + EncodeAll(ms) + tail, name) ==
            if FirstBody(ms, name).Found? then FirstBody(ms, name) else Malformed
  {
    AllRead(ms, name);
    WalkOver(AR, ARMAG + EncodeAll(ms) + tail, ARMAG, ms, tail, name);
    BadIsMalformed(AR, ARMAG + EncodeAll(ms), tail, name);
    MagicFirst(EncodeAll(ms), tail);
  }

  lemma MagicFirst(code: string, tail: string)
    ensures ARMAG <= ARMAG + code + tail
  {
    assert ARMAG + code + tail == ARMAG + (code + tail);
  }

  lemma AllRead(ms: seq<Member>, name: string)
    requires AllWellFormed(ms) && CleanName(name)
    ensures AllReadBack(AR, ms, name)
  {
    forall i | 0 <= i < |ms| ensures ReadsBack(AR, ms[i], name) {
      LengthReadBack(|ms[i].body|);
      NameReadBack(ms[i], name);
    }
  }

  /** Nothing is found in a buffer that does not start with the archive mark. */
  lemma NotAnArchive(archive: string, name: string)
    ensures !("!<arch>\n" <= archive) ==> Lookup(archive, name) == Malformed
  {
    assert |ARMAG| == 8;
  }

  /** A size field is refused for a NUL byte, a negative number, and anything but a blank behind the digits. */
  lemma LengthRefused(field: string, d: string, c: char, rest: string)
    requires |d| <= 10 && d != [] && AllDigits(d)
    ensures '\0' in field ==> HeaderLength(field).None?
    ensures c != ' ' && !IsDigit(c) ==> HeaderLength(d + [c] + rest).None?
    ensures Num(d) > 0 ==> HeaderLength("-" + d + " ").None?
  {
    NulFound(field);
    if c != ' ' && !IsDigit(c) {
      JunkLeft(d, c, rest);
    }
    NegativeRead(d);
  }

  /** A name field with a NUL byte passes for every name, any other only for the text in front of its first blank. */
  lemma NameFieldMeans(field: string, name: string)
    ensures '\0' in field ==> NameMatches(field, name)
    ensures var t := CutAtSpace(field);
            var same := t == name + "/" || (t == name && (name == [] || name[|name| - 1] != '/'));
            '\0' !in field ==> (NameMatches(field, name) <==> same)
  {
    NulFound(field);
    var t := CutAtSpace(field);
    if t != [] && t[|t| - 1] == '/' {
      assert t == t[..|t| - 1] + "/";
    }
    assert (name + "/")[..|name|] == name;
  }

  lemma {:induction false} NulFound(s: string)
    ensures HasNul(s) <==> '\0' in s
  {
    if s != [] {
      NulFound(s[1..]);
    }
  }

  lemma {:induction false} CutBehind(d: string, tail: string)
    requires ' ' !in d
    ensures CutAtSpace(d + tail) == d + CutAtSpace(tail)
  {
    if d == [] {
      assert d + tail == tail;
    } else {
      assert (d + tail)[1..] == d[1..] + tail;
      CutBehind(d[1..], tail);
    }
  }

  lemma JunkLeft(d: string, c: char, rest: string)
    requires d != [] && AllDigits(d) && c != ' ' && !IsDigit(c)
    ensures HeaderLength(d + [c] + rest).None?
  {
    var tail := [c] + CutAtSpace(rest);
    assert ' ' !in d by {
      assert forall i | 0 <= i < |d| :: IsDigit(d[i]);
    }
    assert d + [c] + rest == d + ([c] + rest) && ([c] + rest)[1..] == rest;
    CutBehind(d, [c] + rest);
    StrtolJunk(d, tail);
  }

  lemma StrtolJunk(d: string, tail: string)
    requires d != [] && AllDigits(d) && tail != [] && !IsDigit(tail[0])
    ensures Strtol(d + tail).1 != []
  {
    assert IsDigit(d[0]) && (d + tail)[0] == d[0];
    assert SkipSpaces(d + tail) == d + tail;
    DigitPrefixUnique(d + tail, d, tail);
    assert (d + tail)[|d|..] == tail;
  }

  lemma NegativeRead(d: string)
    requires d != [] && AllDigits(d)
    ensures Num(d) > 0 ==> HeaderLength("-" + d + " ").None?
  {
    var t := "-" + d;
    assert ' ' !in t by {
      assert forall i | 0 <= i < |d| :: IsDigit(d[i]);
    }
    CutBehind(t, " ");
    assert CutAtSpace(" ") == "" && t + "" == t && t[1..] == d && d + [] == d;
    DigitPrefixUnique(d, d, []);
    assert SkipSpaces(t) == t;
  }
}
