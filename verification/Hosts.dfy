/** What the theorems assume of the numeric host reader and printer can be met. */
module Hosts {
  import opened Options
  import opened CStr
  import opened Prefix
  import opened Subnets
  import opened Routes

  /** Two letters for every byte. */
  function Spell(b: Bytes): string {
    if b == [] then []
    else [Letter(b[0] as int / 16), Letter(b[0] as int % 16)] + Spell(b[1..])
  }

  function Letter(k: nat): (c: char)
    requires k < 16
    ensures 'a' <= c <= 'p' && c as int == 97 + k
  {
    (97 + k) as char
  }

  function Show(f: Family, b: Bytes): string { (if f == V6 then ":" else "") + Spell(b) }

  lemma {:induction false} SpellLetters(b: Bytes)
    ensures |Spell(b)| == 2 * |b|
    ensures forall i | 0 <= i < |Spell(b)| :: 'a' <= Spell(b)[i] <= 'p'
  {
    if b != [] {
      SpellLetters(b[1..]);
    }
  }

  lemma {:induction false} SpellInjective(a: Bytes, b: Bytes)
    requires |a| == |b| && Spell(a) == Spell(b)
    ensures a == b
  {
    if a != [] {
      var s, t := Spell(a), Spell(b);
      assert s[0] as int == t[0] as int && s[1] as int == t[1] as int;
      assert s[2..] == Spell(a[1..]) && t[2..] == Spell(b[1..]);
      SpellInjective(a[1..], b[1..]);
      SameByte(a[0], b[0]);
      assert a == [a[0]] + a[1..] && b == [b[0]] + b[1..];
    }
  }

  lemma SameByte(x: bv8, y: bv8)
    requires x as int / 16 == y as int / 16 && x as int % 16 == y as int % 16
    ensures x == y
  {
    SameNumber(x as int, y as int);
    SameParts(0, 0, x, y);
  }

  lemma SameNumber(v: nat, w: nat)
    requires v / 16 == w / 16 && v % 16 == w % 16
    ensures v == w
  {
  }

  ghost predicate Spells(t: string, f: Family, b: Bytes) { |b| == ByteCount(f) && Show(f, b) == t }

  ghost function Lookup(t: string, f: Family): Option<Bytes> {
    if exists b :: Spells(t, f, b) then Some(var b :| Spells(t, f, b); b) else None
  }

  lemma LookupShown(f: Family, b: Bytes)
    requires |b| == ByteCount(f)
    ensures Lookup(Show(f, b), f) == Some(b)
  {
    assert Spells(Show(f, b), f, b);
    var c := Lookup(Show(f, b), f).value;
    assert Spells(Show(f, b), f, c);
    var k := if f == V6 then 1 else 0;
    assert Show(f, b)[k..] == Spell(b) && Show(f, c)[k..] == Spell(c);
    SpellInjective(b, c);
  }

  lemma ShownText(f: Family, b: Bytes)
    requires |b| == ByteCount(f)
    ensures var t := Show(f, b);
            && CString(t) && t != [] && '/' !in t && '[' !in t && ']' !in t && '#' !in t && (':' in t <==> f == V6)
  {
    SpellLetters(b);
    var s, t := Spell(b), Show(f, b);
    assert forall ch | ch in s :: 'a' <= ch <= 'p';
    assert forall ch :: ch in t <==> (f == V6 && ch == ':') || ch in s;
    assert f == V6 ==> t[0] == ':';
  }

  /** Some reader and printer satisfy all of Sized, Inverse and NoWeights. */
  lemma HostExists()
    ensures exists h: Host :: Sized(h) && Inverse(h) && NoWeights(h)
  {
    ghost var h := Host((t, f) => Lookup(t, f), (f, b) => Show(f, b));
    forall f, b: Bytes | |b| == ByteCount(f)
      ensures var t := h.show(f, b); h.lookup(t, f) == Some(b)
      ensures var t := h.show(f, b);
              CString(t) && t != [] && '/' !in t && '[' !in t && ']' !in t && '#' !in t && (':' in t <==> f == V6)
    {
      LookupShown(f, b);
      ShownText(f, b);
    }
    forall t, f | '#' in t ensures h.lookup(t, f).None? {
      if exists b :: Spells(t, f, b) {
        var b :| Spells(t, f, b);
        ShownText(f, b);
      }
    }
    assert Sized(h) && Inverse(h) && NoWeights(h);
  }
}
