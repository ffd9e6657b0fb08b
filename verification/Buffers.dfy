/** string/: the growable byte buffer all output goes through, and its small printf. */
module Buffers {
  import opened CStr

  /** What snprintf writes for %d. */
  function PrintInt(i: int): string {
    if i < 0 then "-" + Decimal(-i) else Decimal(i)
  }

  datatype Arg = Str(s: string) | Buf(b: string) | Int(i: int)

  /** Formats of literals, %s, %S, %d and %%, with an argument of the right kind for each conversion. */
  predicate Fits(fmt: string, args: seq<Arg>) {
    if fmt == [] then true
    else if fmt[0] != '%' then Fits(fmt[1..], args)
    else if |fmt| == 1 then true
    else if fmt[1] == '%' then Fits(fmt[2..], args)
    else args != [] && Converts(fmt[1], args[0]) && Fits(fmt[2..], args[1..])
  }

  predicate Converts(c: char, arg: Arg) {
    match c
    case 's' => arg.Str?
    case 'S' => arg.Buf?
    case 'd' => arg.Int? && -0x8000_0000 <= arg.i < 0x8000_0000
    case _ => false
  }

  /** The text a format stands for: arguments are consumed left to right, a lone % at the end stops. */
  function Render(fmt: string, args: seq<Arg>): string
    requires Fits(fmt, args)
  {
    if fmt == [] then []
    else if fmt[0] != '%' then [fmt[0]] + Render(fmt[1..], args)
    else if |fmt| == 1 then []
    else if fmt[1] == '%' then "%" + Render(fmt[2..], args)
    else RenderArg(args[0]) + Render(fmt[2..], args[1..])
  }

  function RenderArg(arg: Arg): string {
    match arg
    case Str(s) => s
    case Buf(b) => b
    case Int(i) => PrintInt(i)
  }

  class StringBuf {
    var length: nat
    var size: nat
    var growby: nat
    var s: array?<char>

    ghost predicate Valid()
      reads this, s
    {
      && length <= size
      && (if s == null then size == 0 else s.Length == size)
    }

    ghost function Contents(): string
      requires Valid()
      reads this, s
    {
      if s == null then [] else s[..length]
    }

    /** string_init. */
    constructor Init(size: nat, growby: nat)
      ensures Valid() && Contents() == [] && fresh(s)
      ensures s != null && this.size == size && this.growby == growby
    {
      length := 0;
      this.growby := growby;
      this.size := size;
      s := new char[size](_ => '\0');
    }

    /** string_lazyinit. */
    constructor LazyInit(growby: nat)
      ensures Valid() && Contents() == [] && s == null && this.growby == growby
    {
      length, size, s := 0, 0, null;
      this.growby := growby;
    }

    /** realloc to a larger size, the new bytes zeroed. */
    method Grow(extra: nat)
      requires Valid()
      modifies this
      ensures Valid() && fresh(s) && s != null && size == old(size) + extra
      ensures Contents() == old(Contents()) && length == old(length) && growby == old(growby)
    {
      var buf := new char[size + extra](_ => '\0');
      if s != null {
        forall i | 0 <= i < size {
          buf[i] := s[i];
        }
      }
      size := size + extra;
      s := buf;
    }

    /** The growth loop: the least positive multiple of growby that makes room for what is missing. */
    static method LeastExtra(growby: nat, missing: nat) returns (extra: nat, ghost k: nat)
      requires growby > 0 && missing > 0
      ensures growby <= extra && missing <= extra && (extra == growby || extra - growby < missing)
      ensures k >= 1 && extra == k * growby && (k - 1) * growby < missing
    {
      extra, k := growby, 1;
      while extra < missing
        invariant growby <= extra && (extra == growby || extra - growby < missing)
        invariant k >= 1 && extra == k * growby && (k - 1) * growby < missing
        decreases missing - extra
      {
        extra := extra + growby;
        k := k + 1;
      }
    }

    /** string_concatb: appends, growing by the least sufficient positive multiple of growby. */
    method Concatb(sta: string) returns (ok: bool)
      requires Valid()
      modifies this, s
      ensures Valid() && growby == old(growby) && (s == old(s) || fresh(s))
      ensures ok <==> |sta| <= old(size - length) || growby > 0
      ensures Contents() == if ok then old(Contents()) + sta else old(Contents())
      ensures |sta| <= old(size - length) || !ok ==> size == old(size) && s == old(s)
      ensures |sta| > old(size - length) && ok ==>
                exists k: nat :: k >= 1 && size == old(size) + k * growby
                                 && old(size) + (k - 1) * growby < length
    {
      if |sta| > size - length {
        if growby == 0 {
          return false;
        }
        ghost var k;
        var extra;
        extra, k := LeastExtra(growby, |sta| - (size - length));
        Grow(extra);
      }
      if s != null {
        forall i | 0 <= i < |sta| {
          s[length + i] := sta[i];
        }
      }
      length := length + |sta|;
      return true;
    }

    /** string_putc. */
    method Putc(c: char) returns (ok: bool)
      requires Valid() && (length < size || growby > 0)
      modifies this, s
      ensures ok && Valid() && growby == old(growby) && (s == old(s) || fresh(s)) && s != null
      ensures Contents() == old(Contents()) + [c]
      ensures size == if old(length == size) then old(size) + growby else old(size)
    {
      if size == length {
        Grow(growby);
      }
      s[length] := c;
      length := length + 1;
      return true;
    }

    /** string_concat: appends a C string and leaves its terminator just past the content. */
    method Concat(sta: string) returns (ok: bool)
      requires Valid() && growby > 0
      modifies this, s
      ensures ok && Valid() && growby == old(growby) && (s == old(s) || fresh(s))
      ensures Contents() == old(Contents()) + sta
      ensures Terminated()
    {
      ok := Concatb(sta + ['\0']);
      length := length - 1;
      assert s != null && s[..length + 1] == old(Contents()) + (sta + ['\0']);
      assert s[length] == s[..length + 1][length];
    }

    /** A NUL follows the content inside the allocation. */
    ghost predicate Terminated()
      requires Valid()
      reads this, s
    {
      s != null && length < size && s[length] == '\0'
    }

    /** string_putint. */
    method Putint(i: int) returns (ok: bool)
      requires Valid() && growby > 0 && -0x8000_0000 <= i < 0x8000_0000
      modifies this, s
      ensures ok && Valid() && growby == old(growby) && (s == old(s) || fresh(s))
      ensures Contents() == old(Contents()) + PrintInt(i)
    {
      ok := Concatb(PrintInt(i));
    }

    /** string_ensurez, for a buffer that is not allocated or not empty. */
    method EnsureZ() returns (ok: bool)
      requires Valid() && growby > 0 && (s != null ==> length > 0)
      modifies this, s
      ensures ok && Valid() && growby == old(growby) && (s == old(s) || fresh(s))
      ensures Contents() == old(Contents())
      ensures Terminated() || (Contents() != [] && Contents()[|Contents()| - 1] == '\0')
    {
      if s != null {
        if s[length - 1] == '\0' {
          return true;
        }
      }
      ok := PutNul();
    }

    /** string_putc of a NUL that is then taken out of the content again. */
    method PutNul() returns (ok: bool)
      requires Valid() && growby > 0
      modifies this, s
      ensures ok && Valid() && growby == old(growby) && (s == old(s) || fresh(s))
      ensures Contents() == old(Contents()) && Terminated()
    {
      ok := Putc('\0');
      length := length - 1;
      assert s[..length + 1][..length] == s[..length];
      assert s[length] == s[..length + 1][length];
    }

    /** string_clear. */
    method Clear()
      requires Valid()
      modifies this
      ensures Valid() && Contents() == [] && s == old(s) && size == old(size) && growby == old(growby)
    {
      length := 0;
    }

    /** string_free. */
    method Free()
      requires Valid()
      modifies this
      ensures Valid() && Contents() == [] && s == null && growby == old(growby)
    {
      if s != null {
        s, size, length := null, 0, 0;
      }
    }

    /** string_move: the target takes over the buffer, the source is left unallocated. */
    method Move(target: StringBuf)
      requires Valid() && this != target
      modifies this, target
      ensures target.Valid() && target.Contents() == old(Contents())
      ensures target.s == old(s) && target.size == old(size) && target.growby == old(growby)
      ensures Valid() && Contents() == [] && s == null && growby == old(growby)
    {
      target.length, target.size, target.growby, target.s := length, size, growby, s;
      s, size, length := null, 0, 0;
    }

    /** string_equals: equal contents, and both buffers allocated or neither. */
    method Equals(other: StringBuf) returns (b: bool)
      requires Valid() && other.Valid()
      requires this == other || s == null || s != other.s
      ensures b <==> Contents() == other.Contents() && (s == null <==> other.s == null)
    {
      if this == other {
        return true;
      }
      if s == other.s {
        return true;
      }
      if length != other.length {
        return false;
      }
      if s == null || other.s == null {
        return false;
      }
      return s[..length] == other.s[..length];
    }

    /** The switch of string_concat_sprintf on one conversion character. */
    method Convert(c: char, arg: Arg) returns (ok: bool)
      requires Valid() && growby > 0 && Converts(c, arg)
      modifies this, s
      ensures ok && Valid() && growby == old(growby) && (s == old(s) || fresh(s))
      ensures Contents() == old(Contents()) + RenderArg(arg)
    {
      match c {
        case 's' => ok := Concat(arg.s);
        case 'S' => ok := Concatb(arg.b);
        case 'd' => ok := Putint(arg.i);
      }
    }

    /** One round of the scanner of string_concat_sprintf: a literal, %% or a conversion. */
    method ScanOne(msg: string, args: seq<Arg>) returns (msg': string, args': seq<Arg>, ghost piece: string)
      requires Valid() && growby > 0 && Fits(msg, args)
      requires msg != [] && (msg[0] == '%' ==> |msg| > 1)
      modifies this, s
      ensures Valid() && growby == old(growby) && (s == old(s) || fresh(s))
      ensures |msg'| < |msg| && Fits(msg', args')
      ensures Contents() == old(Contents()) + piece
      ensures Render(msg, args) == piece + Render(msg', args')
    {
      var ok;
      if msg[0] == '%' {
        if msg[1] == '%' {
          piece := "%";
          ok := Concatb("%");
          msg', args' := msg[2..], args;
        } else {
          piece := RenderArg(args[0]);
          ok := Convert(msg[1], args[0]);
          msg', args' := msg[2..], args[1..];
        }
      } else {
        piece := [msg[0]];
        ok := Putc(msg[0]);
        msg', args' := msg[1..], args;
      }
    }

    /** string_concat_sprintf: appends the rendered format and leaves a NUL just past it. */
    method Sprintf(msg: string, args: seq<Arg>) returns (ok: bool)
      requires Valid() && growby > 0 && Fits(msg, args)
      modifies this, s
      ensures ok && Valid() && growby == old(growby) && (s == old(s) || fresh(s))
      ensures Contents() == old(Contents()) + Render(msg, args)
      ensures Terminated()
    {
      ghost var start, all := Contents(), Render(msg, args);
      ghost var done := "";
      var rest, left := msg, args;
      while rest != [] && !(rest[0] == '%' && |rest| == 1)
        invariant Valid() && growby == old(growby) && (s == old(s) || fresh(s))
        invariant Fits(rest, left)
        invariant Contents() == start + done
        invariant all == done + Render(rest, left)
        decreases |rest|
      {
        ghost var piece;
        ghost var done' := done;
        rest, left, piece := ScanOne(rest, left);
        done := done' + piece;
        Reassociate(start, done', piece);
        Reassociate(done', piece, Render(rest, left));
      }
      assert done + [] == done;
      ok := PutNul();
    }
  }

  lemma Reassociate(a: string, b: string, c: string)
    ensures a + b + c == a + (b + c)
  {
  }

  // ----- what a format stands for

  /** The number of arguments a format consumes; a lone % at its end would take in what follows. */
  function Arity(fmt: string): nat {
    if fmt == [] then 0
    else if fmt[0] != '%' then Arity(fmt[1..])
    else if |fmt| == 1 then 0
    else (if fmt[1] == '%' then 0 else 1) + Arity(fmt[2..])
  }

  predicate Closed(fmt: string) {
    if fmt == [] then true
    else if fmt[0] != '%' then Closed(fmt[1..])
    else |fmt| > 1 && Closed(fmt[2..])
  }

  /** Rendering is a homomorphism: each part of a format renders the arguments it consumes. */
  lemma {:induction false} RenderConcat(f: string, g: string, a: seq<Arg>, b: seq<Arg>)
    requires Closed(f) && |a| == Arity(f) && Fits(f, a) && Fits(g, b)
    ensures Fits(f + g, a + b) && Render(f + g, a + b) == Render(f, a) + Render(g, b)
    decreases |f|
  {
    if f == [] {
      assert f + g == g && a + b == b;
    } else if f[0] != '%' {
      RenderConcat(f[1..], g, a, b);
      LiteralNext(f, g, a, b);
    } else if f[1] == '%' {
      RenderConcat(f[2..], g, a, b);
      PercentNext(f, g, a, b);
    } else {
      RenderConcat(f[2..], g, a[1..], b);
      ConversionNext(f, g, a, b);
    }
  }

  lemma LiteralNext(f: string, g: string, a: seq<Arg>, b: seq<Arg>)
    requires f != [] && f[0] != '%' && Fits(f, a) && Fits(g, b)
    requires Fits(f[1..] + g, a + b) && Render(f[1..] + g, a + b) == Render(f[1..], a) + Render(g, b)
    ensures Fits(f + g, a + b) && Render(f + g, a + b) == Render(f, a) + Render(g, b)
  {
    var fg := f + g;
    assert fg[0] == f[0] && fg[1..] == f[1..] + g;
    Reassociate([f[0]], Render(f[1..], a), Render(g, b));
  }

  lemma PercentNext(f: string, g: string, a: seq<Arg>, b: seq<Arg>)
    requires |f| > 1 && f[0] == '%' && f[1] == '%' && Fits(f, a) && Fits(g, b)
    requires Fits(f[2..] + g, a + b) && Render(f[2..] + g, a + b) == Render(f[2..], a) + Render(g, b)
    ensures Fits(f + g, a + b) && Render(f + g, a + b) == Render(f, a) + Render(g, b)
  {
    var fg := f + g;
    assert fg[0] == f[0] && fg[1] == f[1] && fg[2..] == f[2..] + g;
    Reassociate("%", Render(f[2..], a), Render(g, b));
  }

  lemma ConversionNext(f: string, g: string, a: seq<Arg>, b: seq<Arg>)
    requires |f| > 1 && f[0] == '%' && f[1] != '%' && Fits(f, a) && Fits(g, b)
    requires Fits(f[2..] + g, a[1..] + b) && Render(f[2..] + g, a[1..] + b) == Render(f[2..], a[1..]) + Render(g, b)
    ensures Fits(f + g, a + b) && Render(f + g, a + b) == Render(f, a) + Render(g, b)
  {
    var fg, ab := f + g, a + b;
    assert fg[0] == f[0] && fg[1] == f[1] && fg[2..] == f[2..] + g;
    assert ab[0] == a[0] && ab[1..] == a[1..] + b;
    Reassociate(RenderArg(a[0]), Render(f[2..], a[1..]), Render(g, b));
  }

  /** The single conversions: a C string, a buffer, a number, a percent sign, and any other character as itself. */
  lemma RenderSingle(s: string, i: int, c: char)
    requires -0x8000_0000 <= i < 0x8000_0000 && c != '%'
    ensures Fits("%s", [Str(s)]) && Render("%s", [Str(s)]) == s
    ensures Fits("%S", [Buf(s)]) && Render("%S", [Buf(s)]) == s
    ensures Fits("%d", [Int(i)]) && Render("%d", [Int(i)]) == PrintInt(i)
    ensures Fits("%%", []) && Render("%%", []) == "%"
    ensures Fits([c], []) && Render([c], []) == [c]
  {
    assert "%s"[2..] == "" && "%S"[2..] == "" && "%d"[2..] == "" && "%%"[2..] == "" && [c][1..] == [];
    assert s + "" == s && PrintInt(i) + "" == PrintInt(i);
  }

  /** A number is written in decimal without leading zeros, with a minus sign exactly below zero. */
  lemma PrintIntIs(i: int)
    ensures i >= 0 ==> AllDigits(PrintInt(i)) && Num(PrintInt(i)) == i
    ensures i < 0 ==> PrintInt(i)[0] == '-' && AllDigits(PrintInt(i)[1..]) && Num(PrintInt(i)[1..]) == -i
    ensures var d := if i < 0 then PrintInt(i)[1..] else PrintInt(i); d != [] && (d[0] == '0' ==> i == 0)
  {
    if i < 0 {
      assert PrintInt(i)[1..] == Decimal(-i);
    }
  }
}
