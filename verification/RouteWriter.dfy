/** tinc_write_updown of tinc.c: the loops that append the script to the output buffer. */
module RouteWriter {
  import opened Options
  import opened CStr
  import opened Subnets
  import opened FirstHit
  import opened AddrMask
  import opened Buffers
  import opened Keywords
  import opened PeerConfig
  import opened Routes

  function MarkText(m: Mark): string {
    match m
    case Active => ""
    case Merged => "# *merged* "
    case Ignored => "# *ignored* "
    case NotListed => "# *not whitelisted, ignored* "
  }

  /** A route command is a format for one string. */
  predicate OneString(cmd: string) { Fits(cmd, [Str("")]) }

  predicate CommandsFit(c: Config, up: bool) {
    forall f :: RouteCmd(c, f, up) != "" ==> OneString(RouteCmd(c, f, up))
  }

  /** The text of a line; a route line only comes with a command that fits. */
  function LineText(l: Line): string {
    match l
    case Plain(text) => text
    case Route(mark, cmd, subnet) =>
      MarkText(mark) + (if Fits(cmd, [Str(subnet)]) then Render(cmd, [Str(subnet)]) else "") + "\n"
  }

  function ScriptText(ls: seq<Line>): string {
    if ls == [] then [] else LineText(ls[0]) + ScriptText(ls[1..])
  }

  lemma {:induction false} TextAppend(a: seq<Line>, b: seq<Line>)
    ensures ScriptText(a + b) == ScriptText(a) + ScriptText(b)
  {
    if a == [] {
      assert a + b == b;
    } else {
      assert (a + b)[1..] == a[1..] + b;
      TextAppend(a[1..], b);
      Reassociate(LineText(a[0]), ScriptText(a[1..]), ScriptText(b));
    }
  }

  lemma {:induction false} FitsKinds(fmt: string, a: seq<Arg>, b: seq<Arg>)
    requires Fits(fmt, a) && |a| == |b| && forall i | 0 <= i < |a| :: a[i].Str? && b[i].Str?
    ensures Fits(fmt, b)
    decreases |fmt|
  {
    if fmt != [] {
      if fmt[0] != '%' {
        FitsKinds(fmt[1..], a, b);
      } else if |fmt| > 1 {
        if fmt[1] == '%' {
          FitsKinds(fmt[2..], a, b);
        } else {
          FitsKinds(fmt[2..], a[1..], b[1..]);
        }
      }
    }
  }

  /** Literal text in front of a format is copied. */
  lemma {:induction false} RenderLiteral(pre: string, fmt: string, args: seq<Arg>)
    requires '%' !in pre && Fits(fmt, args)
    ensures Fits(pre + fmt, args) && Render(pre + fmt, args) == pre + Render(fmt, args)
  {
    if pre == [] {
      assert pre + fmt == fmt;
    } else {
      var whole := pre + fmt;
      assert whole[1..] == pre[1..] + fmt && whole[0] == pre[0] && whole[0] != '%';
      RenderLiteral(pre[1..], fmt, args);
      assert [pre[0]] + pre[1..] == pre;
      Reassociate([pre[0]], pre[1..], Render(fmt, args));
    }
  }

  /** A literal, one string and a line break. */
  lemma RenderLine(pre: string, x: string)
    requires '%' !in pre
    ensures Fits(pre + "%s\n", [Str(x)]) && Render(pre + "%s\n", [Str(x)]) == pre + x + "\n"
  {
    var args := [Str(x)];
    assert "%s\n"[2..] == "\n" && args[1..] == [];
    assert Fits("\n", []) && Render("\n", []) == "\n";
    assert Render("%s\n", args) == x + "\n";
    RenderLiteral(pre, "%s\n", args);
    Reassociate(pre, x, "\n");
  }

  /** One-line formats and strings render to one line. */
  lemma {:induction false} RenderOneLine(fmt: string, args: seq<Arg>)
    requires Fits(fmt, args) && '\n' !in fmt && forall i | 0 <= i < |args| :: args[i].Str? && '\n' !in args[i].s
    ensures '\n' !in Render(fmt, args)
    decreases |fmt|
  {
    if fmt != [] {
      if fmt[0] != '%' {
        RenderOneLine(fmt[1..], args);
      } else if |fmt| > 1 {
        if fmt[1] == '%' {
          RenderOneLine(fmt[2..], args);
        } else {
          RenderOneLine(fmt[2..], args[1..]);
        }
      }
    }
  }

  /** A route line that is not active is a comment up to its end; an active one is the rendered command. */
  lemma InactiveIsComment(m: Mark, cmd: string, subnet: string)
    requires OneString(cmd) && '\n' !in cmd && '\n' !in subnet
    ensures var text := LineText(Route(m, cmd, subnet));
            && Fits(cmd, [Str(subnet)])
            && text != [] && text[|text| - 1] == '\n' && '\n' !in text[..|text| - 1]
            && (if m == Active then text == Render(cmd, [Str(subnet)]) + "\n" else text[0] == '#')
  {
    FitsKinds(cmd, [Str("")], [Str(subnet)]);
    RenderOneLine(cmd, [Str(subnet)]);
    MarkedLine(m, Render(cmd, [Str(subnet)]));
  }

  lemma MarkedLine(m: Mark, rendered: string)
    requires '\n' !in rendered
    ensures var text := MarkText(m) + rendered + "\n";
            && text != [] && text[|text| - 1] == '\n' && '\n' !in text[..|text| - 1]
            && (if m == Active then text == rendered + "\n" else text[0] == '#')
  {
    var body := MarkText(m) + rendered;
    assert '\n' !in MarkText(m);
    assert (body + "\n")[..|body|] == body;
    assert "" + rendered == rendered;
  }

  /** A buffer ready for output. */
  ghost predicate Ready(b: StringBuf)
    reads b, b.s
  {
    b.Valid() && b.growby > 0
  }

  /** CONCAT_F with a literal in front of one string and a line break. */
  method WriteLine(b: StringBuf, pre: string, x: string)
    requires Ready(b) && '%' !in pre
    modifies b, b.s
    ensures Ready(b) && (b.s == old(b.s) || fresh(b.s))
    ensures b.Contents() == old(b.Contents()) + (pre + x + "\n")
  {
    RenderLine(pre, x);
    var ok := b.Sprintf(pre + "%s\n", [Str(x)]);
  }

  /** addrmask_to_string. */
  method AddrToString(target: StringBuf, h: Host, addr: AddrInfo)
    requires Ready(target) && addr.Valid()
    modifies target, target.s
    ensures Ready(target) && (target.s == old(target.s) || fresh(target.s))
    ensures target.Contents() == old(target.Contents()) + Print(h, old(addr.View()))
  {
    WritePrefix(target, h.show(addr.family, addr.net[..addr.byteCount]), addr.maskShift);
  }

  method WritePrefix(target: StringBuf, host: string, shift: nat)
    requires Ready(target) && shift <= 128
    modifies target, target.s
    ensures Ready(target) && (target.s == old(target.s) || fresh(target.s))
    ensures target.Contents() == old(target.Contents()) + (host + "/" + Decimal(shift))
  {
    ghost var start, digits := target.Contents(), PrintInt(shift);
    var ok := target.Concat(host);
    ok := target.Putc('/');
    ok := target.Putint(shift);
    assert target.Contents() == start + host + ['/'] + digits;
    Reassociate3(start, host, ['/'], digits);
  }

  lemma Reassociate3(a: string, b: string, c: string, d: string)
    ensures a + b + c + d == a + (b + c + d)
  {
  }

  /** tinc_check_if_excluded. */
  method CheckIfExcluded(c: Config, name: string) returns (b: bool)
    ensures b <==> Excluded(c, name)
  {
    if c.exclude.None? {
      return false;
    }
    for i := 0 to |c.exclude.value|
      invariant forall j | 0 <= j < i :: !(c.exclude.value[j].Text? && EqFold(c.exclude.value[j].s, name))
    {
      if c.exclude.value[i].Number? {
        continue;
      }
      if EqFold(c.exclude.value[i].s, name) {
        return true;
      }
    }
    return false;
  }

  /** The entries of a list with their byte arrays. */
  ghost predicate Inside(es: seq<AddrInfo>, objects: set<object>) {
    forall i | 0 <= i < |es| :: es[i] in objects && es[i].net in objects && es[i].mask in objects
  }

  ghost function Objects(es: seq<AddrInfo>): set<object> {
    if es == [] then {} else {es[0] as object, es[0].net as object, es[0].mask as object} + Objects(es[1..])
  }

  lemma {:induction false} ObjectsInside(es: seq<AddrInfo>, objects: set<object>)
    requires Objects(es) <= objects
    ensures Inside(es, objects)
  {
    if es != [] {
      ObjectsInside(es[1..], objects);
    }
  }

  /** The settings of a run, with the three address lists as linked entries. */
  class Writer {
    const c: Config
    const h: Host
    const supernets: AddrInfo?
    const ignored: AddrInfo?
    const whitelist: AddrInfo?
    ghost const superEntries: seq<AddrInfo>
    ghost const ignoredEntries: seq<AddrInfo>
    ghost const whiteEntries: seq<AddrInfo>
    ghost const Repr: set<object>

    ghost predicate Valid()
      reads Repr
    {
      && Sized(h)
      && Inside(superEntries, Repr) && Inside(ignoredEntries, Repr) && Inside(whiteEntries, Repr)
      && Linked(supernets, superEntries, c.supernets)
      && Linked(ignored, ignoredEntries, c.ignored)
      && Linked(whitelist, whiteEntries, c.whitelist)
    }

    /** The lists as parse_and_free_raw_subnetlist leaves them. */
    constructor (c: Config, h: Host, supernets: AddrInfo?, ignored: AddrInfo?, whitelist: AddrInfo?,
                 ghost ss: seq<AddrInfo>, ghost ii: seq<AddrInfo>, ghost ww: seq<AddrInfo>)
      requires Sized(h) && Linked(supernets, ss, c.supernets) && Linked(ignored, ii, c.ignored) && Linked(whitelist, ww, c.whitelist)
      ensures Valid() && this.c == c && this.h == h
    {
      this.c, this.h := c, h;
      this.supernets, this.ignored, this.whitelist := supernets, ignored, whitelist;
      superEntries, ignoredEntries, whiteEntries := ss, ii, ww;
      Repr := Objects(ss) + Objects(ii) + Objects(ww);
      new;
      ObjectsInside(ss, Repr);
      ObjectsInside(ii, Repr);
      ObjectsInside(ww, Repr);
    }

    /** addrmask_match, asked for a hit on one of the lists. */
    method OnList(matches: AddrInfo?, ghost es: seq<AddrInfo>, ghost vs: seq<Subnet>, subnet: string) returns (b: bool)
      requires Linked(matches, es, vs) && Sized(h)
      ensures b == MatchesText(h, vs, subnet)
    {
      var found := Match(matches, es, vs, h, subnet);
      b := found != null;
    }

    /** Which of the lists a network is on decides what stands in front of its route. */
    method MarkFor(subnet: string) returns (m: Mark)
      requires Valid()
      ensures m == MarkOf(c, h, subnet)
    {
      var mergeFound := OnList(supernets, superEntries, c.supernets, subnet);
      assert Valid();
      var ignoreFound := OnList(ignored, ignoredEntries, c.ignored, subnet);
      assert Valid();
      var whitelistFound := OnList(whitelist, whiteEntries, c.whitelist, subnet);
      assert whitelist != null <==> c.whitelist != [];
      if mergeFound {
        m := Merged;
      } else if ignoreFound {
        m := Ignored;
      } else if whitelist != null && !whitelistFound {
        m := NotListed;
      } else {
        m := Active;
      }
    }
  
    /** An output buffer apart from the lists. */
    ghost predicate Out(b: StringBuf)
      reads b, b.s
    {
      Ready(b) && b !in Repr && (b.s == null || b.s !in Repr)
    }

    method WriteText(b: StringBuf, text: string)
      requires Valid() && Out(b)
      modifies b, b.s
      ensures Valid() && Out(b) && (b.s == old(b.s) || fresh(b.s))
      ensures b.Contents() == old(b.Contents()) + text
    {
      var ok := b.Concat(text);
    }

    method WriteMark(b: StringBuf, m: Mark)
      requires Valid() && Out(b)
      modifies b, b.s
      ensures Valid() && Out(b) && (b.s == old(b.s) || fresh(b.s))
      ensures b.Contents() == old(b.Contents()) + MarkText(m)
    {
      if m != Active {
        WriteText(b, MarkText(m));
      }
    }

    method WriteCommand(b: StringBuf, cmd: string, subnet: string)
      requires Valid() && Out(b) && Fits(cmd, [Str(subnet)])
      modifies b, b.s
      ensures Valid() && Out(b) && (b.s == old(b.s) || fresh(b.s))
      ensures b.Contents() == old(b.Contents()) + Render(cmd, [Str(subnet)]) + "\n"
    {
      var ok := b.Sprintf(cmd, [Str(subnet)]);
      WriteText(b, "\n");
    }

    /** A route command with its mark and line break. */
    method WriteRoute(b: StringBuf, m: Mark, cmd: string, subnet: string)
      requires Valid() && Out(b) && OneString(cmd)
      modifies b, b.s
      ensures Valid() && Out(b) && (b.s == old(b.s) || fresh(b.s))
      ensures b.Contents() == old(b.Contents()) + LineText(Route(m, cmd, subnet))
    {
      ghost var start := b.Contents();
      FitsKinds(cmd, [Str("")], [Str(subnet)]);
      WriteMark(b, m);
      WriteCommand(b, cmd, subnet);
      Reassociate3(start, MarkText(m), Render(cmd, [Str(subnet)]), "\n");
    }

    /** The routes of one network list. */
    method WriteNetworks(b: StringBuf, cmd: string, networks: seq<string>)
      requires Valid() && Out(b) && OneString(cmd)
      modifies b, b.s
      ensures Valid() && Out(b) && (b.s == old(b.s) || fresh(b.s))
      ensures b.Contents() == old(b.Contents()) + ScriptText(NetworkRoutes(c, h, cmd, networks))
    {
      ghost var start, all := b.Contents(), ScriptText(NetworkRoutes(c, h, cmd, networks));
      ghost var done := "";
      for k := 0 to |networks|
        invariant Valid() && Out(b) && (b.s == old(b.s) || fresh(b.s))
        invariant b.Contents() == start + done
        invariant all == done + ScriptText(NetworkRoutes(c, h, cmd, networks[k..]))
      {
        ghost var rest := networks[k..];
        assert rest[1..] == networks[k + 1..];
        var split := SplitAt(networks[k], '#');
        var subnet := if split.None? then networks[k] else split.value.0;
        var m := MarkFor(subnet);
        WriteRoute(b, m, cmd, subnet);
        TextCons(Route(m, cmd, subnet), NetworkRoutes(c, h, cmd, networks[k + 1..]));
        Reassociate(start, done, LineText(Route(m, cmd, subnet)));
        Reassociate(done, LineText(Route(m, cmd, subnet)), ScriptText(NetworkRoutes(c, h, cmd, networks[k + 1..])));
        done := done + LineText(Route(m, cmd, subnet));
      }
      assert networks[|networks|..] == [];
    }
  
    /** The networks of one family, if its routes are written at all. */
    method WriteFamily(b: StringBuf, networks: seq<string>, f: Family, up: bool)
      requires Valid() && Out(b) && CommandsFit(c, up)
      modifies b, b.s
      ensures Valid() && Out(b) && (b.s == old(b.s) || fresh(b.s))
      ensures b.Contents() == old(b.Contents()) + ScriptText(FamilyRoutes(c, h, networks, f, up))
    {
      if Routed(c, f, up) {
        WriteNetworks(b, RouteCmd(c, f, up), networks);
      }
    }

    method WriteComment(b: StringBuf, pre: string, x: string)
      requires Valid() && Out(b) && '%' !in pre
      modifies b, b.s
      ensures Valid() && Out(b) && (b.s == old(b.s) || fresh(b.s))
      ensures b.Contents() == old(b.Contents()) + ScriptText([Plain(pre + x + "\n")])
    {
      WriteLine(b, pre, x);
      TextCons(Plain(pre + x + "\n"), []);
    }

    /** One peer: nothing for this node, a comment only for an excluded one. */
    method WritePeer(b: StringBuf, p: Peer, up: bool)
      requires Valid() && Out(b) && CommandsFit(c, up)
      modifies b, b.s
      ensures Valid() && Out(b) && (b.s == old(b.s) || fresh(b.s))
      ensures b.Contents() == old(b.Contents()) + ScriptText(PeerRoutes(c, h, p, up))
    {
      if p.name == c.peerId {
        return;
      }
      var excluded := CheckIfExcluded(c, p.name);
      if excluded {
        WriteComment(b, "# excluded node: ", p.name);
        return;
      }
      WriteNode(b, p, up);
    }

    method WriteNode(b: StringBuf, p: Peer, up: bool)
      requires Valid() && Out(b) && CommandsFit(c, up) && Relevant(c, p)
      modifies b, b.s
      ensures Valid() && Out(b) && (b.s == old(b.s) || fresh(b.s))
      ensures b.Contents() == old(b.Contents()) + ScriptText(PeerRoutes(c, h, p, up))
    {
      ghost var start := b.Contents();
      WriteLine(b, "# node: ", p.name);
      WriteFamily(b, p.network, V4, up);
      WriteFamily(b, p.network6, V6, up);
      PeerText(start, "# node: " + p.name + "\n",
               FamilyRoutes(c, h, p.network, V4, up), FamilyRoutes(c, h, p.network6, V6, up));
    }

    method WritePeers(b: StringBuf, ps: seq<Peer>, up: bool)
      requires Valid() && Out(b) && CommandsFit(c, up)
      modifies b, b.s
      ensures Valid() && Out(b) && (b.s == old(b.s) || fresh(b.s))
      ensures b.Contents() == old(b.Contents()) + ScriptText(AllPeerRoutes(c, h, ps, up))
    {
      ghost var start, all := b.Contents(), ScriptText(AllPeerRoutes(c, h, ps, up));
      ghost var done := "";
      for k := 0 to |ps|
        invariant Valid() && Out(b) && (b.s == old(b.s) || fresh(b.s))
        invariant b.Contents() == start + done
        invariant all == done + ScriptText(AllPeerRoutes(c, h, ps[k..], up))
      {
        assert ps[k..][1..] == ps[k + 1..];
        WritePeer(b, ps[k], up);
        Extend(start, done, PeerRoutes(c, h, ps[k], up), AllPeerRoutes(c, h, ps[k + 1..], up));
        done := done + ScriptText(PeerRoutes(c, h, ps[k], up));
      }
      assert ps[|ps|..] == [];
    }

    /** The text of a supernet, through a buffer of its own. */
    method SupernetText(net: AddrInfo) returns (text: string)
      requires net.Valid()
      ensures text == Print(h, net.View())
    {
      var outputaddr := new StringBuf.Init(128, 128);
      AddrToString(outputaddr, h, net);
      var ok := outputaddr.EnsureZ();
      text := outputaddr.s[..outputaddr.length];
    }

    method WriteSupernet(b: StringBuf, net: AddrInfo, ghost v: Subnet, up: bool)
      requires Valid() && Out(b) && CommandsFit(c, up) && Stands(net, v)
      modifies b, b.s
      ensures Valid() && Out(b) && (b.s == old(b.s) || fresh(b.s))
      ensures b.Contents() == old(b.Contents()) + ScriptText(SupernetRoute(c, h, v, up))
    {
      if Routed(c, net.family, up) {
        var cmd := RouteCmd(c, net.family, up);
        var text := SupernetText(net);
        TextCons(Route(Active, cmd, text), []);
        WriteRoute(b, Active, cmd, text);
      }
    }

    /** What is still to be written from the i-th supernet on. */
    ghost predicate Remaining(rest: nat -> string, up: bool) {
      forall i: nat {:trigger c.supernets[i]} | i < |c.supernets| ::
        rest(i) == ScriptText(SupernetRoute(c, h, c.supernets[i], up)) + rest(i + 1)
    }

    /** One round of the walk along the linked supernets. */
    method WriteEntry(b: StringBuf, net: AddrInfo, ghost i: nat, up: bool, ghost rest: nat -> string)
      returns (next: AddrInfo?)
      requires Valid() && Out(b) && CommandsFit(c, up) && Remaining(rest, up)
      requires i < |superEntries| && net == superEntries[i]
      modifies b, b.s
      ensures Valid() && Out(b) && (b.s == old(b.s) || fresh(b.s))
      ensures next == EntryAt(i + 1)
      ensures b.Contents() + rest(i + 1) == old(b.Contents()) + rest(i)
    {
      assert Stands(superEntries[i], c.supernets[i]);
      ghost var start, piece := b.Contents(), ScriptText(SupernetRoute(c, h, c.supernets[i], up));
      WriteSupernet(b, net, c.supernets[i], up);
      Reassociate(start, piece, rest(i + 1));
      next := net.next;
    }

    /** The i-th entry of the supernets, null behind the last. */
    ghost function EntryAt(i: nat): AddrInfo? {
      if i < |superEntries| then superEntries[i] else null
    }

    lemma FirstEntry()
      requires Valid()
      ensures supernets == EntryAt(0) && |superEntries| == |c.supernets|
    {
    }

    method WalkSupernets(b: StringBuf, up: bool, ghost rest: nat -> string)
      requires Valid() && Out(b) && CommandsFit(c, up) && Remaining(rest, up)
      modifies b, b.s
      ensures Valid() && Out(b) && (b.s == old(b.s) || fresh(b.s))
      ensures b.Contents() + rest(|c.supernets|) == old(b.Contents()) + rest(0)
    {
      FirstEntry();
      var net := supernets;
      ghost var i: nat := 0;
      while net != null
        invariant Valid() && Out(b) && (b.s == old(b.s) || fresh(b.s))
        invariant i <= |superEntries| && net == EntryAt(i)
        invariant b.Contents() + rest(i) == old(b.Contents()) + rest(0)
        decreases |superEntries| - i
      {
        net := WriteEntry(b, net, i, up, rest);
        i := i + 1;
      }
    }

    method WriteSupernets(b: StringBuf, up: bool)
      requires Valid() && Out(b) && CommandsFit(c, up)
      modifies b, b.s
      ensures Valid() && Out(b) && (b.s == old(b.s) || fresh(b.s))
      ensures b.Contents() == old(b.Contents()) + ScriptText(SupernetRoutes(c, h, c.supernets, up))
    {
      ghost var rest := RestText(up);
      RestTextSplits(up);
      WalkSupernets(b, up, rest);
    }

    ghost function RestText(up: bool): nat -> string {
      (i: nat) => if i <= |c.supernets| then ScriptText(SupernetRoutes(c, h, c.supernets[i..], up)) else ""
    }

    lemma RestTextSplits(up: bool)
      ensures Remaining(RestText(up), up)
      ensures RestText(up)(0) == ScriptText(SupernetRoutes(c, h, c.supernets, up)) && RestText(up)(|c.supernets|) == ""
    {
      var rest := RestText(up);
      assert c.supernets[0..] == c.supernets;
      forall i: nat | i < |c.supernets|
        ensures rest(i) == ScriptText(SupernetRoute(c, h, c.supernets[i], up)) + rest(i + 1)
      {
        assert c.supernets[i..][1..] == c.supernets[i + 1..];
        TextAppend(SupernetRoute(c, h, c.supernets[i], up), SupernetRoutes(c, h, c.supernets[i + 1..], up));
      }
    }
  
    /** The buffer holds what it held before, and the given lines. */
    ghost predicate Emitted(b: StringBuf, before: string, ls: seq<Line>)
      requires b.Valid()
      reads b, b.s
    {
      b.Contents() == before + ScriptText(ls)
    }

    method Emit(b: StringBuf, text: string, ghost before: string, ghost ls: seq<Line>)
      requires Valid() && Out(b) && Emitted(b, before, ls)
      modifies b, b.s
      ensures Valid() && Out(b) && (b.s == old(b.s) || fresh(b.s))
      ensures Emitted(b, before, ls + [Plain(text)])
    {
      WriteText(b, text);
      OneMore(before, ls, text);
    }

    method EmitLine(b: StringBuf, x: string, ghost before: string, ghost ls: seq<Line>)
      requires Valid() && Out(b) && Emitted(b, before, ls)
      modifies b, b.s
      ensures Valid() && Out(b) && (b.s == old(b.s) || fresh(b.s))
      ensures Emitted(b, before, ls + [Plain(x + "\n")])
    {
      ghost var line := x + "\n";
      assert "" + x + "\n" == line;
      WriteLine(b, "", x);
      OneMore(before, ls, line);
    }

    /** A setting on a line of its own, if it is there. */
    method EmitSetting(b: StringBuf, present: bool, x: string, ghost before: string, ghost ls: seq<Line>)
      requires Valid() && Out(b) && Emitted(b, before, ls)
      modifies b, b.s
      ensures Valid() && Out(b) && (b.s == old(b.s) || fresh(b.s))
      ensures Emitted(b, before, ls + if present then [Plain(x + "\n")] else [])
    {
      if present {
        EmitLine(b, x, before, ls);
      } else {
        assert ls + [] == ls;
      }
    }

    /** For tinc-up the commands that configure the interface. */
    method WriteInterface(b: StringBuf, ghost before: string, ghost top: seq<Line>)
      requires Valid() && Out(b) && Emitted(b, before, top)
      modifies b, b.s
      ensures Valid() && Out(b) && (b.s == old(b.s) || fresh(b.s))
      ensures Emitted(b, before, top + Interface(c))
    {
      var four, six := c.ifconfig != "" && c.vpnIp != "", c.ifconfig6 != "" && c.vpnIp6 != "";
      ghost var a := if four then [Plain(c.ifconfig + "\n")] else [];
      ghost var d := if six then [Plain(c.ifconfig6 + "\n")] else [];
      EmitSetting(b, four, c.ifconfig, before, top);
      EmitSetting(b, six, c.ifconfig6, before, top + a);
      Emit(b, "\n", before, top + a + d);
      ReassociateLines(top, a, d, [Plain("\n")]);
    }

    /** The first lines. */
    method WriteHead(b: StringBuf, up: bool, ghost before: string)
      requires Valid() && Out(b) && b.Contents() == before
      modifies b, b.s
      ensures Valid() && Out(b) && (b.s == old(b.s) || fresh(b.s))
      ensures Emitted(b, before, Head(c, up))
    {
      Emit(b, "#!/bin/sh\n", before, []);
      Emit(b, TITLE, before, [] + [Plain("#!/bin/sh\n")]);
      ghost var top := [Plain("#!/bin/sh\n"), Plain(TITLE)];
      assert [] + [Plain("#!/bin/sh\n")] + [Plain(TITLE)] == top;
      if up {
        WriteInterface(b, before, top);
      } else {
        assert top + [] == top;
      }
    }

    /** The supernets with their heading, if there are any. */
    method WriteMerge(b: StringBuf, up: bool)
      requires Valid() && Out(b) && CommandsFit(c, up)
      modifies b, b.s
      ensures Valid() && Out(b) && (b.s == old(b.s) || fresh(b.s))
      ensures b.Contents() == old(b.Contents()) + ScriptText(Merge(c, h, up))
    {
      FirstEntry();
      if supernets != null {
        ghost var start, body := b.Contents(), SupernetRoutes(c, h, c.supernets, up);
        WriteText(b, "# Mergeroute Supernets\n");
        WriteSupernets(b, up);
        WriteText(b, "\n");
        Framed(start, "# Mergeroute Supernets\n", body, "\n");
      }
    }

    /** The last lines, and for tinc-up the configured command behind them. */
    method WriteFoot(b: StringBuf, up: bool)
      requires Valid() && Out(b)
      modifies b, b.s
      ensures Valid() && Out(b) && (b.s == old(b.s) || fresh(b.s))
      ensures b.Contents() == old(b.Contents()) + ScriptText(Foot(c, up))
    {
      ghost var before := b.Contents();
      WriteCall(b, before);
      EmitSetting(b, up && c.postUp != "", c.postUp, before, [Plain("\n"), Plain(LOCAL_CALL), Plain("\n")]);
      Emit(b, "\nexit 0\n\n", before, [Plain("\n"), Plain(LOCAL_CALL), Plain("\n")]
                                     + if up && c.postUp != "" then [Plain(c.postUp + "\n")] else []);
    }

    method WriteCall(b: StringBuf, ghost before: string)
      requires Valid() && Out(b) && b.Contents() == before
      modifies b, b.s
      ensures Valid() && Out(b) && (b.s == old(b.s) || fresh(b.s))
      ensures Emitted(b, before, [Plain("\n"), Plain(LOCAL_CALL), Plain("\n")])
    {
      Emit(b, "\n", before, []);
      Emit(b, LOCAL_CALL, before, [] + [Plain("\n")]);
      Emit(b, "\n", before, [] + [Plain("\n")] + [Plain(LOCAL_CALL)]);
      ThreeLines(Plain("\n"), Plain(LOCAL_CALL), Plain("\n"));
    }

    /** tinc_write_updown: what is handed to the file. */
    method WriteUpDown(ps: seq<Peer>, up: bool) returns (b: StringBuf)
      requires Valid() && CommandsFit(c, up)
      ensures Valid() && Ready(b) && b.Contents() == ScriptText(Script(c, h, ps, up))
    {
      b := new StringBuf.Init(8192, 2048);
      WriteHead(b, up, "");
      WriteRest(b, ps, up, Head(c, up));
    }

    method WriteRest(b: StringBuf, ps: seq<Peer>, up: bool, ghost top: seq<Line>)
      requires Valid() && Out(b) && CommandsFit(c, up) && Emitted(b, "", top)
      modifies b, b.s
      ensures Valid() && Out(b) && b.Contents() == ScriptText(top + Merge(c, h, up) + Body(c, h, ps, up) + Foot(c, up))
    {
      Whole(top, Merge(c, h, up), Body(c, h, ps, up), Foot(c, up));
      assert b.Contents() == ScriptText(top);
      WriteMerge(b, up);
      WriteBody(b, ps, up);
      WriteFoot(b, up);
    }

    /** The routes of all peers, unless they are set up dynamically. */
    method WriteBody(b: StringBuf, ps: seq<Peer>, up: bool)
      requires Valid() && Out(b) && CommandsFit(c, up)
      modifies b, b.s
      ensures Valid() && Out(b) && (b.s == old(b.s) || fresh(b.s))
      ensures b.Contents() == old(b.Contents()) + ScriptText(Body(c, h, ps, up))
    {
      if !c.useDynamicRoutes {
        WritePeers(b, ps, up);
      }
    }
  }

  lemma ThreeLines(a: Line, b: Line, d: Line)
    ensures [] + [a] + [b] + [d] == [a, b, d]
  {
  }

  lemma ReassociateLines(a: seq<Line>, b: seq<Line>, d: seq<Line>, e: seq<Line>)
    ensures a + b + d + e == a + (b + d + e)
  {
  }

  lemma OneMore(before: string, ls: seq<Line>, text: string)
    ensures before + ScriptText(ls + [Plain(text)]) == before + ScriptText(ls) + text
  {
    TextAppend(ls, [Plain(text)]);
    TextCons(Plain(text), []);
    Reassociate(before, ScriptText(ls), text);
  }

  lemma Framed(start: string, top: string, body: seq<Line>, end: string)
    ensures start + top + ScriptText(body) + end == start + ScriptText([Plain(top)] + body + [Plain(end)])
  {
    TextAppend([Plain(top)] + body, [Plain(end)]);
    TextAppend([Plain(top)], body);
    TextCons(Plain(top), []);
    TextCons(Plain(end), []);
    Reassociate3(start, top, ScriptText(body), end);
  }

  lemma Whole(a: seq<Line>, b: seq<Line>, d: seq<Line>, e: seq<Line>)
    ensures ScriptText(a + b + d + e) == ScriptText(a) + ScriptText(b) + ScriptText(d) + ScriptText(e)
  {
    TextAppend(a + b + d, e);
    TextAppend(a + b, d);
    TextAppend(a, b);
  }

  /** The line of one supernet. */
  function SupernetRoute(c: Config, h: Host, v: Subnet, up: bool): seq<Line> {
    if Routed(c, v.family, up) then [Route(Active, RouteCmd(c, v.family, up), Print(h, v))] else []
  }

  /** One more piece of the script written. */
  lemma Extend(start: string, done: string, piece: seq<Line>, rest: seq<Line>)
    ensures start + done + ScriptText(piece) == start + (done + ScriptText(piece))
    ensures done + ScriptText(piece + rest) == done + ScriptText(piece) + ScriptText(rest)
  {
    TextAppend(piece, rest);
    Reassociate(done, ScriptText(piece), ScriptText(rest));
  }

  lemma PeerText(start: string, top: string, a: seq<Line>, b: seq<Line>)
    ensures start + top + ScriptText(a) + ScriptText(b) == start + ScriptText([Plain(top)] + a + b)
  {
    TextAppend([Plain(top)] + a, b);
    TextAppend([Plain(top)], a);
    TextCons(Plain(top), []);
    Reassociate3(start, top, ScriptText(a), ScriptText(b));
  }

  lemma TextCons(l: Line, ls: seq<Line>)
    ensures ScriptText([l] + ls) == LineText(l) + ScriptText(ls)
  {
    assert ([l] + ls)[1..] == ls;
  }
}
