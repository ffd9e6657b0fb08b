/** tinc_write_updown of tinc.c: the route lines of tinc-up and tinc-down, as values. */
module Routes {
  import opened Options
  import opened CStr
  import opened Prefix
  import opened Subnets
  import opened FirstHit
  import opened AddrMask
  import opened Buffers
  import opened Keywords
  import opened PeerConfig

  /** The settings that decide the scripts; a missing string is the empty one. */
  datatype Config = Config(
    peerId: string, vpnIp: string, vpnIp6: string, ifconfig: string, ifconfig6: string,
    routeAdd: string, routeAdd6: string, routeDel: string, routeDel6: string, postUp: string,
    useDynamicRoutes: bool, exclude: Option<seq<RawEntry>>,
    supernets: seq<Subnet>, ignored: seq<Subnet>, whitelist: seq<Subnet>)

  function VpnIp(c: Config, f: Family): string { if f == V4 then c.vpnIp else c.vpnIp6 }

  function RouteCmd(c: Config, f: Family, up: bool): string {
    match (f, up)
    case (V4, true) => c.routeAdd
    case (V4, false) => c.routeDel
    case (V6, true) => c.routeAdd6
    case (V6, false) => c.routeDel6
  }

  /** Routes of a family are written at all. */
  predicate Routed(c: Config, f: Family, up: bool) { VpnIp(c, f) != "" && RouteCmd(c, f, up) != "" }

  /** tinc_check_if_excluded. */
  predicate Excluded(c: Config, name: string) {
    c.exclude.Some? && exists i | 0 <= i < |c.exclude.value| :: c.exclude.value[i].Text? && EqFold(c.exclude.value[i].s, name)
  }

  /** What stands in front of a route command. */
  datatype Mark = Active | Merged | Ignored | NotListed

  datatype Line = Plain(text: string) | Route(mark: Mark, cmd: string, subnet: string)

  /** The text of a network entry in front of its weight. */
  function CutWeight(text: string): string {
    match SplitAt(text, '#')
    case None => text
    case Some(p) => p.0
  }

  predicate MatchesText(h: Host, es: seq<Subnet>, text: string) {
    Parse(h, text).Some? && Matches(es, Parse(h, text).value)
  }

  function MarkOf(c: Config, h: Host, subnet: string): Mark {
    if MatchesText(h, c.supernets, subnet) then Merged
    else if MatchesText(h, c.ignored, subnet) then Ignored
    else if c.whitelist != [] && !MatchesText(h, c.whitelist, subnet) then NotListed
    else Active
  }

  function NetworkRoutes(c: Config, h: Host, cmd: string, ns: seq<string>): seq<Line> {
    if ns == [] then []
    else
      var subnet := CutWeight(ns[0]);
      [Route(MarkOf(c, h, subnet), cmd, subnet)] + NetworkRoutes(c, h, cmd, ns[1..])
  }

  function FamilyRoutes(c: Config, h: Host, ns: seq<string>, f: Family, up: bool): seq<Line> {
    if Routed(c, f, up) then NetworkRoutes(c, h, RouteCmd(c, f, up), ns) else []
  }

  function PeerRoutes(c: Config, h: Host, p: Peer, up: bool): seq<Line> {
    if p.name == c.peerId then []
    else if Excluded(c, p.name) then [Plain("# excluded node: " + p.name + "\n")]
    else [Plain("# node: " + p.name + "\n")] + FamilyRoutes(c, h, p.network, V4, up) + FamilyRoutes(c, h, p.network6, V6, up)
  }

  function AllPeerRoutes(c: Config, h: Host, ps: seq<Peer>, up: bool): seq<Line> {
    if ps == [] then [] else PeerRoutes(c, h, ps[0], up) + AllPeerRoutes(c, h, ps[1..], up)
  }

  function SupernetRoutes(c: Config, h: Host, nets: seq<Subnet>, up: bool): seq<Line> {
    if nets == [] then []
    else
      (if Routed(c, nets[0].family, up) then [Route(Active, RouteCmd(c, nets[0].family, up), Print(h, nets[0]))] else [])
      + SupernetRoutes(c, h, nets[1..], up)
  }

  const TITLE: string := "# this is an autogenerated file - do not edit!\n\n"
  const LOCAL_CALL: string := "[ -x \"$0.local\" ] && \"$0.local\" \"$@\"\n"

  function Head(c: Config, up: bool): seq<Line> {
    [Plain("#!/bin/sh\n"), Plain(TITLE)]
    + (if up then Interface(c) else [])
  }

  /** The commands of tinc-up that configure the interface. */
  function Interface(c: Config): seq<Line> {
    (if c.ifconfig != "" && c.vpnIp != "" then [Plain(c.ifconfig + "\n")] else [])
    + (if c.ifconfig6 != "" && c.vpnIp6 != "" then [Plain(c.ifconfig6 + "\n")] else [])
    + [Plain("\n")]
  }

  function Merge(c: Config, h: Host, up: bool): seq<Line> {
    if c.supernets == [] then []
    else [Plain("# Mergeroute Supernets\n")] + SupernetRoutes(c, h, c.supernets, up) + [Plain("\n")]
  }

  function Foot(c: Config, up: bool): seq<Line> {
    [Plain("\n"), Plain(LOCAL_CALL), Plain("\n")]
    + (if up && c.postUp != "" then [Plain(c.postUp + "\n")] else [])
    + [Plain("\nexit 0\n\n")]
  }

  /** The routes of all peers, unless they are set up dynamically. */
  function Body(c: Config, h: Host, ps: seq<Peer>, up: bool): seq<Line> {
    if c.useDynamicRoutes then [] else AllPeerRoutes(c, h, ps, up)
  }

  /** The whole script. */
  function Script(c: Config, h: Host, ps: seq<Peer>, up: bool): seq<Line> {
    Head(c, up) + Merge(c, h, up) + Body(c, h, ps, up) + Foot(c, up)
  }

  // ----- membership of lines

  lemma {:induction false} NetworkRoutesIn(c: Config, h: Host, cmd: string, ns: seq<string>, l: Line)
    ensures l in NetworkRoutes(c, h, cmd, ns) <==>
            l.Route? && l.cmd == cmd && exists n | n in ns :: l.subnet == CutWeight(n) && l.mark == MarkOf(c, h, l.subnet)
  {
    if ns != [] {
      NetworkRoutesIn(c, h, cmd, ns[1..], l);
      assert forall n :: n in ns <==> n == ns[0] || n in ns[1..];
    }
  }

  lemma {:induction false} SupernetRoutesIn(c: Config, h: Host, nets: seq<Subnet>, up: bool, l: Line)
    ensures l in SupernetRoutes(c, h, nets, up) <==>
            exists s | s in nets :: Routed(c, s.family, up) && l == Route(Active, RouteCmd(c, s.family, up), Print(h, s))
  {
    if nets != [] {
      SupernetRoutesIn(c, h, nets[1..], up, l);
      assert forall s :: s in nets <==> s == nets[0] || s in nets[1..];
    }
  }

  lemma {:induction false} AllPeerRoutesIn(c: Config, h: Host, ps: seq<Peer>, up: bool, l: Line)
    ensures l in AllPeerRoutes(c, h, ps, up) <==> exists p | p in ps :: l in PeerRoutes(c, h, p, up)
  {
    if ps != [] {
      AllPeerRoutesIn(c, h, ps[1..], up, l);
      assert forall p :: p in ps <==> p == ps[0] || p in ps[1..];
    }
  }

  function Networks(p: Peer, f: Family): seq<string> { if f == V4 then p.network else p.network6 }

  /** A peer whose routes are looked at: neither this node nor excluded. */
  predicate Relevant(c: Config, p: Peer) { p.name != c.peerId && !Excluded(c, p.name) }

  lemma PeerRoutesIn(c: Config, h: Host, p: Peer, up: bool, l: Line)
    requires l.Route?
    ensures l in PeerRoutes(c, h, p, up) <==>
            Relevant(c, p) && exists f, n | n in Networks(p, f) ::
              Routed(c, f, up) && l == Route(MarkOf(c, h, CutWeight(n)), RouteCmd(c, f, up), CutWeight(n))
  {
    NetworkRoutesIn(c, h, RouteCmd(c, V4, up), p.network, l);
    NetworkRoutesIn(c, h, RouteCmd(c, V6, up), p.network6, l);
    if Relevant(c, p) {
      var a, b := FamilyRoutes(c, h, p.network, V4, up), FamilyRoutes(c, h, p.network6, V6, up);
      assert l in PeerRoutes(c, h, p, up) <==> l in a || l in b;
      if l in a {
        var n :| n in p.network && l.subnet == CutWeight(n);
        assert n in Networks(p, V4);
      }
      if l in b {
        var n :| n in p.network6 && l.subnet == CutWeight(n);
        assert n in Networks(p, V6);
      }
    }
  }

  /** A route line of the script comes from a supernet or from a network of a relevant peer. */
  ghost predicate FromSupernet(c: Config, h: Host, up: bool, l: Line) {
    exists s | s in c.supernets :: Routed(c, s.family, up) && l == Route(Active, RouteCmd(c, s.family, up), Print(h, s))
  }

  ghost predicate FromPeers(c: Config, h: Host, ps: seq<Peer>, up: bool, l: Line) {
    !c.useDynamicRoutes && exists p, f, n | p in ps && n in Networks(p, f) ::
      Relevant(c, p) && Routed(c, f, up)
      && l == Route(MarkOf(c, h, CutWeight(n)), RouteCmd(c, f, up), CutWeight(n))
  }

  lemma ScriptRoutes(c: Config, h: Host, ps: seq<Peer>, up: bool, l: Line)
    requires l.Route?
    ensures l in Script(c, h, ps, up) <==> FromSupernet(c, h, up, l) || FromPeers(c, h, ps, up, l)
  {
    var m, r := Merge(c, h, up), AllPeerRoutes(c, h, ps, up);
    assert l !in Head(c, up) && l !in Foot(c, up);
    SupernetRoutesIn(c, h, c.supernets, up, l);
    AllPeerRoutesIn(c, h, ps, up, l);
    assert l in m <==> FromSupernet(c, h, up, l);
    if l in r {
      var p :| p in ps && l in PeerRoutes(c, h, p, up);
      PeerRoutesIn(c, h, p, up, l);
    }
    if !c.useDynamicRoutes && FromPeers(c, h, ps, up, l) {
      var p, f, n :| p in ps && n in Networks(p, f) && Relevant(c, p) && Routed(c, f, up)
                     && l == Route(MarkOf(c, h, CutWeight(n)), RouteCmd(c, f, up), CutWeight(n));
      PeerRoutesIn(c, h, p, up, l);
      assert l in r;
    }
  }

  // ----- merging preserves routing

  /** No address text with a weight mark resolves. */
  ghost predicate NoWeights(h: Host) {
    forall t, f :: '#' in t ==> h.lookup(t, f).None?
  }

  /** A text that parses as a subnet has no weight, so cutting one off changes nothing. */
  lemma ParsedHasNoWeight(h: Host, text: string)
    requires NoWeights(h) && Parse(h, text).Some?
    ensures CutWeight(text) == text
  {
    var (pattern, mask) := SplitText(text).value;
    assert '#' !in pattern;
    assert mask.Some? ==> '#' !in mask.value by {
      if mask.Some? { assert forall i | 0 <= i < |mask.value| :: IsDigit(mask.value[i]); }
    }
    SplitTextParts(text);
  }

  /** Every character of a text other than brackets and the slash is in one of its parts. */
  lemma SplitTextParts(text: string)
    requires SplitText(text).Some?
    ensures var (pattern, mask) := SplitText(text).value;
            forall ch | ch in text :: ch in "[]/" || ch in pattern || (mask.Some? && ch in mask.value)
  {
    if text != [] && text[0] == '[' {
      var p := SplitAt(text[1..], ']').value;
      assert text == [text[0]] + text[1..];
    }
  }

  /** What running a command does to the route table. */
  datatype Effect = Adds | Deletes | Other

  /** The configured commands do what their settings say. */
  predicate CommandsWork(c: Config, effect: string -> Effect) {
    && (c.routeAdd != "" ==> effect(c.routeAdd) == Adds) && (c.routeAdd6 != "" ==> effect(c.routeAdd6) == Adds)
    && (c.routeDel != "" ==> effect(c.routeDel) == Deletes) && (c.routeDel6 != "" ==> effect(c.routeDel6) == Deletes)
  }

  /**
    * Running a script on a route table, keyed by the subnets the texts stand for: every active line adds or deletes its
    * subnet as its own command says; a marked line is a comment.
    */
  function Execute(h: Host, effect: string -> Effect, ls: seq<Line>, table: set<Option<Subnet>>): set<Option<Subnet>> {
    if ls == [] then table
    else if !ls[0].Route? || ls[0].mark != Active then Execute(h, effect, ls[1..], table)
    else
      var key := Parse(h, ls[0].subnet);
      Execute(h, effect, ls[1..],
              match effect(ls[0].cmd)
              case Adds => table + {key}
              case Deletes => table - {key}
              case Other => table)
  }

  /** The subnets the active lines route. */
  function ActiveKeys(h: Host, ls: seq<Line>): set<Option<Subnet>> {
    if ls == [] then {}
    else (if ls[0].Route? && ls[0].mark == Active then {Parse(h, ls[0].subnet)} else {}) + ActiveKeys(h, ls[1..])
  }

  /** Every active line has this effect. */
  predicate AllActive(effect: string -> Effect, ls: seq<Line>, e: Effect) {
    forall l | l in ls && l.Route? && l.mark == Active :: effect(l.cmd) == e
  }

  lemma {:induction false} ExecuteAdds(h: Host, effect: string -> Effect, ls: seq<Line>, table: set<Option<Subnet>>)
    requires AllActive(effect, ls, Adds)
    ensures Execute(h, effect, ls, table) == table + ActiveKeys(h, ls)
    decreases |ls|
  {
    if ls != [] {
      var l, rest := ls[0], ls[1..];
      assert forall x | x in rest :: x in ls;
      if l.Route? && l.mark == Active {
        assert l in ls;
        ExecuteAdds(h, effect, rest, table + {Parse(h, l.subnet)});
      } else {
        ExecuteAdds(h, effect, rest, table);
      }
    }
  }

  lemma {:induction false} ExecuteDeletes(h: Host, effect: string -> Effect, ls: seq<Line>, table: set<Option<Subnet>>)
    requires AllActive(effect, ls, Deletes)
    ensures Execute(h, effect, ls, table) == table - ActiveKeys(h, ls)
    decreases |ls|
  {
    if ls != [] {
      var l, rest := ls[0], ls[1..];
      assert forall x | x in rest :: x in ls;
      if l.Route? && l.mark == Active {
        assert l in ls;
        ExecuteDeletes(h, effect, rest, table - {Parse(h, l.subnet)});
      } else {
        ExecuteDeletes(h, effect, rest, table);
      }
    }
  }

  lemma {:induction false} ActiveKeysIn(h: Host, ls: seq<Line>, l: Line)
    requires l in ls && l.Route? && l.mark == Active
    ensures Parse(h, l.subnet) in ActiveKeys(h, ls)
  {
    if l != ls[0] {
      ActiveKeysIn(h, ls[1..], l);
    }
  }

  /** Some subnet of the family in the table holds the address. */
  ghost predicate Covered(table: set<Option<Subnet>>, f: Family, v: int) {
    exists s :: Some(s) in table && s.family == f && s.shift <= BitCount(f) && InNet(s, v)
  }

  /** A subnet the lists drop: not merged, and ignored or missing from the whitelist. */
  predicate Dropped(c: Config, h: Host, subnet: string) {
    && !MatchesText(h, c.supernets, subnet)
    && (MatchesText(h, c.ignored, subnet) || (c.whitelist != [] && !MatchesText(h, c.whitelist, subnet)))
  }

  /** The routes of tinc-up carry the add command of their family, for supernets and for networks of peers. */
  lemma UpCommands(c: Config, h: Host, ps: seq<Peer>, l: Line)
    requires l.Route?
    ensures l in Script(c, h, ps, true) ==>
              || (exists s | s in c.supernets :: l == Route(Active, if s.family == V4 then c.routeAdd else c.routeAdd6, Print(h, s)))
              || (l.cmd == c.routeAdd && exists p, n | p in ps && n in p.network :: l.subnet == CutWeight(n))
              || (l.cmd == c.routeAdd6 && exists p, n | p in ps && n in p.network6 :: l.subnet == CutWeight(n))
    ensures l in Script(c, h, ps, true) ==>
              l.cmd != "" && ((l.cmd == c.routeAdd && c.vpnIp != "") || (l.cmd == c.routeAdd6 && c.vpnIp6 != ""))
  {
    ScriptRoutes(c, h, ps, true, l);
    if l in Script(c, h, ps, true) && !FromSupernet(c, h, true, l) {
      var p, f, n :| p in ps && n in Networks(p, f) && Relevant(c, p) && Routed(c, f, true)
                     && l == Route(MarkOf(c, h, CutWeight(n)), RouteCmd(c, f, true), CutWeight(n));
      assert f == V4 ==> n in p.network;
      assert f == V6 ==> n in p.network6;
    }
  }

  /** The routes of tinc-down carry the delete command of their family. */
  lemma DownCommands(c: Config, h: Host, ps: seq<Peer>, l: Line)
    requires l.Route?
    ensures l in Script(c, h, ps, false) ==>
              || (exists s | s in c.supernets :: l == Route(Active, if s.family == V4 then c.routeDel else c.routeDel6, Print(h, s)))
              || (l.cmd == c.routeDel && exists p, n | p in ps && n in p.network :: l.subnet == CutWeight(n))
              || (l.cmd == c.routeDel6 && exists p, n | p in ps && n in p.network6 :: l.subnet == CutWeight(n))
    ensures l in Script(c, h, ps, false) ==>
              l.cmd != "" && ((l.cmd == c.routeDel && c.vpnIp != "") || (l.cmd == c.routeDel6 && c.vpnIp6 != ""))
  {
    ScriptRoutes(c, h, ps, false, l);
    if l in Script(c, h, ps, false) && !FromSupernet(c, h, false, l) {
      var p, f, n :| p in ps && n in Networks(p, f) && Relevant(c, p) && Routed(c, f, false)
                     && l == Route(MarkOf(c, h, CutWeight(n)), RouteCmd(c, f, false), CutWeight(n));
      assert f == V4 ==> n in p.network;
      assert f == V6 ==> n in p.network6;
    }
  }

  /** Running tinc-up adds the subnets of its active lines, running tinc-down takes those of its active lines away. */
  lemma ScriptsRun(c: Config, h: Host, effect: string -> Effect, ps: seq<Peer>, table: set<Option<Subnet>>)
    requires CommandsWork(c, effect)
    ensures var up, down := Script(c, h, ps, true), Script(c, h, ps, false);
            && Execute(h, effect, up, table) == table + ActiveKeys(h, up)
            && Execute(h, effect, down, table) == table - ActiveKeys(h, down)
  {
    var up, down := Script(c, h, ps, true), Script(c, h, ps, false);
    forall l | l in up && l.Route? && l.mark == Active ensures effect(l.cmd) == Adds {
      UpCommands(c, h, ps, l);
    }
    forall l | l in down && l.Route? && l.mark == Active ensures effect(l.cmd) == Deletes {
      DownCommands(c, h, ps, l);
    }
    ExecuteAdds(h, effect, up, table);
    ExecuteDeletes(h, effect, down, table);
  }

  /**
    * After tinc-up has run, every address of a relevant peer's network that the lists do not drop is routed, through the
    * network itself or through the supernet it was merged into, whatever the table held before.
    */
  lemma RoutingPreserved(c: Config, h: Host, effect: string -> Effect, ps: seq<Peer>, table: set<Option<Subnet>>,
                         p: Peer, f: Family, n: string, v: int)
    requires Sized(h) && Inverse(h) && NoWeights(h) && CommandsWork(c, effect)
    requires AllCanonical(c.supernets) && PeersValid(h, ps) && !c.useDynamicRoutes
    requires p in ps && Relevant(c, p) && n in Networks(p, f) && !Dropped(c, h, n)
    requires if f == V4 then c.vpnIp != "" && c.routeAdd != "" else c.vpnIp6 != "" && c.routeAdd6 != ""
    ensures Parse(h, n).Some? && Canonical(Parse(h, n).value) && Parse(h, n).value.family == f
    ensures InNet(Parse(h, n).value, v) ==> Covered(Execute(h, effect, Script(c, h, ps, true), table), f, v)
  {
    assert PeerValid(h, p);
    assert ValidSubnet(h, n, f);
    var q := Parse(h, n).value;
    ParseCanonical(h, n);
    ParsedHasNoWeight(h, n);
    var l := Route(MarkOf(c, h, n), RouteCmd(c, f, true), n);
    assert FromPeers(c, h, ps, true, l);
    ScriptRoutes(c, h, ps, true, l);
    if InNet(q, v) {
      if l.mark == Merged {
        MergedCovered(c, h, effect, ps, table, q, v);
      } else {
        LineCovers(c, h, effect, ps, table, l, q, v);
      }
    }
  }

  /** The supernet a network is merged into is of its family, is printed, and reads back as itself. */
  lemma MergedCovered(c: Config, h: Host, effect: string -> Effect, ps: seq<Peer>, table: set<Option<Subnet>>, q: Subnet, v: int)
    requires Inverse(h) && CommandsWork(c, effect)
    requires AllCanonical(c.supernets) && Canonical(q) && Routed(c, q.family, true)
    requires Matches(c.supernets, q) && InNet(q, v)
    ensures Covered(Execute(h, effect, Script(c, h, ps, true), table), q.family, v)
  {
    MatchSound(c.supernets, q);
    var s := c.supernets[MatchIndex(c.supernets, q)];
    TextRoundTrip(h, s);
    var l := Route(Active, RouteCmd(c, s.family, true), Print(h, s));
    assert FromSupernet(c, h, true, l);
    ScriptRoutes(c, h, ps, true, l);
    LineCovers(c, h, effect, ps, table, l, s, v);
  }

  lemma LineCovers(c: Config, h: Host, effect: string -> Effect, ps: seq<Peer>, table: set<Option<Subnet>>, l: Line, s: Subnet, v: int)
    requires CommandsWork(c, effect) && l.Route? && l.mark == Active
    requires Parse(h, l.subnet) == Some(s) && s.shift <= BitCount(s.family) && InNet(s, v)
    ensures l in Script(c, h, ps, true) ==> Covered(Execute(h, effect, Script(c, h, ps, true), table), s.family, v)
  {
    if l in Script(c, h, ps, true) {
      ScriptsRun(c, h, effect, ps, table);
      ActiveKeysIn(h, Script(c, h, ps, true), l);
    }
  }

  /** Conversely, an active line is a configured supernet or an unmerged, undropped network of a relevant peer. */
  lemma ActiveLinesJustified(c: Config, h: Host, ps: seq<Peer>, up: bool, l: Line)
    requires l.Route? && l.mark == Active
    ensures l in Script(c, h, ps, up) ==>
            (exists s | s in c.supernets :: l.subnet == Print(h, s))
            || (!c.useDynamicRoutes && exists p, f, n | p in ps && n in Networks(p, f) ::
                  Relevant(c, p) && Routed(c, f, up) && l.subnet == CutWeight(n)
                  && !MatchesText(h, c.supernets, l.subnet) && !Dropped(c, h, l.subnet))
  {
    ScriptRoutes(c, h, ps, up, l);
  }

  /** Peers are excluded whatever the case of their names, and numbers among the settings exclude nobody. */
  lemma ExcludedIgnoresCase(c: Config, name: string, other: string)
    requires EqFold(name, other)
    ensures Excluded(c, name) <==> Excluded(c, other)
    ensures c.exclude.Some? && Text(name) in c.exclude.value ==> Excluded(c, other)
    ensures Excluded(c, name) ==> c.exclude.Some? && exists x | x in c.exclude.value :: x.Text? && |x.s| == |name|
  {
    if c.exclude.Some? {
      forall s, t, u | EqFold(s, t) && EqFold(t, u) ensures EqFold(s, u) && EqFold(t, s) {
      }
      assert EqFold(other, name) && EqFold(name, name);
    }
  }

  /** A weight is whatever stands behind the first #. */
  lemma CutWeightIs(a: string, w: string)
    requires '#' !in a
    ensures CutWeight(a) == a && CutWeight(a + "#" + w) == a
  {
    assert a + "#" + w == a + ['#'] + w;
    SplitAtFirst(a, '#', w);
  }

  /** tinc-up configures the interface for exactly the families that have both a command and an address. */
  lemma InterfaceLines(c: Config)
    ensures c.vpnIp == "" && c.vpnIp6 == "" ==> Interface(c) == [Plain("\n")]
    ensures c.vpnIp == "" && c.ifconfig6 != "" && c.vpnIp6 != "" ==> Interface(c) == [Plain(c.ifconfig6 + "\n"), Plain("\n")]
    ensures c.ifconfig != "" && c.vpnIp != "" && c.ifconfig6 == "" ==> Interface(c) == [Plain(c.ifconfig + "\n"), Plain("\n")]
    ensures c.ifconfig != "" && c.vpnIp != "" && c.ifconfig6 != "" && c.vpnIp6 != "" ==>
              Interface(c) == [Plain(c.ifconfig + "\n"), Plain(c.ifconfig6 + "\n"), Plain("\n")]
    ensures c.ifconfig == "" && c.ifconfig6 == "" ==> Interface(c) == [Plain("\n")]
  {
  }

  /** With one other peer, one network and nothing on the lists, the scripts are these. */
  lemma SmallScripts(c: Config, h: Host, me: Peer, p: Peer, n: string)
    requires me.name == c.peerId && p.name != c.peerId && c.exclude.None? && !c.useDynamicRoutes
    requires c.supernets == [] && c.ignored == [] && c.whitelist == []
    requires c.ifconfig != "" && c.vpnIp != "" && c.vpnIp6 == "" && c.routeAdd != "" && c.routeDel != "" && c.postUp != ""
    requires p.network == [n] && '#' !in n
    ensures Script(c, h, [me, p], true) ==
            [Plain("#!/bin/sh\n"), Plain(TITLE), Plain(c.ifconfig + "\n"), Plain("\n"),
             Plain("# node: " + p.name + "\n"), Route(Active, c.routeAdd, n),
             Plain("\n"), Plain(LOCAL_CALL), Plain("\n"), Plain(c.postUp + "\n"), Plain("\nexit 0\n\n")]
    ensures Script(c, h, [me, p], false) ==
            [Plain("#!/bin/sh\n"), Plain(TITLE),
             Plain("# node: " + p.name + "\n"), Route(Active, c.routeDel, n),
             Plain("\n"), Plain(LOCAL_CALL), Plain("\n"), Plain("\nexit 0\n\n")]
  {
    assert [me, p][1..] == [p] && [p][1..] == [] && [n][1..] == [];
    forall up ensures AllPeerRoutes(c, h, [me, p], up) == PeerRoutes(c, h, p, up) {
      assert AllPeerRoutes(c, h, [p], up) == PeerRoutes(c, h, p, up) + AllPeerRoutes(c, h, [], up);
    }
    SmallPeer(c, h, p, n, true);
    SmallPeer(c, h, p, n, false);
  }

  lemma SmallPeer(c: Config, h: Host, p: Peer, n: string, up: bool)
    requires p.name != c.peerId && c.exclude.None? && c.supernets == [] && c.ignored == [] && c.whitelist == []
    requires c.vpnIp != "" && c.vpnIp6 == "" && c.routeAdd != "" && c.routeDel != "" && p.network == [n] && '#' !in n
    ensures PeerRoutes(c, h, p, up) ==
            [Plain("# node: " + p.name + "\n"), Route(Active, if up then c.routeAdd else c.routeDel, n)]
  {
    assert [n][1..] == [];
    assert CutWeight(n) == n;
    assert MarkOf(c, h, n) == Active;
    var cmd := RouteCmd(c, V4, up);
    assert NetworkRoutes(c, h, cmd, [n]) == [Route(Active, cmd, n)] + NetworkRoutes(c, h, cmd, []);
  }

  // ----- tinc-up and tinc-down

  /** The routes of a script with their marks, in order. */
  function RoutesOf(ls: seq<Line>): seq<(Mark, string)> {
    if ls == [] then []
    else if ls[0].Route? then [(ls[0].mark, ls[0].subnet)] + RoutesOf(ls[1..])
    else RoutesOf(ls[1..])
  }

  lemma {:induction false} RoutesOfAppend(a: seq<Line>, b: seq<Line>)
    ensures RoutesOf(a + b) == RoutesOf(a) + RoutesOf(b)
  {
    if a == [] {
      assert a + b == b;
    } else {
      assert (a + b)[1..] == a[1..] + b;
      RoutesOfAppend(a[1..], b);
    }
  }

  lemma {:induction false} PlainHasNoRoutes(ls: seq<Line>)
    requires forall i | 0 <= i < |ls| :: ls[i].Plain?
    ensures RoutesOf(ls) == []
  {
    if ls != [] {
      PlainHasNoRoutes(ls[1..]);
    }
  }

  /** Add and delete commands come in pairs, for every family with a VPN address. */
  predicate Paired(c: Config) {
    && (c.vpnIp != "" ==> (c.routeAdd != "" <==> c.routeDel != ""))
    && (c.vpnIp6 != "" ==> (c.routeAdd6 != "" <==> c.routeDel6 != ""))
  }

  lemma {:induction false} NetworkRoutesSame(c: Config, h: Host, x: string, y: string, ns: seq<string>)
    ensures RoutesOf(NetworkRoutes(c, h, x, ns)) == RoutesOf(NetworkRoutes(c, h, y, ns))
  {
    if ns != [] {
      NetworkRoutesSame(c, h, x, y, ns[1..]);
      assert NetworkRoutes(c, h, x, ns)[1..] == NetworkRoutes(c, h, x, ns[1..]);
      assert NetworkRoutes(c, h, y, ns)[1..] == NetworkRoutes(c, h, y, ns[1..]);
    }
  }

  lemma PeerRoutesSame(c: Config, h: Host, p: Peer)
    requires Paired(c)
    ensures RoutesOf(PeerRoutes(c, h, p, true)) == RoutesOf(PeerRoutes(c, h, p, false))
  {
    NetworkRoutesSame(c, h, c.routeAdd, c.routeDel, p.network);
    NetworkRoutesSame(c, h, c.routeAdd6, c.routeDel6, p.network6);
    if Relevant(c, p) {
      var top := [Plain("# node: " + p.name + "\n")];
      RoutesOfAppend(top, FamilyRoutes(c, h, p.network, V4, true));
      RoutesOfAppend(top + FamilyRoutes(c, h, p.network, V4, true), FamilyRoutes(c, h, p.network6, V6, true));
      RoutesOfAppend(top, FamilyRoutes(c, h, p.network, V4, false));
      RoutesOfAppend(top + FamilyRoutes(c, h, p.network, V4, false), FamilyRoutes(c, h, p.network6, V6, false));
    }
  }

  lemma {:induction false} AllPeerRoutesSame(c: Config, h: Host, ps: seq<Peer>)
    requires Paired(c)
    ensures RoutesOf(AllPeerRoutes(c, h, ps, true)) == RoutesOf(AllPeerRoutes(c, h, ps, false))
  {
    if ps != [] {
      PeerRoutesSame(c, h, ps[0]);
      AllPeerRoutesSame(c, h, ps[1..]);
      RoutesOfAppend(PeerRoutes(c, h, ps[0], true), AllPeerRoutes(c, h, ps[1..], true));
      RoutesOfAppend(PeerRoutes(c, h, ps[0], false), AllPeerRoutes(c, h, ps[1..], false));
    }
  }

  lemma {:induction false} SupernetRoutesSame(c: Config, h: Host, nets: seq<Subnet>)
    requires Paired(c)
    ensures RoutesOf(SupernetRoutes(c, h, nets, true)) == RoutesOf(SupernetRoutes(c, h, nets, false))
  {
    if nets != [] {
      SupernetRoutesSame(c, h, nets[1..]);
      SupernetRoutesHead(c, h, nets, true);
      SupernetRoutesHead(c, h, nets, false);
    }
  }

  lemma SupernetRoutesHead(c: Config, h: Host, nets: seq<Subnet>, up: bool)
    requires nets != []
    ensures RoutesOf(SupernetRoutes(c, h, nets, up)) ==
            (if Routed(c, nets[0].family, up) then [(Active, Print(h, nets[0]))] else [])
            + RoutesOf(SupernetRoutes(c, h, nets[1..], up))
  {
    var f := nets[0].family;
    var a := if Routed(c, f, up) then [Route(Active, RouteCmd(c, f, up), Print(h, nets[0]))] else [];
    RoutesOfAppend(a, SupernetRoutes(c, h, nets[1..], up));
    assert a != [] ==> a[1..] == [];
  }

  lemma MergeRoutes(c: Config, h: Host, up: bool)
    ensures RoutesOf(Merge(c, h, up)) == RoutesOf(SupernetRoutes(c, h, c.supernets, up))
  {
    if c.supernets != [] {
      var a, b, d := [Plain("# Mergeroute Supernets\n")], SupernetRoutes(c, h, c.supernets, up), [Plain("\n")];
      RoutesOfAppend(a, b);
      RoutesOfAppend(a + b, d);
      PlainHasNoRoutes(a);
      PlainHasNoRoutes(d);
    }
  }

  lemma RoutesInside(a: seq<Line>, b: seq<Line>, r: seq<Line>, d: seq<Line>)
    requires RoutesOf(a) == [] && RoutesOf(d) == []
    ensures RoutesOf(a + b + r + d) == RoutesOf(b) + RoutesOf(r)
  {
    RoutesOfAppend(a, b);
    RoutesOfAppend(a + b, r);
    RoutesOfAppend(a + b + r, d);
  }

  lemma FrameHasNoRoutes(c: Config, up: bool)
    ensures RoutesOf(Head(c, up)) == [] && RoutesOf(Foot(c, up)) == []
  {
    PlainHasNoRoutes(Head(c, up));
    PlainHasNoRoutes(Foot(c, up));
  }

  /** What the routes of a script are made of. */
  lemma RoutesOfScript(c: Config, h: Host, ps: seq<Peer>, up: bool)
    ensures RoutesOf(Script(c, h, ps, up)) ==
            RoutesOf(SupernetRoutes(c, h, c.supernets, up))
            + (if c.useDynamicRoutes then [] else RoutesOf(AllPeerRoutes(c, h, ps, up)))
  {
    FrameHasNoRoutes(c, up);
    MergeRoutes(c, h, up);
    RoutesInside(Head(c, up), Merge(c, h, up), Body(c, h, ps, up), Foot(c, up));
  }

  /** tinc-up and tinc-down hold the same sequence of active and commented-out subnets. */
  lemma UpAndDownAgree(c: Config, h: Host, ps: seq<Peer>)
    requires Paired(c)
    ensures RoutesOf(Script(c, h, ps, true)) == RoutesOf(Script(c, h, ps, false))
  {
    RoutesOfScript(c, h, ps, true);
    RoutesOfScript(c, h, ps, false);
    SupernetRoutesSame(c, h, c.supernets);
    AllPeerRoutesSame(c, h, ps);
  }

  /** The active subnets only depend on the routes and their marks. */
  lemma {:induction false} ActiveKeysOfRoutes(h: Host, a: seq<Line>, b: seq<Line>)
    requires RoutesOf(a) == RoutesOf(b)
    ensures ActiveKeys(h, a) == ActiveKeys(h, b)
    decreases |a| + |b|
  {
    if a != [] && a[0].Plain? {
      ActiveKeysOfRoutes(h, a[1..], b);
    } else if b != [] && b[0].Plain? {
      ActiveKeysOfRoutes(h, a, b[1..]);
    } else if a != [] && b != [] {
      assert RoutesOf(a)[0] == RoutesOf(b)[0] && RoutesOf(a)[1..] == RoutesOf(b)[1..];
      ActiveKeysOfRoutes(h, a[1..], b[1..]);
    }
  }

  /** tinc-up followed by tinc-down restores the table exactly when it held none of the routes before. */
  lemma DownUndoesUp(c: Config, h: Host, effect: string -> Effect, ps: seq<Peer>, table: set<Option<Subnet>>)
    requires Paired(c) && CommandsWork(c, effect)
    ensures var up, down := Script(c, h, ps, true), Script(c, h, ps, false);
            Execute(h, effect, down, Execute(h, effect, up, table)) == table <==> table !! ActiveKeys(h, up)
  {
    var up, down := Script(c, h, ps, true), Script(c, h, ps, false);
    var a := ActiveKeys(h, up);
    UpAndDownAgree(c, h, ps);
    ActiveKeysOfRoutes(h, up, down);
    ScriptsRun(c, h, effect, ps, table);
    ScriptsRun(c, h, effect, ps, table + a);
    assert table + a - a == table - a;
  }
}
