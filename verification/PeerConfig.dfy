/** parser.c: the line state machine that reads the central configuration into a peer list. */
module PeerConfig {
  import opened Options
  import opened CStr
  import opened Keywords
  import opened Subnets

  const DEFAULT_PORT: nat := 665

  datatype Peer = Peer(
    name: string, gatewayHost: string, owner: string,
    network: seq<string>, network6: seq<string>, routeNetwork: seq<string>, routeNetwork6: seq<string>,
    hidden: bool, silent: bool, port: nat, key: string, ed25519: string,
    cipher: string, compression: string, digest: string,
    primary: bool, useTcpOnly: bool, indirectData: bool)

  /** parser_create_config. */
  function NewPeer(name: string): Peer {
    Peer(name, "", "", [], [], [], [], false, false, DEFAULT_PORT, "", "", "", "", "", false, false, false)
  }

  // ----- text helpers

  /** str_trim. */
  function TrimLeft(s: string): string {
    if s != [] && IsSpace(s[0]) then TrimLeft(s[1..]) else s
  }

  function TrimRight(s: string): string {
    if s != [] && IsSpace(s[|s| - 1]) then TrimRight(s[..|s| - 1]) else s
  }

  function Trim(s: string): string { TrimRight(TrimLeft(s)) }

  /** str_is_true. */
  function IsTrue(s: string, def: bool): bool {
    if s == "0" || EqFold(s, "no") then false
    else if s == "1" || EqFold(s, "yes") then true
    else def
  }

  const ULONG_MAX: nat := 0xFFFF_FFFF_FFFF_FFFF

  function HexDigit(c: char): int {
    if IsDigit(c) then c as int - '0' as int
    else if 'a' <= c <= 'f' then c as int - 'a' as int + 10
    else if 'A' <= c <= 'F' then c as int - 'A' as int + 10
    else 99
  }

  /** The value of the longest prefix of digits below the base, on top of acc. */
  function Digits(s: string, base: nat, acc: nat): nat {
    if s != [] && HexDigit(s[0]) < base then Digits(s[1..], base, acc * base + HexDigit(s[0])) else acc
  }

  /** strtoul in base 0, saturating at ULONG_MAX; a minus sign negates modulo 2^64. */
  function Strtoul(s: string): nat {
    var t := TrimLeft(s);
    var neg := t != [] && t[0] == '-';
    var u := if t != [] && (t[0] == '-' || t[0] == '+') then t[1..] else t;
    var v :=
      if |u| > 2 && u[0] == '0' && (u[1] == 'x' || u[1] == 'X') && HexDigit(u[2]) < 16 then Digits(u[2..], 16, 0)
      else if u != [] && u[0] == '0' then Digits(u, 8, 0)
      else Digits(u, 10, 0);
    if v > ULONG_MAX then ULONG_MAX
    else if neg && v > 0 then ULONG_MAX + 1 - v
    else v
  }

  // ----- one line

  /** The rest of a line behind its keyword. */
  function Item(line: string, k: Keyword): string
    requires Has(line, k)
  {
    line[|Text(k)|..]
  }

  /** list_add_tail behind addrmask_verify_subnet: an invalid text is reported and left out. */
  function AddSubnet(h: Host, texts: seq<string>, item: string, f: Family): seq<string> {
    if ValidSubnet(h, item, f) then texts + [item] else texts
  }

  /** What a keyword does to the peer under construction; the second result is the new parse_key_mode. */
  function Apply(h: Host, p: Peer, keyMode: bool, line: string, k: Keyword): (Peer, bool)
    requires Has(line, k)
  {
    var item := Item(line, k);
    match k
    case GatewayHost => (p.(gatewayHost := item), keyMode)
    case Owner => (p.(owner := item), keyMode)
    case UseTcpOnly => (p.(useTcpOnly := IsTrue(item, false)), keyMode)
    case Network => (p.(network := AddSubnet(h, p.network, item, V4)), keyMode)
    case Network6 => (p.(network6 := AddSubnet(h, p.network6, item, V6)), keyMode)
    case RouteNetwork => (p.(routeNetwork := AddSubnet(h, p.routeNetwork, item, V4)), keyMode)
    case RouteNetwork6 => (p.(routeNetwork6 := AddSubnet(h, p.routeNetwork6, item, V6)), keyMode)
    case Hidden => (p.(hidden := IsTrue(item, false)), keyMode)
    case Silent => (p.(silent := IsTrue(item, false)), keyMode)
    case Port => (if Strtoul(item) != ULONG_MAX then p.(port := Strtoul(item) % 65536) else p, keyMode)
    case IndirectData => (p.(indirectData := IsTrue(item, false)), keyMode)
    case Cipher => (p.(cipher := item), keyMode)
    case Compression => (p.(compression := item), keyMode)
    case Digest => (p.(digest := item), keyMode)
    case Primary => (p.(primary := IsTrue(item, false)), keyMode)
    case Ed25519 => (p.(ed25519 := item), keyMode)
    case PingTest => (p, keyMode)
    case BeginKey => (p.(key := line + "\n"), true)
    case EndKey => (p.(key := p.key + line + "\n"), false)
  }

  /** A line without a keyword extends the key inside a key block and is reported elsewhere. */
  function ApplyLine(h: Host, p: Peer, keyMode: bool, line: string): (Peer, bool) {
    match Dispatch(line)
    case Some(k) => Apply(h, p, keyMode, line, k)
    case None => (if keyMode then p.(key := p.key + line + "\n") else p, keyMode)
  }

  /** The parser's state: the finished peers, the open section's peer if there is one, and parse_key_mode. */
  datatype State = State(done: seq<Peer>, current: Option<Peer>, keyMode: bool)

  function Peers(st: State): seq<Peer> {
    if st.current.Some? then st.done + [st.current.value] else st.done
  }

  predicate IsHeader(line: string) {
    |line| > 1 && line[0] == '[' && line[|line| - 1] == ']'
  }

  /** parser_parse_line on a trimmed line. */
  function StepTrimmed(h: Host, st: State, line: string): State {
    if IsHeader(line) then State(Peers(st), Some(NewPeer(line[1..|line| - 1])), false)
    else if st.current.None? then st
    else
      var (p, keyMode) := ApplyLine(h, st.current.value, st.keyMode, line);
      State(st.done, Some(p), keyMode)
  }

  /** One line of the text: comment lines are skipped, others trimmed and parsed. */
  function Step(h: Host, st: State, line: string): State {
    if line != [] && line[0] == '#' then st else StepTrimmed(h, st, Trim(line))
  }

  function Stepper(h: Host): (State, string) -> State { (st: State, line: string) => Step(h, st, line) }

  function Fold(step: (State, string) -> State, st: State, lines: seq<string>): State
    decreases |lines|
  {
    if lines == [] then st else Fold(step, step(st, lines[0]), lines[1..])
  }

  function Run(h: Host, st: State, lines: seq<string>): State { Fold(Stepper(h), st, lines) }

  /** Length of the first line. */
  function LineLength(s: string): (n: nat)
    ensures n <= |s| && (n < |s| ==> s[n] == '\n')
    ensures forall i | 0 <= i < n :: s[i] != '\n'
  {
    if s == [] || s[0] == '\n' then 0 else 1 + LineLength(s[1..])
  }

  /** The non-empty lines of a text: what strtok_r yields with newline as the separator. */
  function Lines(s: string): seq<string>
    decreases |s|
  {
    if s == [] then []
    else if s[0] == '\n' then Lines(s[1..])
    else [s[..LineLength(s)]] + Lines(s[LineLength(s)..])
  }

  function Fresh(peers: seq<Peer>): State { State(peers, None, false) }

  /** parser_parse_config on a list that already holds some peers. */
  function ParseOnto(h: Host, peers: seq<Peer>, text: string): seq<Peer> {
    Peers(Run(h, Fresh(peers), Lines(text)))
  }

  function ParseText(h: Host, text: string): seq<Peer> { ParseOnto(h, [], text) }

  // ----- the code

  /** strtok_r: the next non-empty line and what is left behind it. */
  method NextToken(s: string) returns (token: Option<string>, rest: string)
    ensures Lines(s) == if token.None? then [] else [token.value] + Lines(rest)
    ensures token.Some? ==> token.value != [] && |rest| < |s|
  {
    var i := 0;
    assert s[0..] == s;
    while i < |s| && s[i] == '\n'
      invariant 0 <= i <= |s| && Lines(s) == Lines(s[i..])
    {
      assert s[i..][1..] == s[i + 1..];
      i := i + 1;
    }
    if i == |s| {
      return None, "";
    }
    var j := i;
    while j < |s| && s[j] != '\n'
      invariant i <= j <= |s|
      invariant forall k | i <= k < j :: s[k] != '\n'
      decreases |s| - j
    {
      j := j + 1;
    }
    LineLengthIs(s[i..], j - i);
    assert s[i..][..j - i] == s[i..j] && s[i..][j - i..] == s[j..];
    return Some(s[i..j]), s[j..];
  }

  lemma {:induction false} LineLengthIs(s: string, n: nat)
    requires n <= |s| && (n < |s| ==> s[n] == '\n') && forall i | 0 <= i < n :: s[i] != '\n'
    ensures LineLength(s) == n
  {
    if n > 0 {
      LineLengthIs(s[1..], n - 1);
    }
  }

  /** The statics of parser.c together with the list being built; my_config points at its last entry. */
  class Parser {
    var configList: seq<Peer>
    var open: bool
    var keyMode: bool

    ghost predicate Valid()
      reads this
    {
      open ==> configList != []
    }

    ghost function View(): State
      requires Valid()
      reads this
    {
      var n := |configList| - 1;
      if open then State(configList[..n], Some(configList[n]), keyMode) else State(configList, None, keyMode)
    }

    constructor (peers: seq<Peer>)
      ensures Valid() && configList == peers && View() == Fresh(peers)
    {
      configList, open, keyMode := peers, false, false;
    }

    /** parser_parse_line. */
    method ParseLine(h: Host, rawLine: string)
      requires Valid()
      modifies this
      ensures Valid() && View() == StepTrimmed(h, old(View()), Trim(rawLine))
    {
      var line := Trim(rawLine);
      if IsHeader(line) {
        keyMode := false;
        var item := line[1..|line| - 1];
        configList := configList + [NewPeer(item)];
        open := true;
      } else if !open {
        return;
      } else {
        var n := |configList| - 1;
        var peer := configList[n];
        var k := Dispatch(line);
        if k.Some? {
          var (changed, mode) := Apply(h, peer, keyMode, line, k.value);
          peer := changed;
          keyMode := mode;
        } else if keyMode {
          peer := peer.(key := peer.key + line + "\n");
        }
        configList := configList[..n] + [peer];
      }
    }

    /** parser_parse_config. */
    method ParseConfig(h: Host, data: string)
      modifies this
      ensures configList == ParseOnto(h, old(configList), data)
    {
      open := false;
      keyMode := false;
      ghost var all := Run(h, Fresh(configList), Lines(data));
      var token, rest := NextToken(data);
      while token.Some?
        invariant Valid()
        invariant all == Run(h, View(), if token.None? then [] else [token.value] + Lines(rest))
        invariant token.Some? ==> token.value != []
        decreases token.Some?, |rest|
      {
        if token.value[0] != '#' {
          ParseLine(h, token.value);
        }
        assert ([token.value] + Lines(rest))[1..] == Lines(rest);
        token, rest := NextToken(rest);
      }
    }
  }

  // ----- every stored subnet is valid

  ghost predicate AllValid(h: Host, texts: seq<string>, f: Family) {
    forall i | 0 <= i < |texts| :: ValidSubnet(h, texts[i], f)
  }

  /** The four subnet lists of a peer hold valid subnets of their own family only. */
  ghost predicate PeerValid(h: Host, p: Peer) {
    && AllValid(h, p.network, V4) && AllValid(h, p.routeNetwork, V4)
    && AllValid(h, p.network6, V6) && AllValid(h, p.routeNetwork6, V6)
  }

  ghost predicate PeersValid(h: Host, peers: seq<Peer>) {
    forall i | 0 <= i < |peers| :: PeerValid(h, peers[i])
  }

  lemma AddKeepsValid(h: Host, texts: seq<string>, item: string, f: Family)
    requires AllValid(h, texts, f)
    ensures AllValid(h, AddSubnet(h, texts, item, f), f)
  {
  }

  lemma ApplyKeepsValid(h: Host, p: Peer, keyMode: bool, line: string, k: Keyword)
    requires PeerValid(h, p) && Has(line, k)
    ensures PeerValid(h, Apply(h, p, keyMode, line, k).0)
  {
    var item := Item(line, k);
    match k
    case Network => AddKeepsValid(h, p.network, item, V4);
    case Network6 => AddKeepsValid(h, p.network6, item, V6);
    case RouteNetwork => AddKeepsValid(h, p.routeNetwork, item, V4);
    case RouteNetwork6 => AddKeepsValid(h, p.routeNetwork6, item, V6);
    case _ => assert Apply(h, p, keyMode, line, k).0.network == p.network;
  }

  lemma ApplyLineKeepsValid(h: Host, p: Peer, keyMode: bool, line: string)
    requires PeerValid(h, p)
    ensures PeerValid(h, ApplyLine(h, p, keyMode, line).0)
  {
    match Dispatch(line)
    case Some(k) => ApplyKeepsValid(h, p, keyMode, line, k);
    case None =>
  }

  lemma StepKeepsValid(h: Host, st: State, line: string)
    requires PeersValid(h, Peers(st))
    ensures PeersValid(h, Peers(Step(h, st, line)))
  {
    if st.current.Some? {
      assert Peers(st)[|st.done|] == st.current.value;
      assert forall i | 0 <= i < |st.done| :: Peers(st)[i] == st.done[i];
      ApplyLineKeepsValid(h, st.current.value, st.keyMode, Trim(line));
    }
  }

  lemma {:induction false} RunKeepsValid(h: Host, st: State, lines: seq<string>)
    requires PeersValid(h, Peers(st))
    ensures PeersValid(h, Peers(Run(h, st, lines)))
    decreases |lines|
  {
    if lines != [] {
      StepKeepsValid(h, st, lines[0]);
      RunKeepsValid(h, Step(h, st, lines[0]), lines[1..]);
    }
  }

  /** Whatever the text, no invalid subnet and no subnet of the other family is ever stored. */
  lemma StoredSubnetsValid(h: Host, peers: seq<Peer>, text: string)
    requires PeersValid(h, peers)
    ensures PeersValid(h, ParseOnto(h, peers, text))
  {
    RunKeepsValid(h, Fresh(peers), Lines(text));
  }

  // ----- sections parse independently

  lemma {:induction false} FoldAppend(step: (State, string) -> State, st: State, a: seq<string>, b: seq<string>)
    ensures Fold(step, st, a + b) == Fold(step, Fold(step, st, a), b)
    decreases |a|
  {
    if a == [] {
      assert a + b == b;
    } else {
      assert (a + b)[1..] == a[1..] + b;
      FoldAppend(step, step(st, a[0]), a[1..], b);
    }
  }

  function Onto(ps: seq<Peer>, st: State): State { st.(done := ps + st.done) }

  /** Once a section is open, the peers before it play no role. */
  lemma {:induction false} RunOnto(h: Host, ps: seq<Peer>, st: State, lines: seq<string>)
    requires st.current.Some?
    ensures Run(h, Onto(ps, st), lines) == Onto(ps, Run(h, st, lines))
    ensures Run(h, st, lines).current.Some?
    decreases |lines|
  {
    if lines != [] {
      StepOnto(h, ps, st, lines[0]);
      RunOnto(h, ps, Step(h, st, lines[0]), lines[1..]);
    }
  }

  lemma StepOnto(h: Host, ps: seq<Peer>, st: State, line: string)
    requires st.current.Some?
    ensures Step(h, Onto(ps, st), line) == Onto(ps, Step(h, st, line))
    ensures Step(h, st, line).current.Some?
  {
    assert Peers(Onto(ps, st)) == ps + Peers(st);
  }

  predicate StartsSection(lines: seq<string>) {
    lines != [] && lines[0] != [] && lines[0][0] != '#' && IsHeader(Trim(lines[0]))
  }

  /** A section header forgets everything but the list so far. */
  lemma HeaderRestarts(h: Host, st: State, lines: seq<string>)
    requires StartsSection(lines)
    ensures Peers(Run(h, st, lines)) == Peers(st) + Peers(Run(h, Fresh([]), lines))
  {
    var first := Step(h, Fresh([]), lines[0]);
    assert Step(h, st, lines[0]) == Onto(Peers(st), first);
    RunOnto(h, Peers(st), first, lines[1..]);
  }

  /** A line break between two texts keeps their lines apart. */
  lemma {:induction false} LinesAppend(a: string, b: string)
    requires a == [] || a[|a| - 1] == '\n' || b == [] || b[0] == '\n'
    ensures Lines(a + b) == Lines(a) + Lines(b)
    decreases |a|
  {
    if a == [] {
      assert a + b == b;
    } else if a[0] == '\n' {
      assert (a + b)[1..] == a[1..] + b;
      LinesAppend(a[1..], b);
    } else {
      var n := LineLength(a);
      LineLengthIs(a + b, n);
      assert (a + b)[..n] == a[..n] && (a + b)[n..] == a[n..] + b;
      LinesAppend(a[n..], b);
    }
  }

  /** Parsing is a homomorphism at section headers: the peers of two texts are concatenated. */
  lemma ParseSections(h: Host, peers: seq<Peer>, a: string, b: string)
    requires a == [] || a[|a| - 1] == '\n'
    requires StartsSection(Lines(b))
    ensures ParseOnto(h, peers, a + b) == ParseOnto(h, peers, a) + ParseText(h, b)
  {
    LinesAppend(a, b);
    FoldAppend(Stepper(h), Fresh(peers), Lines(a), Lines(b));
    HeaderRestarts(h, Run(h, Fresh(peers), Lines(a)), Lines(b));
  }
}
