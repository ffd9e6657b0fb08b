/** Parsing what the backend prints gives the same peers back. */
module RoundTrip {
  import opened Options
  import opened CStr
  import opened Keywords
  import opened Subnets
  import opened PeerConfig
  import opened Printer

  // ----- well-formed records

  predicate OneLine(s: string) { forall i | 0 <= i < |s| :: s[i] != '\n' }

  /** A value as the backend's own reader leaves it: on one line, trimmed at the end. */
  predicate CleanValue(s: string) {
    OneLine(s) && (s != [] ==> !IsSpace(s[|s| - 1]))
  }

  predicate CleanId(id: string) {
    id != [] && forall i | 0 <= i < |id| ::
      IsDigit(id[i]) || 'a' <= id[i] <= 'z' || 'A' <= id[i] <= 'Z' || id[i] == '_' || id[i] == '-'
  }

  predicate CleanPort(port: string) {
    AllDigits(port) && port != [] && port[0] != '0' && Num(port) < 65536
  }

  /** A line inside a key block: trimmed, and neither a comment, a header nor a keyword line. */
  predicate KeyLine(l: string) {
    && OneLine(l) && l != [] && !IsSpace(l[0]) && !IsSpace(l[|l| - 1])
    && l[0] != '#' && l[0] != '[' && Dispatch(l).None?
  }

  predicate AllSubnets(h: Host, ns: seq<string>, f: Family) {
    forall i | 0 <= i < |ns| :: CleanValue(ns[i]) && ValidSubnet(h, ns[i], f)
  }

  predicate CleanRecord(h: Host, id: string, r: Record) {
    && CleanId(id)
    && CleanValue(r.gatewayHost) && CleanValue(r.ed25519)
    && OneLine(r.pingTest) && OneLine(r.pingTest6)
    && (Truthy(r.port) ==> CleanPort(r.port))
    && AllSubnets(h, r.networks, V4) && AllSubnets(h, r.networks6, V6)
    && (r.keyLines.Some? ==> forall i | 0 <= i < |r.keyLines.value| :: KeyLine(r.keyLines.value[i]))
  }

  /** The peer a record is read back as. */
  function Expected(id: string, r: Record): Peer {
    Peer(
      name := id,
      gatewayHost := if Truthy(r.hidden) then "localhost" else r.gatewayHost,
      owner := "",
      network := r.networks, network6 := r.networks6, routeNetwork := [], routeNetwork6 := [],
      hidden := Truthy(r.hidden), silent := Truthy(r.silent),
      port := if Truthy(r.port) && AllDigits(r.port) then Num(r.port) else 665,
      key := Unlines(KeyLines(r)), ed25519 := r.ed25519,
      cipher := "", compression := "", digest := "",
      primary := Truthy(r.primary), useTcpOnly := Truthy(r.useTcpOnly), indirectData := Truthy(r.indirectData))
  }

  // ----- lines

  predicate PlainLine(l: string) { l != [] && OneLine(l) }

  predicate PlainLines(ls: seq<string>) { forall i | 0 <= i < |ls| :: PlainLine(ls[i]) }

  lemma {:induction false} LinesOfUnlines(ls: seq<string>)
    requires PlainLines(ls)
    ensures Lines(Unlines(ls)) == ls
  {
    if ls != [] {
      var l, tail := ls[0], Unlines(ls[1..]);
      assert PlainLine(l);
      LinesAppend(l, "\n" + tail);
      assert Unlines(ls) == l + ("\n" + tail);
      LineLengthIs(l, |l|);
      assert l[..|l|] == l && l[|l|..] == [];
      assert ("\n" + tail)[1..] == tail;
      LinesOfUnlines(ls[1..]);
    }
  }

  function Flat(blocks: seq<seq<string>>): seq<string> {
    if blocks == [] then [] else Flat(blocks[..|blocks| - 1]) + blocks[|blocks| - 1]
  }

  lemma {:induction false} LinesOfSections(blocks: seq<seq<string>>)
    requires forall i | 0 <= i < |blocks| :: PlainLines(blocks[i])
    ensures Lines(Sections(blocks)) == Flat(blocks)
  {
    if blocks != [] {
      var init, b := blocks[..|blocks| - 1], blocks[|blocks| - 1];
      LinesOfSections(init);
      LinesAppend(Sections(init), "\n" + Unlines(b));
      assert ("\n" + Unlines(b))[1..] == Unlines(b);
      LinesOfUnlines(b);
    }
  }

  // ----- one field line

  /** The state inside a section, outside a key block. */
  function Open(ps: seq<Peer>, p: Peer): State { State(ps, Some(p), false) }

  lemma TrimNothing(s: string)
    requires s != [] && !IsSpace(s[0]) && !IsSpace(s[|s| - 1])
    ensures Trim(s) == s
  {
  }

  /** A written keyword: the parser's text up to case, with nothing for trimming or skipping to bite on. */
  predicate Writes(kw: string, k: Keyword) {
    && EqFold(kw, Text(k)) && kw != []
    && !IsSpace(kw[0]) && !IsSpace(kw[|kw| - 1]) && kw[0] != '#' && kw[0] != '['
  }

  lemma FieldHas(kw: string, v: string, k: Keyword)
    requires Writes(kw, k)
    ensures Has(kw + v, k) && Item(kw + v, k) == v && Dispatch(kw + v) == Some(k)
  {
    assert (kw + v)[..|Text(k)|] == kw;
    DispatchFinds(kw + v, k);
  }

  lemma FieldTrimmed(kw: string, v: string, k: Keyword)
    requires Writes(kw, k) && CleanValue(v)
    ensures Trim(kw + v) == kw + v && !IsHeader(kw + v) && (kw + v)[0] != '#'
  {
    TrimNothing(kw + v);
  }

  /** A keyword line inside a section does what its keyword says. */
  lemma StepKeyword(h: Host, st: State, line: string, k: Keyword)
    requires st.current.Some? && Dispatch(line) == Some(k) && Has(line, k)
    requires line != [] && line[0] != '#' && Trim(line) == line && !IsHeader(line)
    ensures var (q, m) := Apply(h, st.current.value, st.keyMode, line, k);
            Step(h, st, line) == State(st.done, Some(q), m)
  {
  }

  lemma StepField(h: Host, ps: seq<Peer>, p: Peer, kw: string, v: string, k: Keyword)
    requires Writes(kw, k) && CleanValue(v)
    ensures Has(kw + v, k) && Item(kw + v, k) == v
    ensures var (q, m) := Apply(h, p, false, kw + v, k);
            Step(h, Open(ps, p), kw + v) == State(ps, Some(q), m)
  {
    FieldHas(kw, v, k);
    FieldTrimmed(kw, v, k);
    StepKeyword(h, Open(ps, p), kw + v, k);
  }

  lemma TakeSnoc(s: seq<string>, i: nat)
    requires i < |s|
    ensures s[..i] + [s[i]] == s[..i + 1]
  {
  }

  lemma FoldOne(step: (State, string) -> State, s: State, line: string)
    ensures Fold(step, s, [line]) == step(s, line)
  {
    assert [line][1..] == [];
  }

  /** One optional field line. */
  lemma RunOpt(h: Host, ps: seq<Peer>, p: Peer, c: bool, kw: string, v: string, k: Keyword, q: Peer)
    requires c ==> Writes(kw, k) && CleanValue(v)
    requires c ==> Has(kw + v, k) ==> Apply(h, p, false, kw + v, k) == (q, false)
    requires !c ==> q == p
    ensures Fold(Stepper(h), Open(ps, p), Opt(c, kw + v)) == Open(ps, q)
  {
    if c {
      StepField(h, ps, p, kw, v, k);
      FoldOne(Stepper(h), Open(ps, p), kw + v);
    }
  }

  lemma FoldTwo(step: (State, string) -> State, s: State, a: seq<string>, t: State, b: seq<string>, u: State)
    requires Fold(step, s, a) == t && Fold(step, t, b) == u
    ensures Fold(step, s, a + b) == u
  {
    FoldAppend(step, s, a, b);
  }

  lemma FoldThree(step: (State, string) -> State, s: State, a: seq<string>, t: State, b: seq<string>, u: State,
                  c: seq<string>, v: State)
    requires Fold(step, s, a) == t && Fold(step, t, b) == u && Fold(step, u, c) == v
    ensures Fold(step, s, a + b + c) == v
  {
    FoldTwo(step, s, a, t, b, u);
    FoldTwo(step, s, a + b, u, c, v);
  }

  // ----- network lists

  /** Folding over the lines of a list passes through the given states. */
  lemma {:induction false} FoldEach(step: (State, string) -> State, kw: string, ns: seq<string>, sts: seq<State>)
    requires |sts| == |ns| + 1
    requires forall i | 0 <= i < |ns| :: step(sts[i], kw + ns[i]) == sts[i + 1]
    ensures Fold(step, sts[0], Each(kw, ns)) == sts[|ns|]
    decreases |ns|
  {
    if ns != [] {
      assert step(sts[0], kw + ns[0]) == sts[1];
      assert Each(kw, ns)[1..] == Each(kw, ns[1..]);
      FoldEach(step, kw, ns[1..], sts[1..]);
    }
  }

  ghost predicate NetworkStep(step: (State, string) -> State, ps: seq<Peer>, p: Peer, kw: string, n: string) {
    step(Open(ps, p), kw + n) == Open(ps, p.(network := p.network + [n]))
  }

  /** What a step must do on the lines of one network list. */
  ghost predicate StepsNetwork(step: (State, string) -> State, ps: seq<Peer>, kw: string, ns: seq<string>) {
    forall p, i | 0 <= i < |ns| :: NetworkStep(step, ps, p, kw, ns[i])
  }

  lemma StepNetwork(h: Host, ps: seq<Peer>, p: Peer, kw: string, n: string)
    requires Writes(kw, Network) && CleanValue(n) && ValidSubnet(h, n, V4)
    ensures NetworkStep(Stepper(h), ps, p, kw, n)
  {
    StepField(h, ps, p, kw, n, Network);
  }

  lemma NetworkSteps(h: Host, ps: seq<Peer>, kw: string, ns: seq<string>)
    requires Writes(kw, Network) && AllSubnets(h, ns, V4)
    ensures StepsNetwork(Stepper(h), ps, kw, ns)
  {
    forall p, i | 0 <= i < |ns| ensures NetworkStep(Stepper(h), ps, p, kw, ns[i]) {
      StepNetwork(h, ps, p, kw, ns[i]);
    }
  }

  /** The lines of a network list append their texts in order. */
  lemma FoldNetworks(step: (State, string) -> State, ps: seq<Peer>, p: Peer, kw: string, ns: seq<string>)
    requires StepsNetwork(step, ps, kw, ns) && p.network == []
    ensures Fold(step, Open(ps, p), Each(kw, ns)) == Open(ps, p.(network := ns))
  {
    var sts := seq(|ns| + 1, i requires 0 <= i <= |ns| => Open(ps, p.(network := ns[..i])));
    forall i | 0 <= i < |ns| ensures step(sts[i], kw + ns[i]) == sts[i + 1] {
      var q := p.(network := ns[..i]);
      assert NetworkStep(step, ps, q, kw, ns[i]);
      TakeSnoc(ns, i);
    }
    FoldEach(step, kw, ns, sts);
    assert ns[..0] == [] && ns[..|ns|] == ns;
  }

  lemma RunNetworks(h: Host, ps: seq<Peer>, p: Peer, kw: string, ns: seq<string>)
    requires Writes(kw, Network) && AllSubnets(h, ns, V4) && p.network == []
    ensures Fold(Stepper(h), Open(ps, p), Each(kw, ns)) == Open(ps, p.(network := ns))
  {
    NetworkSteps(h, ps, kw, ns);
    FoldNetworks(Stepper(h), ps, p, kw, ns);
  }

  ghost predicate Network6Step(step: (State, string) -> State, ps: seq<Peer>, p: Peer, kw: string, n: string) {
    step(Open(ps, p), kw + n) == Open(ps, p.(network6 := p.network6 + [n]))
  }

  /** What a step must do on the lines of one network list. */
  ghost predicate StepsNetwork6(step: (State, string) -> State, ps: seq<Peer>, kw: string, ns: seq<string>) {
    forall p, i | 0 <= i < |ns| :: Network6Step(step, ps, p, kw, ns[i])
  }

  lemma StepNetwork6(h: Host, ps: seq<Peer>, p: Peer, kw: string, n: string)
    requires Writes(kw, Network6) && CleanValue(n) && ValidSubnet(h, n, V6)
    ensures Network6Step(Stepper(h), ps, p, kw, n)
  {
    StepField(h, ps, p, kw, n, Network6);
  }

  lemma Network6Steps(h: Host, ps: seq<Peer>, kw: string, ns: seq<string>)
    requires Writes(kw, Network6) && AllSubnets(h, ns, V6)
    ensures StepsNetwork6(Stepper(h), ps, kw, ns)
  {
    forall p, i | 0 <= i < |ns| ensures Network6Step(Stepper(h), ps, p, kw, ns[i]) {
      StepNetwork6(h, ps, p, kw, ns[i]);
    }
  }

  /** The lines of a network list append their texts in order. */
  lemma FoldNetworks6(step: (State, string) -> State, ps: seq<Peer>, p: Peer, kw: string, ns: seq<string>)
    requires StepsNetwork6(step, ps, kw, ns) && p.network6 == []
    ensures Fold(step, Open(ps, p), Each(kw, ns)) == Open(ps, p.(network6 := ns))
  {
    var sts := seq(|ns| + 1, i requires 0 <= i <= |ns| => Open(ps, p.(network6 := ns[..i])));
    forall i | 0 <= i < |ns| ensures step(sts[i], kw + ns[i]) == sts[i + 1] {
      var q := p.(network6 := ns[..i]);
      assert Network6Step(step, ps, q, kw, ns[i]);
      TakeSnoc(ns, i);
    }
    FoldEach(step, kw, ns, sts);
    assert ns[..0] == [] && ns[..|ns|] == ns;
  }

  lemma RunNetworks6(h: Host, ps: seq<Peer>, p: Peer, kw: string, ns: seq<string>)
    requires Writes(kw, Network6) && AllSubnets(h, ns, V6) && p.network6 == []
    ensures Fold(Stepper(h), Open(ps, p), Each(kw, ns)) == Open(ps, p.(network6 := ns))
  {
    Network6Steps(h, ps, kw, ns);
    FoldNetworks6(Stepper(h), ps, p, kw, ns);
  }

  // ----- flags and ports

  lemma FlagReadBack(s: string)
    ensures IsTrue(Flag(s), false) == Truthy(s) && CleanValue(Flag(s))
  {
  }

  lemma {:induction false} DigitsSnoc(s: string, c: char, acc: nat)
    requires AllDigits(s) && IsDigit(c)
    ensures Digits(s + [c], 10, acc) == 10 * Digits(s, 10, acc) + DigitValue(c)
  {
    if s == [] {
      assert (s + [c])[1..] == [];
    } else {
      assert IsDigit(s[0]) && (s + [c])[1..] == s[1..] + [c];
      DigitsSnoc(s[1..], c, acc * 10 + HexDigit(s[0]));
    }
  }

  lemma {:induction false} DigitsAreNum(s: string)
    requires AllDigits(s)
    ensures Digits(s, 10, 0) == Num(s)
  {
    if s != [] {
      var n := |s| - 1;
      assert s == s[..n] + [s[n]] && IsDigit(s[n]);
      DigitsSnoc(s[..n], s[n], 0);
      DigitsAreNum(s[..n]);
    }
  }

  lemma PortReadBack(port: string)
    requires CleanPort(port)
    ensures Strtoul(port) == Num(port) && CleanValue(port)
  {
    assert IsDigit(port[0]) && IsDigit(port[|port| - 1]);
    DigitsAreNum(port);
    assert TrimLeft(port) == port;
    assert forall i | 0 <= i < |port| :: IsDigit(port[i]);
  }

  // ----- the lines of one peer

  lemma RunHeader(h: Host, st: State, id: string)
    requires CleanId(id)
    ensures Fold(Stepper(h), st, ["[" + id + "]"]) == Open(Peers(st), NewPeer(id))
  {
    var line := "[" + id + "]";
    TrimNothing(line);
    assert line[1..|line| - 1] == id;
    FoldOne(Stepper(h), st, line);
  }

  lemma RunGateway(h: Host, ps: seq<Peer>, p: Peer, r: Record)
    requires CleanValue(r.gatewayHost)
    ensures Fold(Stepper(h), Open(ps, p), [if Truthy(r.hidden) then "gatewayhost=localhost" else "gatewayhost=" + r.gatewayHost])
         == Open(ps, p.(gatewayHost := if Truthy(r.hidden) then "localhost" else r.gatewayHost))
  {
    var v := if Truthy(r.hidden) then "localhost" else r.gatewayHost;
    RunOpt(h, ps, p, true, "gatewayhost=", v, GatewayHost, p.(gatewayHost := v));
    assert "gatewayhost=" + "localhost" == "gatewayhost=localhost";
  }

  lemma RunPort(h: Host, ps: seq<Peer>, p: Peer, r: Record)
    requires p.port == DEFAULT_PORT && (Truthy(r.port) ==> CleanPort(r.port))
    ensures Fold(Stepper(h), Open(ps, p), Opt(Truthy(r.port), "port=" + r.port))
         == Open(ps, p.(port := if Truthy(r.port) && AllDigits(r.port) then Num(r.port) else DEFAULT_PORT))
  {
    if Truthy(r.port) {
      PortReadBack(r.port);
      RunOpt(h, ps, p, true, "port=", r.port, Port, p.(port := Num(r.port)));
    }
  }

  lemma RunPrimary(h: Host, ps: seq<Peer>, p: Peer, s: string)
    requires !p.primary
    ensures Fold(Stepper(h), Open(ps, p), Opt(Truthy(s), "primary=1")) == Open(ps, p.(primary := Truthy(s)))
  {
    RunOpt(h, ps, p, Truthy(s), "primary=", "1", Primary, p.(primary := Truthy(s)));
    assert "primary=" + "1" == "primary=1";
  }

  lemma RunHidden(h: Host, ps: seq<Peer>, p: Peer, s: string)
    ensures Fold(Stepper(h), Open(ps, p), ["hidden=" + Flag(s)]) == Open(ps, p.(hidden := Truthy(s)))
  {
    FlagReadBack(s);
    RunOpt(h, ps, p, true, "hidden=", Flag(s), Hidden, p.(hidden := Truthy(s)));
  }

  lemma RunSilent(h: Host, ps: seq<Peer>, p: Peer, s: string)
    requires !p.silent
    ensures Fold(Stepper(h), Open(ps, p), Opt(Truthy(s), "silent=" + Flag(s))) == Open(ps, p.(silent := Truthy(s)))
  {
    FlagReadBack(s);
    RunOpt(h, ps, p, Truthy(s), "silent=", Flag(s), Silent, p.(silent := Truthy(s)));
  }

  lemma RunTcp(h: Host, ps: seq<Peer>, p: Peer, s: string)
    requires !p.useTcpOnly
    ensures Fold(Stepper(h), Open(ps, p), Opt(Truthy(s), "use-tcp-only=" + Flag(s))) == Open(ps, p.(useTcpOnly := Truthy(s)))
  {
    FlagReadBack(s);
    RunOpt(h, ps, p, Truthy(s), "use-tcp-only=", Flag(s), UseTcpOnly, p.(useTcpOnly := Truthy(s)));
  }

  lemma RunIndirect(h: Host, ps: seq<Peer>, p: Peer, s: string)
    requires !p.indirectData
    ensures Fold(Stepper(h), Open(ps, p), Opt(Truthy(s), "indirectdata=" + Flag(s))) == Open(ps, p.(indirectData := Truthy(s)))
  {
    FlagReadBack(s);
    RunOpt(h, ps, p, Truthy(s), "indirectdata=", Flag(s), IndirectData, p.(indirectData := Truthy(s)));
  }

  lemma RunHeadFirst(h: Host, st: State, id: string, r: Record, e: Peer)
    requires CleanRecord(h, id, r) && e == Expected(id, r)
    ensures Fold(Stepper(h), st, FirstLines(id, r))
         == Open(Peers(st), NewPeer(id).(gatewayHost := e.gatewayHost, port := e.port))
  {
    var ps, p0 := Peers(st), NewPeer(id);
    var p1 := p0.(gatewayHost := e.gatewayHost);
    RunHeader(h, st, id);
    RunGateway(h, ps, p0, r);
    RunPort(h, ps, p1, r);
    FoldThree(Stepper(h), st, ["[" + id + "]"], Open(ps, p0),
              [if Truthy(r.hidden) then "gatewayhost=localhost" else "gatewayhost=" + r.gatewayHost], Open(ps, p1),
              Opt(Truthy(r.port), "port=" + r.port), Open(ps, p1.(port := e.port)));
  }

  lemma RunFlagsFirst(h: Host, ps: seq<Peer>, p: Peer, r: Record)
    requires !p.primary && !p.silent
    ensures Fold(Stepper(h), Open(ps, p), MiddleLines(r))
         == Open(ps, p.(primary := Truthy(r.primary), hidden := Truthy(r.hidden), silent := Truthy(r.silent)))
  {
    var p1 := p.(primary := Truthy(r.primary));
    var p2 := p1.(hidden := Truthy(r.hidden));
    RunPrimary(h, ps, p, r.primary);
    RunHidden(h, ps, p1, r.hidden);
    RunSilent(h, ps, p2, r.silent);
    FoldThree(Stepper(h), Open(ps, p), Opt(Truthy(r.primary), "primary=1"), Open(ps, p1),
              ["hidden=" + Flag(r.hidden)], Open(ps, p2),
              Opt(Truthy(r.silent), "silent=" + Flag(r.silent)), Open(ps, p2.(silent := Truthy(r.silent))));
  }

  lemma RunFlagsLast(h: Host, ps: seq<Peer>, p: Peer, r: Record)
    requires !p.useTcpOnly && !p.indirectData
    ensures Fold(Stepper(h), Open(ps, p), LastLines(r))
         == Open(ps, p.(useTcpOnly := Truthy(r.useTcpOnly), indirectData := Truthy(r.indirectData)))
  {
    var p1 := p.(useTcpOnly := Truthy(r.useTcpOnly));
    RunTcp(h, ps, p, r.useTcpOnly);
    RunIndirect(h, ps, p1, r.indirectData);
    FoldTwo(Stepper(h), Open(ps, p), Opt(Truthy(r.useTcpOnly), "use-tcp-only=" + Flag(r.useTcpOnly)), Open(ps, p1),
            Opt(Truthy(r.indirectData), "indirectdata=" + Flag(r.indirectData)),
            Open(ps, p1.(indirectData := Truthy(r.indirectData))));
  }

  /** Comment lines do nothing. */
  lemma RunComment(h: Host, s: State, c: bool, line: string)
    requires line != [] && line[0] == '#'
    ensures Fold(Stepper(h), s, Opt(c, line)) == s
  {
    if c { FoldOne(Stepper(h), s, line); }
  }

  lemma RunTail(h: Host, ps: seq<Peer>, p: Peer, r: Record)
    requires p.ed25519 == "" && CleanValue(r.ed25519)
    ensures Fold(Stepper(h), Open(ps, p), TailLines(r)) == Open(ps, p.(ed25519 := r.ed25519))
  {
    var s := Open(ps, p);
    RunComment(h, s, r.pingTest != "", "#pingtest=" + r.pingTest);
    RunComment(h, s, r.pingTest6 != "", "#pingtest6=" + r.pingTest6);
    RunEd25519(h, ps, p, r.ed25519);
    FoldThree(Stepper(h), s, Opt(r.pingTest != "", "#pingtest=" + r.pingTest), s,
              Opt(r.pingTest6 != "", "#pingtest6=" + r.pingTest6), s,
              Opt(r.ed25519 != "", "Ed25519PublicKey=" + r.ed25519), Open(ps, p.(ed25519 := r.ed25519)));
  }

  lemma RunEd25519(h: Host, ps: seq<Peer>, p: Peer, v: string)
    requires p.ed25519 == "" && CleanValue(v)
    ensures Fold(Stepper(h), Open(ps, p), Opt(v != "", "Ed25519PublicKey=" + v)) == Open(ps, p.(ed25519 := v))
  {
    RunOpt(h, ps, p, v != "", "Ed25519PublicKey=", v, Ed25519, p.(ed25519 := v));
  }

  // ----- the key block

  function InKey(ps: seq<Peer>, p: Peer): State { State(ps, Some(p), true) }

  /** A line that is exactly one of the two markers. */
  ghost predicate Marks(line: string, k: Keyword) {
    Has(line, k) && Dispatch(line) == Some(k) && line[0] != '#' && Trim(line) == line && !IsHeader(line)
  }

  lemma MarkerLine(k: Keyword)
    requires !IsName(k)
    ensures Text(k) != [] && Marks(Text(k), k)
  {
    var l := Text(k);
    assert Writes(l, k);
    assert l + "" == l;
    FieldHas(l, "", k);
    FieldTrimmed(l, "", k);
  }

  ghost predicate BeginStep(step: (State, string) -> State, ps: seq<Peer>, p: Peer, line: string) {
    step(Open(ps, p), line) == InKey(ps, p.(key := line + "\n"))
  }

  ghost predicate EndStep(step: (State, string) -> State, ps: seq<Peer>, p: Peer, line: string) {
    step(InKey(ps, p), line) == Open(ps, p.(key := p.key + line + "\n"))
  }

  lemma StepBegin(h: Host, ps: seq<Peer>, p: Peer, line: string)
    requires line != [] && Marks(line, BeginKey)
    ensures BeginStep(Stepper(h), ps, p, line)
  {
    StepKeyword(h, Open(ps, p), line, BeginKey);
  }

  lemma StepEnd(h: Host, ps: seq<Peer>, p: Peer, line: string)
    requires line != [] && Marks(line, EndKey)
    ensures EndStep(Stepper(h), ps, p, line)
  {
    StepKeyword(h, InKey(ps, p), line, EndKey);
  }

  ghost predicate KeyStep(step: (State, string) -> State, ps: seq<Peer>, p: Peer, l: string) {
    step(InKey(ps, p), l) == InKey(ps, p.(key := p.key + l + "\n"))
  }

  lemma StepKeyLine(h: Host, ps: seq<Peer>, p: Peer, l: string)
    requires KeyLine(l)
    ensures KeyStep(Stepper(h), ps, p, l)
  {
    TrimNothing(l);
  }

  /** The lines of a block are collected one by one. */
  lemma {:induction false} FoldKey(step: (State, string) -> State, ls: seq<string>, sts: seq<State>)
    requires |sts| == |ls| + 1
    requires forall i | 0 <= i < |ls| :: step(sts[i], ls[i]) == sts[i + 1]
    ensures Fold(step, sts[0], ls) == sts[|ls|]
    decreases |ls|
  {
    if ls != [] {
      assert step(sts[0], ls[0]) == sts[1];
      FoldKey(step, ls[1..], sts[1..]);
    }
  }

  /** A whole key block, for any step that treats its lines as it should. */
  lemma FoldBlock(step: (State, string) -> State, ps: seq<Peer>, p: Peer, b: string, ls: seq<string>, e: string)
    requires BeginStep(step, ps, p, b) && StepsKey(step, ps, ls)
    requires EndStep(step, ps, p.(key := b + "\n" + Unlines(ls)), e)
    ensures Fold(step, Open(ps, p), [b] + ls + [e]) == Open(ps, p.(key := b + "\n" + Unlines(ls) + e + "\n"))
  {
    var begun := b + "\n";
    var block := begun + Unlines(ls);
    FoldOne(step, Open(ps, p), b);
    FoldKeyLines(step, ps, p, ls, begun);
    FoldOne(step, InKey(ps, p.(key := block)), e);
    FoldThree(step, Open(ps, p), [b], InKey(ps, p.(key := begun)), ls, InKey(ps, p.(key := block)),
              [e], Open(ps, p.(key := block + e + "\n")));
  }

  lemma RunKey(h: Host, ps: seq<Peer>, p: Peer, r: Record)
    requires p.key == ""
    requires r.keyLines.Some? ==> forall i | 0 <= i < |r.keyLines.value| :: KeyLine(r.keyLines.value[i])
    ensures Fold(Stepper(h), Open(ps, p), KeyLines(r)) == Open(ps, p.(key := Unlines(KeyLines(r))))
  {
    if r.keyLines.Some? {
      var ls := r.keyLines.value;
      MarkerLine(BeginKey);
      MarkerLine(EndKey);
      RunBlock(h, ps, p, BEGIN, ls, END);
      BlockText(ls);
    }
  }

  lemma RunBlock(h: Host, ps: seq<Peer>, p: Peer, b: string, ls: seq<string>, e: string)
    requires b != [] && Marks(b, BeginKey) && e != [] && Marks(e, EndKey)
    requires forall i | 0 <= i < |ls| :: KeyLine(ls[i])
    ensures Fold(Stepper(h), Open(ps, p), [b] + ls + [e]) == Open(ps, p.(key := b + "\n" + Unlines(ls) + e + "\n"))
  {
    StepBegin(h, ps, p, b);
    KeySteps(h, ps, ls);
    StepEnd(h, ps, p.(key := b + "\n" + Unlines(ls)), e);
    FoldBlock(Stepper(h), ps, p, b, ls, e);
  }

  lemma BlockText(ls: seq<string>)
    ensures Unlines([BEGIN] + ls + [END]) == BEGIN + "\n" + Unlines(ls) + END + "\n"
  {
    UnlinesAppend([BEGIN] + ls, [END]);
    UnlinesAppend([BEGIN], ls);
    assert Unlines([BEGIN]) == BEGIN + "\n";
    assert Unlines([END]) == END + "\n";
  }

  ghost predicate StepsKey(step: (State, string) -> State, ps: seq<Peer>, ls: seq<string>) {
    forall p, i | 0 <= i < |ls| :: KeyStep(step, ps, p, ls[i])
  }

  lemma KeySteps(h: Host, ps: seq<Peer>, ls: seq<string>)
    requires forall i | 0 <= i < |ls| :: KeyLine(ls[i])
    ensures StepsKey(Stepper(h), ps, ls)
  {
    forall p, i | 0 <= i < |ls| ensures KeyStep(Stepper(h), ps, p, ls[i]) {
      StepKeyLine(h, ps, p, ls[i]);
    }
  }

  lemma FoldKeyLines(step: (State, string) -> State, ps: seq<Peer>, p: Peer, ls: seq<string>, pre: string)
    requires StepsKey(step, ps, ls)
    ensures Fold(step, InKey(ps, p.(key := pre)), ls) == InKey(ps, p.(key := pre + Unlines(ls)))
  {
    var sts := seq(|ls| + 1, i requires 0 <= i <= |ls| => InKey(ps, p.(key := pre + Unlines(ls[..i]))));
    forall i | 0 <= i < |ls| ensures step(sts[i], ls[i]) == sts[i + 1] {
      var q := p.(key := pre + Unlines(ls[..i]));
      assert KeyStep(step, ps, q, ls[i]);
      UnlinesAppend(ls[..i], [ls[i]]);
      TakeSnoc(ls, i);
      assert Unlines([ls[i]]) == ls[i] + "\n";
      assert pre + Unlines(ls[..i]) + ls[i] + "\n" == pre + (Unlines(ls[..i]) + (ls[i] + "\n"));
    }
    FoldKey(step, ls, sts);
    assert ls[..0] == [] && ls[..|ls|] == ls;
    assert pre + "" == pre;
  }

  // ----- the round trip

  lemma NetworkKeywords()
    ensures Writes("network=", Network) && Writes("network6=", Network6)
  {
  }

  /** The header and scalar lines, up to the networks. */
  lemma RunHead(h: Host, st: State, id: string, r: Record, e: Peer)
    requires CleanRecord(h, id, r) && e == Expected(id, r)
    ensures Fold(Stepper(h), st, HeadLines(id, r))
         == Open(Peers(st), e.(network := [], network6 := [], ed25519 := "", key := ""))
  {
    var ps := Peers(st);
    var p1 := NewPeer(id).(gatewayHost := e.gatewayHost, port := e.port);
    var p2 := p1.(primary := e.primary, hidden := e.hidden, silent := e.silent);
    RunHeadFirst(h, st, id, r, e);
    RunFlagsFirst(h, ps, p1, r);
    RunFlagsLast(h, ps, p2, r);
    FoldThree(Stepper(h), st, FirstLines(id, r), Open(ps, p1), MiddleLines(r), Open(ps, p2),
              LastLines(r), Open(ps, p2.(useTcpOnly := e.useTcpOnly, indirectData := e.indirectData)));
    HeadSplit(id, r);
  }

  function FirstLines(id: string, r: Record): seq<string> {
    ["[" + id + "]"]
    + [if Truthy(r.hidden) then "gatewayhost=localhost" else "gatewayhost=" + r.gatewayHost]
    + Opt(Truthy(r.port), "port=" + r.port)
  }

  function MiddleLines(r: Record): seq<string> {
    Opt(Truthy(r.primary), "primary=1") + ["hidden=" + Flag(r.hidden)] + Opt(Truthy(r.silent), "silent=" + Flag(r.silent))
  }

  function LastLines(r: Record): seq<string> {
    Opt(Truthy(r.useTcpOnly), "use-tcp-only=" + Flag(r.useTcpOnly))
    + Opt(Truthy(r.indirectData), "indirectdata=" + Flag(r.indirectData))
  }

  lemma Regroup(a: seq<string>, b: seq<string>, c: seq<string>, d: seq<string>, e: seq<string>, f: seq<string>)
    ensures a + b + c + d + e + f == a + (b + c + d) + (e + f)
  {
  }

  lemma HeadSplit(id: string, r: Record)
    ensures HeadLines(id, r) == FirstLines(id, r) + MiddleLines(r) + LastLines(r)
  {
    Regroup(FirstLines(id, r), Opt(Truthy(r.primary), "primary=1"), ["hidden=" + Flag(r.hidden)],
            Opt(Truthy(r.silent), "silent=" + Flag(r.silent)),
            Opt(Truthy(r.useTcpOnly), "use-tcp-only=" + Flag(r.useTcpOnly)),
            Opt(Truthy(r.indirectData), "indirectdata=" + Flag(r.indirectData)));
  }

  /** The lines of one section add the expected peer to the list, whatever came before. */
  lemma RunPeer(h: Host, st: State, id: string, r: Record)
    requires CleanRecord(h, id, r)
    ensures Fold(Stepper(h), st, PeerLines(id, r)) == Open(Peers(st), Expected(id, r))
  {
    var ps, e := Peers(st), Expected(id, r);
    var p0 := e.(network := [], network6 := [], ed25519 := "", key := "");
    var p1 := p0.(network := r.networks);
    var p2 := p1.(network6 := r.networks6);
    var p3 := p2.(ed25519 := r.ed25519);
    var step := Stepper(h);
    RunHead(h, st, id, r, e);
    NetworkKeywords();
    RunNetworks(h, ps, p0, "network=", r.networks);
    RunNetworks6(h, ps, p1, "network6=", r.networks6);
    RunTail(h, ps, p2, r);
    RunKey(h, ps, p3, r);
    var a, b, c := HeadLines(id, r), Each("network=", r.networks), Each("network6=", r.networks6);
    FoldThree(step, st, a, Open(ps, p0), b, Open(ps, p1), c, Open(ps, p2));
    FoldThree(step, st, a + b + c, Open(ps, p2), TailLines(r), Open(ps, p3), KeyLines(r), Open(ps, e));
  }

  lemma {:induction false} EachPlain(kw: string, ns: seq<string>)
    requires PlainLine(kw) && forall i | 0 <= i < |ns| :: OneLine(ns[i])
    ensures PlainLines(Each(kw, ns))
  {
    if ns != [] {
      EachPlain(kw, ns[1..]);
    }
  }

  lemma ConcatPlain(a: seq<string>, b: seq<string>)
    requires PlainLines(a) && PlainLines(b)
    ensures PlainLines(a + b)
  {
  }

  lemma OptPlain(c: bool, kw: string, v: string)
    requires PlainLine(kw) && OneLine(v)
    ensures PlainLine(kw + v) && PlainLines(Opt(c, kw + v))
  {
  }

  lemma FlagPlain(s: string)
    ensures OneLine(Flag(s))
  {
  }

  lemma FirstLinesPlain(h: Host, id: string, r: Record)
    requires CleanRecord(h, id, r)
    ensures PlainLines(FirstLines(id, r))
  {
    assert PlainLine("[" + id + "]");
    OptPlain(true, "gatewayhost=", r.gatewayHost);
    assert PlainLine("gatewayhost=localhost");
    if Truthy(r.port) {
      assert forall i | 0 <= i < |r.port| :: IsDigit(r.port[i]);
      OptPlain(true, "port=", r.port);
    }
  }

  lemma MiddleLinesPlain(r: Record)
    ensures PlainLines(MiddleLines(r))
  {
    FlagPlain(r.hidden);
    FlagPlain(r.silent);
    OptPlain(true, "hidden=", Flag(r.hidden));
    OptPlain(Truthy(r.silent), "silent=", Flag(r.silent));
    assert PlainLines(Opt(Truthy(r.primary), "primary=1"));
  }

  lemma LastLinesPlain(r: Record)
    ensures PlainLines(LastLines(r))
  {
    FlagPlain(r.useTcpOnly);
    FlagPlain(r.indirectData);
    OptPlain(Truthy(r.useTcpOnly), "use-tcp-only=", Flag(r.useTcpOnly));
    OptPlain(Truthy(r.indirectData), "indirectdata=", Flag(r.indirectData));
  }

  lemma TailLinesPlain(h: Host, id: string, r: Record)
    requires CleanRecord(h, id, r)
    ensures PlainLines(TailLines(r))
  {
    OptPlain(r.pingTest != "", "#pingtest=", r.pingTest);
    OptPlain(r.pingTest6 != "", "#pingtest6=", r.pingTest6);
    OptPlain(r.ed25519 != "", "Ed25519PublicKey=", r.ed25519);
  }

  lemma MarkersPlain()
    ensures PlainLine(BEGIN) && PlainLine(END)
  {
  }

  lemma KeyLinesPlain(h: Host, id: string, r: Record)
    requires CleanRecord(h, id, r)
    ensures PlainLines(KeyLines(r))
  {
    if r.keyLines.Some? {
      MarkersPlain();
      ConcatPlain([BEGIN], r.keyLines.value);
      ConcatPlain([BEGIN] + r.keyLines.value, [END]);
    }
  }

  lemma ConcatFive(a: seq<string>, b: seq<string>, c: seq<string>, d: seq<string>, e: seq<string>)
    requires PlainLines(a) && PlainLines(b) && PlainLines(c) && PlainLines(d) && PlainLines(e)
    ensures PlainLines(a + b + c + d + e)
  {
    ConcatPlain(a, b);
    ConcatPlain(a + b, c);
    ConcatPlain(a + b + c, d);
    ConcatPlain(a + b + c + d, e);
  }

  lemma HeadLinesPlain(h: Host, id: string, r: Record)
    requires CleanRecord(h, id, r)
    ensures PlainLines(HeadLines(id, r))
  {
    HeadSplit(id, r);
    FirstLinesPlain(h, id, r);
    MiddleLinesPlain(r);
    LastLinesPlain(r);
    ConcatPlain(FirstLines(id, r), MiddleLines(r));
    ConcatPlain(FirstLines(id, r) + MiddleLines(r), LastLines(r));
  }

  /** Every printed line is one non-empty line. */
  lemma PeerLinesPlain(h: Host, id: string, r: Record)
    requires CleanRecord(h, id, r)
    ensures PlainLines(PeerLines(id, r))
  {
    HeadLinesPlain(h, id, r);
    EachPlain("network=", r.networks);
    EachPlain("network6=", r.networks6);
    TailLinesPlain(h, id, r);
    KeyLinesPlain(h, id, r);
    ConcatFive(HeadLines(id, r), Each("network=", r.networks), Each("network6=", r.networks6), TailLines(r), KeyLines(r));
  }

  ghost predicate AllClean(h: Host, ids: seq<string>, peers: map<string, Record>)
    requires Listed(ids, peers)
  {
    forall i | 0 <= i < |ids| :: CleanRecord(h, ids[i], peers[ids[i]])
  }

  function AllExpected(ids: seq<string>, peers: map<string, Record>): (ps: seq<Peer>)
    requires Listed(ids, peers)
    ensures |ps| == |ids| && forall i | 0 <= i < |ids| :: ps[i] == Expected(ids[i], peers[ids[i]])
  {
    seq(|ids|, i requires 0 <= i < |ids| => Expected(ids[i], peers[ids[i]]))
  }

  /** The lines of a section add one peer, from any state. */
  ghost predicate Adds(step: (State, string) -> State, block: seq<string>, e: Peer) {
    forall st :: Fold(step, st, block) == Open(Peers(st), e)
  }

  ghost predicate Ignores(step: (State, string) -> State, line: string) {
    forall st :: step(st, line) == st
  }

  /** All sections, one after the other. */
  lemma {:induction false} FoldSections(step: (State, string) -> State, st: State, blocks: seq<seq<string>>, es: seq<Peer>)
    requires |blocks| == |es| && forall i | 0 <= i < |es| :: Adds(step, blocks[i], es[i])
    ensures Peers(Fold(step, st, Flat(blocks))) == Peers(st) + es
  {
    if es != [] {
      var n := |es| - 1;
      FoldSections(step, st, blocks[..n], es[..n]);
      FoldAppend(step, st, Flat(blocks[..n]), blocks[n]);
      assert Adds(step, blocks[n], es[n]);
      assert es == es[..n] + [es[n]];
    }
  }

  lemma {:induction false} FoldComments(step: (State, string) -> State, st: State, ls: seq<string>)
    requires forall i | 0 <= i < |ls| :: Ignores(step, ls[i])
    ensures Fold(step, st, ls) == st
    decreases |ls|
  {
    if ls != [] {
      assert Ignores(step, ls[0]);
      FoldComments(step, st, ls[1..]);
    }
  }

  lemma CommentLines()
    ensures PlainLines(COMMENTS)
    ensures forall i | 0 <= i < |COMMENTS| :: COMMENTS[i][0] == '#'
  {
    assert OneLine("# AUTOGENERATED FILE - ") && OneLine("DO NOT MODIFY MANUALLY!");
    assert PlainLine(COMMENTS[0]) && COMMENTS[0][0] == '#';
    assert PlainLine(COMMENTS[1]) && COMMENTS[1][0] == '#';
    assert PlainLine(COMMENTS[2]) && COMMENTS[2][0] == '#';
    assert PlainLine(COMMENTS[3]) && COMMENTS[3][0] == '#';
  }

  lemma PreambleParsed()
    ensures Lines(PREAMBLE) == COMMENTS && PREAMBLE != [] && PREAMBLE[|PREAMBLE| - 1] == '\n'
  {
    CommentLines();
    LinesOfUnlines(COMMENTS);
    LinesAppend(Unlines(COMMENTS), "\n");
    assert "\n"[1..] == "";
  }

  lemma CommentsIgnored(h: Host)
    ensures forall i | 0 <= i < |COMMENTS| :: Ignores(Stepper(h), COMMENTS[i])
  {
    CommentLines();
    forall i | 0 <= i < |COMMENTS| ensures Ignores(Stepper(h), COMMENTS[i]) {
      assert PlainLine(COMMENTS[i]);
      CommentIgnored(h, COMMENTS[i]);
    }
  }

  lemma CommentIgnored(h: Host, line: string)
    requires line != [] && line[0] == '#'
    ensures Ignores(Stepper(h), line)
  {
  }

  lemma PeerAdds(h: Host, id: string, r: Record)
    requires CleanRecord(h, id, r)
    ensures Adds(Stepper(h), PeerLines(id, r), Expected(id, r))
  {
    forall st ensures Fold(Stepper(h), st, PeerLines(id, r)) == Open(Peers(st), Expected(id, r)) {
      RunPeer(h, st, id, r);
    }
  }

  /** A text made of comments and sections, for any step that treats their lines as it should. */
  lemma FoldText(step: (State, string) -> State, st: State, blocks: seq<seq<string>>, es: seq<Peer>)
    requires |blocks| == |es| && forall i | 0 <= i < |es| :: Adds(step, blocks[i], es[i]) && PlainLines(blocks[i])
    requires forall i | 0 <= i < |COMMENTS| :: Ignores(step, COMMENTS[i])
    ensures Peers(Fold(step, st, Lines(PREAMBLE + Sections(blocks)))) == Peers(st) + es
  {
    LinesOfSections(blocks);
    PreambleParsed();
    LinesAppend(PREAMBLE, Sections(blocks));
    FoldAppend(step, st, COMMENTS, Flat(blocks));
    FoldComments(step, st, COMMENTS);
    FoldSections(step, st, blocks, es);
  }

  /**
    * The printed configuration, parsed, gives every peer back in printed order: keys with their line breaks, flags,
    * ports and both network lists; an absent port is the default, a hidden peer's gateway is localhost, and nothing
    * is read into the owner.
    */
  lemma PrintedConfigReadsBack(h: Host, before: seq<Peer>, ids: seq<string>, peers: map<string, Record>)
    requires Listed(ids, peers) && AllClean(h, ids, peers)
    ensures ParseOnto(h, before, PREAMBLE + Sections(Blocks(ids, peers))) == before + AllExpected(ids, peers)
  {
    var blocks, es := Blocks(ids, peers), AllExpected(ids, peers);
    forall i | 0 <= i < |es| ensures Adds(Stepper(h), blocks[i], es[i]) && PlainLines(blocks[i]) {
      PeerAdds(h, ids[i], peers[ids[i]]);
      PeerLinesPlain(h, ids[i], peers[ids[i]]);
    }
    CommentsIgnored(h);
    FoldText(Stepper(h), Fresh(before), blocks, es);
  }

  lemma KeywordLineShape(l: string, k: Keyword)
    requires Has(l, k)
    ensures l != [] && ('=' in l || l[0] == '-')
  {
    var t := Text(k);
    if IsName(k) {
      NameShape(k);
      assert ToLower(l[..|t|][|t| - 1]) == ToLower(t[|t| - 1]);
      assert l[|t| - 1] == '=';
    } else {
      MarkersDiffer();
      assert ToLower(l[..|t|][0]) == ToLower(t[0]);
    }
  }

  /** Lines of a base-64 body are key lines: without an equals sign or a leading dash there is no keyword. */
  lemma PlainBodyLine(l: string)
    requires l != [] && '=' !in l && l[0] != '-'
    ensures Dispatch(l).None?
  {
    if FirstOf(ORDER, l).Some? {
      KeywordLineShape(l, FirstOf(ORDER, l).value);
    }
  }
}
