/** What every kind of line of the central configuration does, field by field. */
module ParserLines {
  import opened Options
  import opened CStr
  import opened Keywords
  import opened Subnets
  import opened PeerConfig
  import RoundTrip

  /** The line starts with this text, in any case. */
  predicate Starts(line: string, kw: string) {
    |kw| <= |line| && EqFold(line[..|kw|], kw)
  }

  /** A line that is neither a comment nor a header, with nothing to trim. */
  predicate Ordinary(line: string) {
    line != [] && line[0] != '#' && line[0] != '[' && !IsSpace(line[0]) && !IsSpace(line[|line| - 1])
  }

  lemma KeywordLine(h: Host, st: State, line: string, k: Keyword)
    requires st.current.Some? && Ordinary(line) && Starts(line, Text(k))
    ensures Has(line, k)
    ensures var (q, m) := Apply(h, st.current.value, st.keyMode, line, k);
            Step(h, st, line) == State(st.done, Some(q), m)
  {
    DispatchFinds(line, k);
    RoundTrip.TrimNothing(line);
    RoundTrip.StepKeyword(h, st, line, k);
  }

  // A line that sets a text sets its own field to what follows the keyword, and nothing else.

  lemma GatewayHostLine(h: Host, st: State, line: string)
    requires st.current.Some? && Ordinary(line) && Starts(line, "gatewayhost=")
    ensures Step(h, st, line) == st.(current := Some(st.current.value.(gatewayHost := line[12..])))
  {
    KeywordLine(h, st, line, GatewayHost);
  }

  lemma OwnerLine(h: Host, st: State, line: string)
    requires st.current.Some? && Ordinary(line) && Starts(line, "owner=")
    ensures Step(h, st, line) == st.(current := Some(st.current.value.(owner := line[6..])))
  {
    KeywordLine(h, st, line, Owner);
  }

  lemma CipherLine(h: Host, st: State, line: string)
    requires st.current.Some? && Ordinary(line) && Starts(line, "cipher=")
    ensures Step(h, st, line) == st.(current := Some(st.current.value.(cipher := line[7..])))
  {
    KeywordLine(h, st, line, Cipher);
  }

  lemma CompressionLine(h: Host, st: State, line: string)
    requires st.current.Some? && Ordinary(line) && Starts(line, "compression=")
    ensures Step(h, st, line) == st.(current := Some(st.current.value.(compression := line[12..])))
  {
    KeywordLine(h, st, line, Compression);
  }

  lemma DigestLine(h: Host, st: State, line: string)
    requires st.current.Some? && Ordinary(line) && Starts(line, "digest=")
    ensures Step(h, st, line) == st.(current := Some(st.current.value.(digest := line[7..])))
  {
    KeywordLine(h, st, line, Digest);
  }

  lemma Ed25519Line(h: Host, st: State, line: string)
    requires st.current.Some? && Ordinary(line) && Starts(line, "ed25519publickey=")
    ensures Step(h, st, line) == st.(current := Some(st.current.value.(ed25519 := line[17..])))
  {
    KeywordLine(h, st, line, Ed25519);
  }

  /** The texts that switch a flag on; every other text switches it off. */
  predicate On(s: string) { s == "1" || EqFold(s, "yes") }

  lemma OnIs(s: string)
    ensures IsTrue(s, false) == On(s)
    ensures IsTrue(s, true) == !(s == "0" || EqFold(s, "no"))
  {
    if EqFold(s, "no") { assert |s| == 2; }
    if EqFold(s, "yes") { assert |s| == 3; }
  }

  lemma UseTcpOnlyLine(h: Host, st: State, line: string)
    requires st.current.Some? && Ordinary(line) && Starts(line, "use-tcp-only=")
    ensures Step(h, st, line) == st.(current := Some(st.current.value.(useTcpOnly := On(line[13..]))))
  {
    KeywordLine(h, st, line, UseTcpOnly);
    OnIs(line[13..]);
  }

  lemma HiddenLine(h: Host, st: State, line: string)
    requires st.current.Some? && Ordinary(line) && Starts(line, "hidden=")
    ensures Step(h, st, line) == st.(current := Some(st.current.value.(hidden := On(line[7..]))))
  {
    KeywordLine(h, st, line, Hidden);
    OnIs(line[7..]);
  }

  lemma SilentLine(h: Host, st: State, line: string)
    requires st.current.Some? && Ordinary(line) && Starts(line, "silent=")
    ensures Step(h, st, line) == st.(current := Some(st.current.value.(silent := On(line[7..]))))
  {
    KeywordLine(h, st, line, Silent);
    OnIs(line[7..]);
  }

  lemma IndirectDataLine(h: Host, st: State, line: string)
    requires st.current.Some? && Ordinary(line) && Starts(line, "indirectdata=")
    ensures Step(h, st, line) == st.(current := Some(st.current.value.(indirectData := On(line[13..]))))
  {
    KeywordLine(h, st, line, IndirectData);
    OnIs(line[13..]);
  }

  lemma PrimaryLine(h: Host, st: State, line: string)
    requires st.current.Some? && Ordinary(line) && Starts(line, "primary=")
    ensures Step(h, st, line) == st.(current := Some(st.current.value.(primary := On(line[8..]))))
  {
    KeywordLine(h, st, line, Primary);
    OnIs(line[8..]);
  }

  // A subnet line appends its text to its own list, or changes nothing when it is not a subnet of that family.

  lemma NetworkLine(h: Host, st: State, line: string)
    requires st.current.Some? && Ordinary(line) && Starts(line, "network=")
    ensures var p, n := st.current.value, line[8..];
            Step(h, st, line) == if ValidSubnet(h, n, V4) then st.(current := Some(p.(network := p.network + [n]))) else st
  {
    KeywordLine(h, st, line, Network);
  }

  lemma Network6Line(h: Host, st: State, line: string)
    requires st.current.Some? && Ordinary(line) && Starts(line, "network6=")
    ensures var p, n := st.current.value, line[9..];
            Step(h, st, line) == if ValidSubnet(h, n, V6) then st.(current := Some(p.(network6 := p.network6 + [n]))) else st
  {
    KeywordLine(h, st, line, Network6);
  }

  lemma RouteNetworkLine(h: Host, st: State, line: string)
    requires st.current.Some? && Ordinary(line) && Starts(line, "route_network=")
    ensures var p, n := st.current.value, line[14..];
            Step(h, st, line) == if ValidSubnet(h, n, V4) then st.(current := Some(p.(routeNetwork := p.routeNetwork + [n]))) else st
  {
    KeywordLine(h, st, line, RouteNetwork);
  }

  lemma RouteNetwork6Line(h: Host, st: State, line: string)
    requires st.current.Some? && Ordinary(line) && Starts(line, "route_network6=")
    ensures var p, n := st.current.value, line[15..];
            Step(h, st, line) == if ValidSubnet(h, n, V6) then st.(current := Some(p.(routeNetwork6 := p.routeNetwork6 + [n]))) else st
  {
    KeywordLine(h, st, line, RouteNetwork6);
  }

  /** A port is the number written, cut to 16 bits; the largest unsigned long is refused. */
  lemma PortLine(h: Host, st: State, line: string)
    requires st.current.Some? && Ordinary(line) && Starts(line, "port=")
    ensures var p := st.current.value;
            var n := Strtoul(line[5..]);
            Step(h, st, line) == if n == 0xFFFF_FFFF_FFFF_FFFF then st else st.(current := Some(p.(port := n % 65536)))
  {
    KeywordLine(h, st, line, Port);
  }

  lemma BeginKeyLine(h: Host, st: State, line: string)
    requires st.current.Some? && Ordinary(line) && Starts(line, "-----BEGIN RSA PUBLIC KEY-----")
    ensures Step(h, st, line) == State(st.done, Some(st.current.value.(key := line + "\n")), true)
  {
    KeywordLine(h, st, line, BeginKey);
  }

  lemma EndKeyLine(h: Host, st: State, line: string)
    requires st.current.Some? && Ordinary(line) && Starts(line, "-----END RSA PUBLIC KEY-----")
    ensures Step(h, st, line) == State(st.done, Some(st.current.value.(key := st.current.value.key + line + "\n")), false)
  {
    KeywordLine(h, st, line, EndKey);
  }

  lemma PingTestLine(h: Host, st: State, line: string)
    requires st.current.Some? && Ordinary(line) && Starts(line, "pingtest=")
    ensures Step(h, st, line) == st
  {
    KeywordLine(h, st, line, PingTest);
  }

  /** A line without a keyword belongs to the key inside a key block, and is ignored elsewhere. */
  lemma UnknownLine(h: Host, st: State, line: string)
    requires st.current.Some? && Ordinary(line) && Dispatch(line).None?
    ensures var p := st.current.value;
            Step(h, st, line) == if st.keyMode then st.(current := Some(p.(key := p.key + line + "\n"))) else st
  {
    RoundTrip.TrimNothing(line);
  }

  /** A header opens a section for a peer with nothing but its name and the default port; a comment changes nothing. */
  lemma HeaderLine(h: Host, st: State, name: string)
    ensures Step(h, st, "[" + name + "]") ==
            State(Peers(st),
                  Some(Peer(name := name, gatewayHost := "", owner := "",
                            network := [], network6 := [], routeNetwork := [], routeNetwork6 := [],
                            hidden := false, silent := false, port := 665, key := "", ed25519 := "",
                            cipher := "", compression := "", digest := "",
                            primary := false, useTcpOnly := false, indirectData := false)),
                  false)
  {
    var line := "[" + name + "]";
    RoundTrip.TrimNothing(line);
    assert line[1..|line| - 1] == name;
  }

  lemma OutsideSections(h: Host, st: State, line: string)
    ensures line != [] && line[0] == '#' ==> Step(h, st, line) == st
    ensures st.current.None? && Ordinary(line) ==> Step(h, st, line) == st
  {
    if Ordinary(line) { RoundTrip.TrimNothing(line); }
  }

  predicate Blank(s: string) { forall i | 0 <= i < |s| :: IsSpace(s[i]) }

  /** White space around a line changes nothing. */
  lemma SpacesIgnored(h: Host, st: State, a: string, line: string, b: string)
    requires Blank(a) && Blank(b)
    requires line != [] && line[0] != '#' && !IsSpace(line[0]) && !IsSpace(line[|line| - 1])
    ensures Step(h, st, a + line + b) == Step(h, st, line)
  {
    TrimBoth(a, line, b);
    RoundTrip.TrimNothing(line);
    assert (a + line + b)[0] == if a == [] then line[0] else a[0];
  }

  lemma {:induction false} TrimBoth(a: string, line: string, b: string)
    requires Blank(a) && Blank(b) && line != [] && !IsSpace(line[0]) && !IsSpace(line[|line| - 1])
    ensures Trim(a + line + b) == line
  {
    SkipLeft(a, line + b);
    assert a + line + b == a + (line + b);
    SkipRight(line, b);
  }

  lemma {:induction false} SkipLeft(a: string, rest: string)
    requires Blank(a) && rest != [] && !IsSpace(rest[0])
    ensures TrimLeft(a + rest) == rest
  {
    if a == [] {
      assert a + rest == rest;
    } else {
      assert (a + rest)[1..] == a[1..] + rest;
      SkipLeft(a[1..], rest);
    }
  }

  lemma {:induction false} SkipRight(line: string, b: string)
    requires Blank(b) && line != [] && !IsSpace(line[|line| - 1])
    ensures TrimRight(line + b) == line
  {
    if b == [] {
      assert line + b == line;
    } else {
      var n := |b| - 1;
      assert (line + b)[..|line + b| - 1] == line + b[..n];
      SkipRight(line, b[..n]);
    }
  }

  /** strtoul in base 0: decimal, hexadecimal, octal, signs, and where reading stops. */
  lemma StrtoulExamples()
    ensures Strtoul("655") == 655 && Strtoul("+655") == 655 && Strtoul("655x") == 655 && Strtoul("x655") == 0
    ensures Strtoul("0x28F") == 655 && Strtoul("0X28f") == 655 && Strtoul("01217") == 655 && Strtoul("08") == 0
    ensures Strtoul("-1") == 0xFFFF_FFFF_FFFF_FFFF && Strtoul("") == 0
  {
    StrtoulDecimal();
    StrtoulHex();
    StrtoulOctal();
  }

  lemma StrtoulDecimal()
    ensures Strtoul("655") == 655 && Strtoul("+655") == 655 && Strtoul("655x") == 655 && Strtoul("x655") == 0
    ensures Strtoul("-1") == 0xFFFF_FFFF_FFFF_FFFF && Strtoul("") == 0
  {
    assert "655"[1..] == "55" && "55"[1..] == "5" && "5"[1..] == "";
    assert Digits("655", 10, 0) == Digits("55", 10, 6) == Digits("5", 10, 65) == Digits("", 10, 655) == 655;
    assert "+655"[1..] == "655" && "-1"[1..] == "1" && "1"[1..] == "";
    assert Digits("1", 10, 0) == Digits("", 10, 1) == 1;
    assert "655x"[1..] == "55x" && "55x"[1..] == "5x" && "5x"[1..] == "x";
    assert Digits("655x", 10, 0) == Digits("55x", 10, 6) == Digits("5x", 10, 65) == Digits("x", 10, 655) == 655;
  }

  lemma StrtoulHex()
    ensures Strtoul("0x28F") == 655 && Strtoul("0X28f") == 655
  {
    assert "0x28F"[2..] == "28F" && "28F"[1..] == "8F" && "8F"[1..] == "F" && "F"[1..] == "";
    assert Digits("28F", 16, 0) == Digits("8F", 16, 2) == Digits("F", 16, 40) == Digits("", 16, 655) == 655;
    assert "0X28f"[2..] == "28f" && "28f"[1..] == "8f" && "8f"[1..] == "f" && "f"[1..] == "";
    assert Digits("28f", 16, 0) == Digits("8f", 16, 2) == Digits("f", 16, 40) == Digits("", 16, 655) == 655;
  }

  lemma StrtoulOctal()
    ensures Strtoul("01217") == 655 && Strtoul("08") == 0
  {
    assert "01217"[1..] == "1217" && "1217"[1..] == "217" && "217"[1..] == "17" && "17"[1..] == "7" && "7"[1..] == "";
    assert Digits("01217", 8, 0) == Digits("1217", 8, 0) == Digits("217", 8, 1) == Digits("17", 8, 10) == Digits("7", 8, 81);
    assert Digits("7", 8, 81) == Digits("", 8, 655) == 655;
    assert "08"[1..] == "8";
    assert Digits("08", 8, 0) == Digits("8", 8, 0) == 0;
  }
}
