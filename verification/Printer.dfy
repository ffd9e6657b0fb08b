/** build_text_config of the backend script, and its round trip through the parser. */
module Printer {
  import opened Options
  import opened CStr
  import opened Keywords
  import opened Subnets
  import opened PeerConfig

  /** A peer as the backend holds it: every scalar is a string, read as a flag where Perl does. */
  datatype Record = Record(
    hidden: string, gatewayHost: string, port: string, primary: string, silent: string,
    useTcpOnly: string, indirectData: string,
    networks: seq<string>, networks6: seq<string>,
    pingTest: string, pingTest6: string, ed25519: string, keyLines: Option<seq<string>>)

  /** Perl's truth of a string. */
  predicate Truthy(s: string) { s != "" && s != "0" }

  function Flag(s: string): string { if Truthy(s) then "1" else "0" }

  const BEGIN: string := Text(BeginKey)
  const END: string := Text(EndKey)

  /** Lines, each closed by a newline. */
  function Unlines(ls: seq<string>): string {
    if ls == [] then "" else ls[0] + "\n" + Unlines(ls[1..])
  }

  lemma {:induction false} UnlinesAppend(a: seq<string>, b: seq<string>)
    ensures Unlines(a + b) == Unlines(a) + Unlines(b)
  {
    if a == [] {
      assert a + b == b;
    } else {
      assert (a + b)[1..] == a[1..] + b;
      UnlinesAppend(a[1..], b);
    }
  }

  // ----- what is printed for a peer, line by line

  function Opt(condition: bool, line: string): seq<string> { if condition then [line] else [] }

  function Each(kw: string, ns: seq<string>): seq<string> {
    if ns == [] then [] else [kw + ns[0]] + Each(kw, ns[1..])
  }

  function HeadLines(id: string, r: Record): seq<string> {
    ["[" + id + "]"]
    + [if Truthy(r.hidden) then "gatewayhost=localhost" else "gatewayhost=" + r.gatewayHost]
    + Opt(Truthy(r.port), "port=" + r.port)
    + Opt(Truthy(r.primary), "primary=1")
    + ["hidden=" + Flag(r.hidden)]
    + Opt(Truthy(r.silent), "silent=" + Flag(r.silent))
    + Opt(Truthy(r.useTcpOnly), "use-tcp-only=" + Flag(r.useTcpOnly))
    + Opt(Truthy(r.indirectData), "indirectdata=" + Flag(r.indirectData))
  }

  function TailLines(r: Record): seq<string> {
    Opt(r.pingTest != "", "#pingtest=" + r.pingTest)
    + Opt(r.pingTest6 != "", "#pingtest6=" + r.pingTest6)
    + Opt(r.ed25519 != "", "Ed25519PublicKey=" + r.ed25519)
  }

  /** The pubkey field: a whole key block, or nothing. */
  function KeyLines(r: Record): seq<string> {
    match r.keyLines
    case None => []
    case Some(ls) => [BEGIN] + ls + [END]
  }

  function PeerLines(id: string, r: Record): seq<string> {
    HeadLines(id, r) + Each("network=", r.networks) + Each("network6=", r.networks6) + TailLines(r) + KeyLines(r)
  }

  lemma LiteralLines()
    ensures "port=" + "700" == "port=700" && "hidden=" + "0" == "hidden=0" && "hidden=" + "1" == "hidden=1"
    ensures "silent=" + "1" == "silent=1" && "use-tcp-only=" + "1" == "use-tcp-only=1" && "indirectdata=" + "1" == "indirectdata=1"
  {
  }

  /** A section with everything set. */
  lemma FullSection(id: string, gw: string, n: string, n6: string, k: string, x: string)
    requires x != "" && x != "0"
    ensures PeerLines(id, Record("", gw, "700", "yes", x, "1", "no", [n], [n6], x, x, x, Some([k]))) ==
            ["[" + id + "]", "gatewayhost=" + gw, "port=700", "primary=1", "hidden=0", "silent=1", "use-tcp-only=1",
             "indirectdata=1", "network=" + n, "network6=" + n6, "#pingtest=" + x, "#pingtest6=" + x,
             "Ed25519PublicKey=" + x, "-----BEGIN RSA PUBLIC KEY-----", k, "-----END RSA PUBLIC KEY-----"]
  {
    var r := Record("", gw, "700", "yes", x, "1", "no", [n], [n6], x, x, x, Some([k]));
    LiteralLines();
    assert HeadLines(id, r) == ["[" + id + "]", "gatewayhost=" + gw, "port=700", "primary=1", "hidden=0", "silent=1",
                                "use-tcp-only=1", "indirectdata=1"];
    assert Each("network=", [n]) == ["network=" + n] && Each("network6=", [n6]) == ["network6=" + n6];
    assert TailLines(r) == ["#pingtest=" + x, "#pingtest6=" + x, "Ed25519PublicKey=" + x];
  }

  /** A hidden peer with everything else off: "" and "0" are false. */
  lemma BareSection(id: string, gw: string)
    ensures PeerLines(id, Record("1", gw, "0", "0", "", "0", "", [], [], "", "", "", None)) ==
            ["[" + id + "]", "gatewayhost=localhost", "hidden=1"]
  {
    var r := Record("1", gw, "0", "0", "", "0", "", [], [], "", "", "", None);
    LiteralLines();
    assert HeadLines(id, r) == ["[" + id + "]", "gatewayhost=localhost", "hidden=1"];
    assert TailLines(r) == [] && KeyLines(r) == [];
  }

  const COMMENTS: seq<string> :=
    ["#", "# AUTOGENERATED FILE - " + "DO NOT MODIFY MANUALLY!", "# Edit only in chaosvpn-admin.git!", "#"]

  const PREAMBLE: string := Unlines(COMMENTS) + "\n"

  /** Sections given by their lines, each behind an empty line. */
  function Sections(blocks: seq<seq<string>>): string {
    if blocks == [] then "" else Sections(blocks[..|blocks| - 1]) + ("\n" + Unlines(blocks[|blocks| - 1]))
  }

  lemma SectionsSnoc(blocks: seq<seq<string>>, b: seq<string>)
    ensures Sections(blocks + [b]) == Sections(blocks) + ("\n" + Unlines(b))
  {
    assert (blocks + [b])[..|blocks|] == blocks;
  }

  ghost predicate Listed(ids: seq<string>, peers: map<string, Record>) {
    forall i | 0 <= i < |ids| :: ids[i] in peers
  }

  function Blocks(ids: seq<string>, peers: map<string, Record>): (bs: seq<seq<string>>)
    requires Listed(ids, peers)
    ensures |bs| == |ids| && forall i | 0 <= i < |ids| :: bs[i] == PeerLines(ids[i], peers[ids[i]])
  {
    if ids == [] then []
    else Blocks(ids[..|ids| - 1], peers) + [PeerLines(ids[|ids| - 1], peers[ids[|ids| - 1]])]
  }

  lemma Reassociate(a: string, b: string, c: string)
    ensures a + b + c == a + (b + c)
  {
  }

  // ----- the printer

  /** One conditional append of a line to the text. */
  method Put(config: string, condition: bool, line: string, ghost pre: string, ghost done: seq<string>) returns (r: string)
    requires config == pre + Unlines(done)
    ensures r == pre + Unlines(done + Opt(condition, line))
  {
    r := config;
    if condition {
      UnlinesAppend(done, [line]);
      assert Unlines([line]) == line + "\n";
      r := r + line + "\n";
    } else {
      assert done + [] == done;
    }
  }

  /** foreach over one network list. */
  method PutEach(config: string, kw: string, ns: seq<string>, ghost pre: string, ghost done: seq<string>) returns (r: string)
    requires config == pre + Unlines(done)
    ensures r == pre + Unlines(done + Each(kw, ns))
  {
    r := config;
    var rest := ns;
    ghost var out := done;
    while rest != []
      invariant r == pre + Unlines(out)
      invariant done + Each(kw, ns) == out + Each(kw, rest)
      decreases |rest|
    {
      r := Put(r, true, kw + rest[0], pre, out);
      assert out + Each(kw, rest) == out + [kw + rest[0]] + Each(kw, rest[1..]);
      out := out + [kw + rest[0]];
      rest := rest[1..];
    }
    assert out + Each(kw, rest) == out;
  }

  method PrintHead(config: string, id: string, peer: Record) returns (r: string)
    ensures r == config + "\n" + Unlines(HeadLines(id, peer))
  {
    ghost var pre := config + "\n";
    ghost var l := [];
    r := config + "\n";
    assert r == pre + Unlines([]);
    r := Put(r, true, "[" + id + "]", pre, []);
    l := ["[" + id + "]"];
    assert [] + l == l;
    var gateway := if Truthy(peer.hidden) then "gatewayhost=localhost" else "gatewayhost=" + peer.gatewayHost;
    r := Put(r, true, gateway, pre, l);
    l := l + [gateway];
    r := Put(r, Truthy(peer.port), "port=" + peer.port, pre, l);
    l := l + Opt(Truthy(peer.port), "port=" + peer.port);
    r := Put(r, Truthy(peer.primary), "primary=1", pre, l);
    l := l + Opt(Truthy(peer.primary), "primary=1");
    r := Put(r, true, "hidden=" + Flag(peer.hidden), pre, l);
    l := l + ["hidden=" + Flag(peer.hidden)];
    r := Put(r, Truthy(peer.silent), "silent=" + Flag(peer.silent), pre, l);
    l := l + Opt(Truthy(peer.silent), "silent=" + Flag(peer.silent));
    r := Put(r, Truthy(peer.useTcpOnly), "use-tcp-only=" + Flag(peer.useTcpOnly), pre, l);
    l := l + Opt(Truthy(peer.useTcpOnly), "use-tcp-only=" + Flag(peer.useTcpOnly));
    r := Put(r, Truthy(peer.indirectData), "indirectdata=" + Flag(peer.indirectData), pre, l);
  }

  method PrintTail(config: string, peer: Record) returns (r: string)
    ensures r == config + Unlines(TailLines(peer))
  {
    assert config == config + Unlines([]);
    ghost var l := [];
    r := Put(config, peer.pingTest != "", "#pingtest=" + peer.pingTest, config, []);
    l := Opt(peer.pingTest != "", "#pingtest=" + peer.pingTest);
    assert [] + l == l;
    r := Put(r, peer.pingTest6 != "", "#pingtest6=" + peer.pingTest6, config, l);
    l := l + Opt(peer.pingTest6 != "", "#pingtest6=" + peer.pingTest6);
    r := Put(r, peer.ed25519 != "", "Ed25519PublicKey=" + peer.ed25519, config, l);
  }

  /** The body of the loop over peers. */
  method PrintPeer(config: string, id: string, peer: Record) returns (r: string)
    ensures r == config + ("\n" + Unlines(PeerLines(id, peer)))
  {
    r := PrintHead(config, id, peer);
    ghost var pre, l := config + "\n", HeadLines(id, peer);
    r := PutEach(r, "network=", peer.networks, pre, l);
    l := l + Each("network=", peer.networks);
    r := PutEach(r, "network6=", peer.networks6, pre, l);
    l := l + Each("network6=", peer.networks6);
    r := PutTail(r, peer, pre, l);
    l := l + TailLines(peer) + KeyLines(peer);
    assert l == PeerLines(id, peer);
    Reassociate(config, "\n", Unlines(l));
  }

  method PutTail(config: string, peer: Record, ghost pre: string, ghost done: seq<string>) returns (r: string)
    requires config == pre + Unlines(done)
    ensures r == pre + Unlines(done + TailLines(peer) + KeyLines(peer))
  {
    r := PrintTail(config, peer);
    r := r + Unlines(KeyLines(peer));
    ghost var t, k := TailLines(peer), KeyLines(peer);
    UnlinesAppend(done, t);
    UnlinesAppend(done + t, k);
    Reassociate(pre, Unlines(done), Unlines(t));
    Reassociate(pre, Unlines(done + t), Unlines(k));
  }

  /** build_text_config, over the sorted ids. */
  method BuildTextConfig(ids: seq<string>, peers: map<string, Record>) returns (config: string)
    requires Listed(ids, peers)
    ensures config == PREAMBLE + Sections(Blocks(ids, peers))
  {
    config := PREAMBLE;
    ghost var blocks := [];
    assert config == PREAMBLE + Sections([]);
    for k := 0 to |ids|
      invariant blocks == Blocks(ids[..k], peers)
      invariant config == PREAMBLE + Sections(blocks)
    {
      ghost var b := PeerLines(ids[k], peers[ids[k]]);
      BlocksSnoc(ids, k, peers);
      SectionsSnoc(blocks, b);
      Reassociate(PREAMBLE, Sections(blocks), "\n" + Unlines(b));
      config := PrintPeer(config, ids[k], peers[ids[k]]);
      blocks := blocks + [b];
    }
    assert ids[..|ids|] == ids;
  }

  lemma BlocksSnoc(ids: seq<string>, k: nat, peers: map<string, Record>)
    requires Listed(ids, peers) && k < |ids|
    ensures Blocks(ids[..k + 1], peers) == Blocks(ids[..k], peers) + [PeerLines(ids[k], peers[ids[k]])]
  {
    assert ids[..k + 1][..k] == ids[..k];
  }
}
