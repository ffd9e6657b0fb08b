/** From the published configuration and the settings to the routes: the pieces put together. */
module EndToEnd {
  import opened Options
  import opened Subnets
  import opened FirstHit
  import opened AddrMask
  import opened PeerConfig
  import opened Printer
  import opened RoundTrip
  import opened UpdateCycle
  import Routes

  function RecordNetworks(r: Record, f: Family): seq<string> { if f == V4 then r.networks else r.networks6 }

  /** The text the backend publishes. */
  function Published(ids: seq<string>, peers: map<string, Record>): string
    requires Listed(ids, peers)
  {
    PREAMBLE + Sections(Blocks(ids, peers))
  }

  lemma PublishedPeer(h: Host, ids: seq<string>, peers: map<string, Record>, i: nat, f: Family)
    requires Listed(ids, peers) && AllClean(h, ids, peers) && i < |ids|
    ensures var ps := ParseText(h, Published(ids, peers));
            PeersValid(h, ps) && exists p | p in ps :: p.name == ids[i] && Routes.Networks(p, f) == RecordNetworks(peers[ids[i]], f)
  {
    var ps := ParseText(h, Published(ids, peers));
    StoredSubnetsValid(h, [], Published(ids, peers));
    PublishedReadsBack(h, ids, peers);
    ExpectedNetworks(ids[i], peers[ids[i]], f);
    assert ps[i] == Expected(ids[i], peers[ids[i]]);
  }

  lemma PublishedReadsBack(h: Host, ids: seq<string>, peers: map<string, Record>)
    requires Listed(ids, peers) && AllClean(h, ids, peers)
    ensures ParseText(h, Published(ids, peers)) == AllExpected(ids, peers)
  {
    PrintedConfigReadsBack(h, [], ids, peers);
    var es := AllExpected(ids, peers);
    assert [] + es == es;
  }

  lemma ExpectedNetworks(id: string, r: Record, f: Family)
    ensures Expected(id, r).name == id && Routes.Networks(Expected(id, r), f) == RecordNetworks(r, f)
  {
  }

  /** The address text is well-behaved, the commands work, and a network of a peer of that name is to be routed. */
  ghost predicate ToRoute(c: Routes.Config, h: Host, effect: string -> Routes.Effect, name: string, f: Family, n: string) {
    && Sized(h) && Inverse(h) && Routes.NoWeights(h) && Routes.CommandsWork(c, effect)
    && AllCanonical(c.supernets) && !c.useDynamicRoutes
    && name != c.peerId && !Routes.Excluded(c, name) && !Routes.Dropped(c, h, n)
    && (if f == V4 then c.vpnIp != "" && c.routeAdd != "" else c.vpnIp6 != "" && c.routeAdd6 != "")
  }

  /**
    * What the backend publishes reaches the route table: after tinc-up, generated from the printed configuration, has
    * run, every address of a network in a record is routed, unless the record is this node, excluded, or its network is
    * dropped.
    */
  lemma PublishedNetworksRouted(c: Routes.Config, h: Host, effect: string -> Routes.Effect, ids: seq<string>,
                                peers: map<string, Record>, table: set<Option<Subnet>>, i: nat, f: Family, n: string, v: int)
    requires Listed(ids, peers) && AllClean(h, ids, peers) && i < |ids|
    ensures n in RecordNetworks(peers[ids[i]], f) && ToRoute(c, h, effect, ids[i], f, n) ==>
              && Parse(h, n).Some?
              && (InNet(Parse(h, n).value, v) ==>
                    var script := Routes.Script(c, h, ParseText(h, Published(ids, peers)), true);
                    Routes.Covered(Routes.Execute(h, effect, script, table), f, v))
  {
    if n in RecordNetworks(peers[ids[i]], f) && ToRoute(c, h, effect, ids[i], f, n) {
      PublishedPeer(h, ids, peers, i, f);
      var ps := ParseText(h, Published(ids, peers));
      var p :| p in ps && p.name == ids[i] && Routes.Networks(p, f) == RecordNetworks(peers[ids[i]], f);
      ReachesRoutes(c, h, effect, ps, table, p, f, n, v);
    }
  }

  lemma ReachesRoutes(c: Routes.Config, h: Host, effect: string -> Routes.Effect, ps: seq<Peer>, table: set<Option<Subnet>>,
                      p: Peer, f: Family, n: string, v: int)
    requires ToRoute(c, h, effect, p.name, f, n) && PeersValid(h, ps) && p in ps && n in Routes.Networks(p, f)
    ensures Parse(h, n).Some?
    ensures InNet(Parse(h, n).value, v) ==> Routes.Covered(Routes.Execute(h, effect, Routes.Script(c, h, ps, true), table), f, v)
  {
    Routes.RoutingPreserved(c, h, effect, ps, table, p, f, n, v);
  }

  /** A configured list finds a match for every query some entry includes exactly when no entry hides a later one. */
  lemma ConfiguredListComplete(h: Host, raw: seq<RawEntry>)
    requires Sized(h)
    ensures AllCanonical(ListedSubnets(h, raw))
    ensures Complete(ListedSubnets(h, raw)) <==> NoneHidden(ListedSubnets(h, raw))
  {
    ListedCanonical(h, raw);
    CompleteIffNoneHidden(ListedSubnets(h, raw));
  }

  /** Whatever is fetched, in every round of every run the peers the tinc files are written from have valid subnets. */
  lemma {:induction false} PeersStayValid(c: Setup, file: Option<string>, inputs: seq<Input>)
    ensures var s := After(c, Begin(file), inputs);
            PeersValid(c.h, s.peers) && PeersValid(c.h, s.generated)
  {
    if inputs != [] {
      var front := inputs[..|inputs| - 1];
      PeersStayValid(c, file, front);
      var s := After(c, Begin(file), front);
      var d := Data(c, s, inputs[|inputs| - 1]);
      if d.Some? {
        StoredSubnetsValid(c.h, s.peers, UpToNul(d.value));
      }
    }
  }

  /** So the scripts of every run route what they should. */
  lemma GeneratedNetworksRouted(c: Setup, rc: Routes.Config, effect: string -> Routes.Effect, file: Option<string>,
                                inputs: seq<Input>, table: set<Option<Subnet>>, p: Peer, f: Family, n: string, v: int)
    requires p in After(c, Begin(file), inputs).generated && n in Routes.Networks(p, f)
    ensures ToRoute(rc, c.h, effect, p.name, f, n) ==>
              && Parse(c.h, n).Some?
              && (InNet(Parse(c.h, n).value, v) ==>
                    var script := Routes.Script(rc, c.h, After(c, Begin(file), inputs).generated, true);
                    Routes.Covered(Routes.Execute(c.h, effect, script, table), f, v))
  {
    if ToRoute(rc, c.h, effect, p.name, f, n) {
      PeersStayValid(c, file, inputs);
      ReachesRoutes(rc, c.h, effect, After(c, Begin(file), inputs).generated, table, p, f, n, v);
    }
  }
}
