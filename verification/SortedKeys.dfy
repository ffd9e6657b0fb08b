/** The order in which the backend prints the peers: its sort over the names. */
module SortedKeys {
  import opened CStr
  import opened Subnets
  import opened PeerConfig
  import opened Printer
  import opened RoundTrip

  /** String order, character by character. */
  predicate Less(a: string, b: string) {
    if b == [] then false
    else if a == [] then true
    else if a[0] != b[0] then a[0] < b[0]
    else Less(a[1..], b[1..])
  }

  lemma {:induction false} LessTotal(a: string, b: string)
    ensures Less(a, b) || Less(b, a) || a == b
    ensures !(Less(a, b) && Less(b, a)) && !Less(a, a)
  {
    if a != [] {
      LessTotal(a[1..], if b != [] then b[1..] else []);
      if b != [] && a[0] == b[0] && a[1..] == b[1..] {
        assert a == [a[0]] + a[1..] && b == [b[0]] + b[1..];
      }
      LessTotal(a[1..], a[1..]);
    }
  }

  lemma {:induction false} LessTransitive(a: string, b: string, c: string)
    requires Less(a, b) && Less(b, c)
    ensures Less(a, c)
  {
    if a != [] && b[0] == a[0] && c[0] == b[0] {
      LessTransitive(a[1..], b[1..], c[1..]);
    }
  }

  predicate Sorted(ids: seq<string>) { forall i, j | 0 <= i < j < |ids| :: Less(ids[i], ids[j]) }

  /** All names, in order. */
  ghost predicate KeysInOrder(ids: seq<string>, keys: set<string>) {
    Sorted(ids) && forall k :: k in ids <==> k in keys
  }

  /** There is one way to list a set of names in order. */
  lemma {:induction false} KeysUnique(a: seq<string>, b: seq<string>, keys: set<string>)
    requires KeysInOrder(a, keys) && KeysInOrder(b, keys)
    ensures a == b
    decreases |a|
  {
    if a == [] {
      assert forall i | 0 <= i < |b| :: b[i] in b;
    } else {
      assert a[0] in keys;
      var j :| 0 <= j < |b| && b[j] == a[0];
      assert b[0] in keys;
      var i :| 0 <= i < |a| && a[i] == b[0];
      LessTotal(a[0], b[0]);
      TailInOrder(a, keys);
      TailInOrder(b, keys);
      KeysUnique(a[1..], b[1..], keys - {a[0]});
    }
  }

  lemma TailInOrder(a: seq<string>, keys: set<string>)
    requires a != [] && KeysInOrder(a, keys)
    ensures KeysInOrder(a[1..], keys - {a[0]})
  {
    forall k ensures k in a[1..] <==> k in keys - {a[0]} {
      if k in a[1..] {
        var i :| 0 <= i < |a[1..]| && a[1..][i] == k;
        assert Less(a[0], a[i + 1]);
        LessTotal(a[0], a[0]);
        assert k in a;
      }
      if k in keys - {a[0]} {
        var i :| 0 <= i < |a| && a[i] == k;
        assert a[1..][i - 1] == k;
      }
    }
  }

  function Insert(s: seq<string>, k: string): (r: seq<string>)
    ensures forall x :: x in r <==> x == k || x in s
  {
    if s == [] || Less(k, s[0]) then [k] + s else [s[0]] + Insert(s[1..], k)
  }

  lemma {:induction false} InsertSorted(s: seq<string>, k: string)
    requires Sorted(s) && k !in s
    ensures Sorted(Insert(s, k))
  {
    var r := Insert(s, k);
    if s != [] {
      if Less(k, s[0]) {
        forall i | 0 <= i < |s| ensures Less(k, s[i]) {
          if i > 0 { LessTransitive(k, s[0], s[i]); }
        }
      } else {
        InsertSorted(s[1..], k);
        LessTotal(k, s[0]);
        forall j | 1 <= j < |r| ensures Less(r[0], r[j]) {
          assert r[j] in Insert(s[1..], k);
        }
      }
    }
  }

  /** And there is always one. */
  lemma {:induction false} KeysExist(keys: set<string>) returns (ids: seq<string>)
    ensures KeysInOrder(ids, keys)
  {
    if keys == {} {
      ids := [];
    } else {
      var k :| k in keys;
      var rest := KeysExist(keys - {k});
      InsertSorted(rest, k);
      ids := Insert(rest, k);
    }
  }

  lemma KeysListed(ids: seq<string>, peers: map<string, Record>)
    requires KeysInOrder(ids, peers.Keys)
    ensures Listed(ids, peers)
  {
    assert forall i | 0 <= i < |ids| :: ids[i] in ids;
  }

  /** Exactly the peers expected, each once, in the order of the names. */
  ghost predicate AllInOrder(ps: seq<Peer>, peers: map<string, Record>) {
    && (forall p | p in ps :: p.name in peers && p == Expected(p.name, peers[p.name]))
    && (forall i, j | 0 <= i < j < |ps| :: Less(ps[i].name, ps[j].name))
    && (forall id | id in peers :: Expected(id, peers[id]) in ps)
  }

  lemma ExpectedInOrder(ids: seq<string>, peers: map<string, Record>)
    requires KeysInOrder(ids, peers.Keys) && Listed(ids, peers)
    ensures AllInOrder(AllExpected(ids, peers), peers)
  {
    var es := AllExpected(ids, peers);
    assert forall i | 0 <= i < |es| :: es[i].name == ids[i];
    forall id | id in peers ensures Expected(id, peers[id]) in es {
      assert id in ids;
      var i :| 0 <= i < |ids| && ids[i] == id;
      assert es[i] == Expected(id, peers[id]);
    }
  }

  /** Any finite set of well-formed peers is read back completely, each once, in the order of the names. */
  lemma SortedRoundTrip(h: Host, ids: seq<string>, peers: map<string, Record>)
    requires KeysInOrder(ids, peers.Keys) && Listed(ids, peers) && AllClean(h, ids, peers)
    ensures AllInOrder(ParseText(h, PREAMBLE + Sections(Blocks(ids, peers))), peers)
  {
    PrintedConfigReadsBack(h, [], ids, peers);
    var es := AllExpected(ids, peers);
    assert [] + es == es;
    ExpectedInOrder(ids, peers);
  }
}
