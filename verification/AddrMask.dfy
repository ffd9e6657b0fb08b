/** addrmask.c and parse_and_free_raw_subnetlist of config.c: the in-place code over byte buffers and linked entries. */
module AddrMask {
  import opened Options
  import opened CStr
  import opened Prefix
  import opened Subnets
  import opened FirstHit

  /** mask_addr: keeps the leading networkBits of the first count bytes, in place. */
  method MaskAddr(a: array<bv8>, count: nat, networkBits: nat)
    requires count <= a.Length
    modifies a
    ensures a[..count] == Masked(old(a[..count]), networkBits)
    ensures forall i | count <= i < a.Length :: a[i] == old(a[i])
  {
    if networkBits > count * 8 {
      MaskWhole(a[..count], networkBits);
      return;
    }
    ghost var b := a[..count];
    ghost var r := Masked(b, networkBits);
    MaskedParts(b, networkBits);
    var p := networkBits / 8;
    var bits := networkBits % 8;
    if bits != 0 {
      a[p] := a[p] & ShiftedOnes(bits);
      p := p + 1;
    }
    while p < count
      invariant networkBits / 8 <= p <= count && (bits != 0 ==> networkBits / 8 < p)
      invariant forall i | 0 <= i < p :: a[i] == r[i]
      invariant forall i | p <= i < a.Length :: a[i] == old(a[i])
    {
      a[p] := 0;
      p := p + 1;
    }
  }

  /** The three stretches of a masked byte string: kept, cut inside a byte, cleared. */
  lemma MaskedParts(b: Bytes, k: nat)
    ensures forall i | 0 <= i < k / 8 && i < |b| :: Masked(b, k)[i] == b[i]
    ensures k % 8 != 0 && k / 8 < |b| ==> Masked(b, k)[k / 8] == b[k / 8] & ShiftedOnes(k % 8)
    ensures forall i | 0 <= i < |b| && k <= 8 * i :: Masked(b, k)[i] == 0
  {
    forall i | 0 <= i < |b| && (i < k / 8 || k <= 8 * i)
      ensures Masked(b, k)[i] == if i < k / 8 then b[i] else 0
    {
      MaskByteEdge(b[i], k - 8 * i);
    }
    if k % 8 != 0 && k / 8 < |b| {
      assert k - 8 * (k / 8) == k % 8;
      assert Masked(b, k)[k / 8] == MaskByte(b[k / 8], k % 8);
    }
  }

  const ADDR_MAX_BYTES: nat := 16

  class AddrInfo {
    const net: array<bv8>
    const mask: array<bv8>
    var family: Family
    var byteCount: nat
    var bitCount: nat
    var maskShift: nat
    var next: AddrInfo?

    ghost predicate Shape() {
      net.Length == mask.Length == ADDR_MAX_BYTES && net != mask
    }

    /** The subnet an entry stands for. */
    ghost function View(): Subnet
      requires Shape()
      reads this, net
    {
      Subnet(family, net[..ByteCount(family)], maskShift)
    }

    ghost predicate Valid()
      reads this, net, mask
    {
      && Shape()
      && byteCount == ByteCount(family) && bitCount == BitCount(family)
      && maskShift <= bitCount
      && mask[..byteCount] == Masked(AllOnes(byteCount), maskShift)
      && Canonical(View())
    }

    constructor ()
      ensures Shape() && fresh(net) && fresh(mask) && next == null
    {
      net := new bv8[ADDR_MAX_BYTES](_ => 0);
      mask := new bv8[ADDR_MAX_BYTES](_ => 0);
      family, byteCount, bitCount, maskShift, next := V4, 0, 0, 0, null;
    }

    /** addrmask_parse. */
    method Parse(h: Host, text: string) returns (res: bool)
      requires Shape() && Sized(h)
      modifies this, net, mask
      ensures res <==> Subnets.Parse(h, text).Some?
      ensures res ==> Valid() && View() == Subnets.Parse(h, text).value
      ensures next == null
    {
      next := null;
      var split := SplitText(text);
      if split.None? {
        return false;
      }
      var (pattern, mask_) := split.value;
      family := AddrFamily(pattern);
      bitCount, byteCount := BitCount(family), ByteCount(family);
      match mask_ {
        case Some(m) =>
          if m == [] || !AllDigits(m) {
            return false;
          }
          maskShift := StoredShift(m);
          if maskShift > bitCount {
            return false;
          }
          var bytes := h.lookup(pattern, family);
          if bytes.None? {
            return false;
          }
          CopyBytes(net, bytes.value);
          SetMask();
          ClearHostBits(bytes.value);
          MaskCompose(bytes.value, maskShift, maskShift);
        case None =>
          var bytes := h.lookup(pattern, family);
          if bytes.None? {
            return false;
          }
          CopyBytes(net, bytes.value);
          maskShift := bitCount;
          Fill(mask, byteCount, 0xFF);
          MaskWhole(AllOnes(byteCount), maskShift);
          MaskWhole(bytes.value, maskShift);
      }
      return true;
    }

    /** The mask bytes for the prefix length; no bit at all for length 0. */
    method SetMask()
      requires Shape() && byteCount == ByteCount(family) && maskShift <= 8 * byteCount
      modifies mask
      ensures mask[..byteCount] == Masked(AllOnes(byteCount), maskShift)
    {
      if maskShift > 0 {
        Fill(mask, byteCount, 0xFF);
        MaskAddr(mask, byteCount, maskShift);
      } else {
        Fill(mask, byteCount, 0);
        assert forall i | 0 <= i < byteCount :: Masked(AllOnes(byteCount), 0)[i] == 0;
      }
    }

    /** The sanity loop: on the first byte with a host bit set, the whole address is masked. */
    method ClearHostBits(ghost b: Bytes)
      requires Shape() && byteCount == ByteCount(family)
      requires net[..byteCount] == b
      requires mask[..byteCount] == Masked(AllOnes(byteCount), maskShift)
      modifies net
      ensures net[..byteCount] == Masked(b, maskShift)
    {
      ghost var k := maskShift;
      forall j | 0 <= j < byteCount ensures mask[j] == Leading(k - 8 * j) {
        assert mask[j] == mask[..byteCount][j];
      }
      MaskCompose(b, k, k);
      for i := 0 to byteCount
        invariant net[..byteCount] == b || net[..byteCount] == Masked(b, k)
        invariant forall j | 0 <= j < i :: net[j] == Masked(b, k)[j]
      {
        assert net[i] == net[..byteCount][i];
        HostBits(b[i], k - 8 * i);
        if net[i] & !mask[i] != 0 {
          MaskAddr(net, byteCount, maskShift);
        }
      }
    }
  }

  /** addrmask_init: a new entry, or null for a text that does not parse. */
  method Init(h: Host, text: string) returns (result: AddrInfo?)
    requires Sized(h)
    ensures result == null <==> Subnets.Parse(h, text).None?
    ensures result != null ==>
              && fresh(result) && result.Valid() && result.View() == Subnets.Parse(h, text).value && result.next == null
  {
    var info := new AddrInfo();
    var ok := info.Parse(h, text);
    result := if ok then info else null;
  }

  /** The chain of next pointers from head visits exactly es. */
  ghost predicate Chain(head: AddrInfo?, es: seq<AddrInfo>)
    reads es
  {
    && (if es == [] then head == null else head == es[0] && es[|es| - 1].next == null)
    && (forall i | 0 <= i < |es| - 1 :: es[i].next == es[i + 1])
  }

  ghost predicate Stands(e: AddrInfo, v: Subnet)
    reads e, e.net, e.mask
  {
    e.Valid() && e.View() == v
  }

  /** The chain from head visits exactly es, whose subnets are vs. */
  ghost predicate Linked(head: AddrInfo?, es: seq<AddrInfo>, vs: seq<Subnet>)
    reads es, set e <- es :: e.net, set e <- es :: e.mask
  {
    |es| == |vs| && Chain(head, es) && forall i | 0 <= i < |es| :: Stands(es[i], vs[i])
  }

  /** addrmask_match: the entry of the list that includes the subnet written in addr, by the first-hit rule. */
  method Match(matches: AddrInfo?, ghost es: seq<AddrInfo>, ghost vs: seq<Subnet>, h: Host, addr: string)
    returns (r: AddrInfo?)
    requires Linked(matches, es, vs) && Sized(h)
    ensures match Parse(h, addr)
            case None => r == null
            case Some(q) => if Matches(vs, q) then r == es[MatchIndex(vs, q)] else r == null
  {
    if matches == null {
      return null;
    }
    var info := new AddrInfo();
    var ok := info.Parse(h, addr);
    if !ok {
      return null;
    }
    r := FindEntry(matches, es, vs, info);
  }

  predicate ByteHit(a: bv8, m: bv8, n: bv8) { a & m == n }

  /** The bytewise test with a netmask. */
  ghost predicate AllHit(a: Bytes, m: Bytes, n: Bytes) {
    |a| == |m| == |n| && forall i | 0 <= i < |a| :: ByteHit(a[i], m[i], n[i])
  }

  /** The bytewise test with a netmask is equality after masking. */
  lemma AllHitIsMasked(a: Bytes, n: Bytes, k: nat)
    requires |a| == |n|
    ensures AllHit(a, Masked(AllOnes(|a|), k), n) <==> Masked(a, k) == n
  {
    var m := Masked(AllOnes(|a|), k);
    forall i | 0 <= i < |a| ensures ByteHit(a[i], m[i], n[i]) <==> Masked(a, k)[i] == n[i] {
      HostBits(0xFF, k - 8 * i);
    }
  }

  /** Comparing an entry of the query's family, netmask with some bits zero. */
  method CoversMasked(entry: AddrInfo, info: AddrInfo) returns (found: bool)
    requires entry.Valid() && info.Valid() && entry.family == info.family
    ensures found <==> Hits(entry.View(), info.View())
  {
    found := EqualMasked(info.net, entry.mask, entry.net, entry.byteCount);
    AllHitIsMasked(info.View().net, entry.View().net, entry.maskShift);
  }

  /** Comparing an entry of the query's family, all-ones netmask. */
  method CoversExact(entry: AddrInfo, info: AddrInfo) returns (found: bool)
    requires entry.Valid() && info.Valid() && entry.family == info.family && entry.maskShift == entry.bitCount
    ensures found <==> Hits(entry.View(), info.View())
  {
    found := EqualBytes(info.net, entry.net, entry.byteCount);
    MaskWhole(info.View().net, entry.maskShift);
  }

  /** The choice between the two comparison loops. */
  method Covers(entry: AddrInfo, info: AddrInfo) returns (found: bool)
    requires entry.Valid() && info.Valid() && entry.family == info.family
    ensures found <==> Hits(entry.View(), info.View())
  {
    if entry.maskShift < entry.bitCount {
      found := CoversMasked(entry, info);
    } else {
      found := CoversExact(entry, info);
    }
  }

  /** The loop for a netmask with some bits zero. */
  method EqualMasked(a: array<bv8>, m: array<bv8>, n: array<bv8>, count: nat) returns (b: bool)
    requires count <= a.Length && count <= m.Length && count <= n.Length
    ensures b <==> AllHit(a[..count], m[..count], n[..count])
  {
    ghost var x, y, z := a[..count], m[..count], n[..count];
    for i := 0 to count
      invariant AllHit(x[..i], y[..i], z[..i])
    {
      assert x[i] == a[i] && y[i] == m[i] && z[i] == n[i];
      AllHitStep(x, y, z, i);
      if a[i] & m[i] != n[i] {
        return false;
      }
    }
    assert x[..count] == x && y[..count] == y && z[..count] == z;
    return true;
  }

  lemma AllHitStep(x: Bytes, y: Bytes, z: Bytes, i: nat)
    requires i < |x| == |y| == |z| && AllHit(x[..i], y[..i], z[..i])
    ensures x[i] & y[i] == z[i] ==> AllHit(x[..i + 1], y[..i + 1], z[..i + 1])
    ensures x[i] & y[i] != z[i] ==> !AllHit(x, y, z)
  {
    assert x[i] & y[i] == z[i] <==> ByteHit(x[i], y[i], z[i]);
    forall j | 0 <= j < i ensures ByteHit(x[j], y[j], z[j]) {
      assert ByteHit(x[..i][j], y[..i][j], z[..i][j]);
    }
  }

  /** The loop for an all-ones netmask. */
  method EqualBytes(a: array<bv8>, n: array<bv8>, count: nat) returns (b: bool)
    requires count <= a.Length && count <= n.Length
    ensures b <==> a[..count] == n[..count]
  {
    for i := 0 to count
      invariant forall j | 0 <= j < i :: a[j] == n[j]
    {
      if a[i] != n[i] {
        assert a[..count][i] != n[..count][i];
        return false;
      }
    }
    return true;
  }

  /** One round of the search: the family, then the comparison loop. */
  method Probe(entry: AddrInfo, info: AddrInfo, ghost v: Subnet) returns (found: bool)
    requires Stands(entry, v) && info.Valid()
    ensures found <==> Hits(v, info.View())
  {
    if entry.family == info.family {
      found := Covers(entry, info);
    } else {
      found := false;
    }
  }

  /** The search loop of addrmask_match and the size check after it. */
  method FindEntry(matches: AddrInfo, ghost es: seq<AddrInfo>, ghost vs: seq<Subnet>, info: AddrInfo)
    returns (r: AddrInfo?)
    requires Linked(matches, es, vs) && info.Valid()
    ensures var q := info.View(); if Matches(vs, q) then r == es[MatchIndex(vs, q)] else r == null
  {
    ghost var q := info.View();
    var entry: AddrInfo? := matches;
    ghost var i := 0;
    while entry != null
      invariant 0 <= i <= |es|
      invariant entry == if i < |es| then es[i] else null
      invariant forall j | 0 <= j < i :: !Hits(vs[j], q)
      decreases |es| - i
    {
      assert Stands(es[i], vs[i]);
      var found := Probe(entry, info, vs[i]);
      if found {
        HitIndexUnique(vs, q, i);
        return if info.maskShift < entry.maskShift then null else entry;
      }
      entry := entry.next;
      i := i + 1;
    }
    HitIndexUnique(vs, q, |vs|);
    return null;
  }

  /** An entry of a settings list. */
  datatype RawEntry = Text(s: string) | Number(i: int)

  /** What one settings entry contributes: nothing unless it is a text that parses. */
  function EntrySubnet(h: Host, x: RawEntry): seq<Subnet> {
    if x.Text? && Parse(h, x.s).Some? then [Parse(h, x.s).value] else []
  }

  /** The subnets a settings list stands for, in written order. */
  function ListedSubnets(h: Host, raw: seq<RawEntry>): seq<Subnet> {
    if raw == [] then [] else EntrySubnet(h, raw[0]) + ListedSubnets(h, raw[1..])
  }

  lemma {:induction false} ListedTake(h: Host, raw: seq<RawEntry>, k: nat)
    requires k < |raw|
    ensures ListedSubnets(h, raw[..k + 1]) == ListedSubnets(h, raw[..k]) + EntrySubnet(h, raw[k])
  {
    if k == 0 {
      assert raw[..1][1..] == [];
    } else {
      assert raw[..k + 1][1..] == raw[1..][..k] && raw[..k][1..] == raw[1..][..k - 1];
      ListedTake(h, raw[1..], k - 1);
    }
  }

  /** Lists are read entry by entry, in order. */
  lemma {:induction false} ListedConcat(h: Host, a: seq<RawEntry>, b: seq<RawEntry>)
    ensures ListedSubnets(h, a + b) == ListedSubnets(h, a) + ListedSubnets(h, b)
  {
    if a == [] {
      assert a + b == b;
    } else {
      assert (a + b)[1..] == a[1..] + b;
      ListedConcat(h, a[1..], b);
    }
  }

  /** A number contributes nothing, a text the subnet it stands for, if it stands for one. */
  lemma ListedSingle(h: Host, text: string, i: int)
    ensures ListedSubnets(h, [Number(i)]) == []
    ensures Parse(h, text).None? ==> ListedSubnets(h, [Text(text)]) == []
    ensures Parse(h, text).Some? ==> ListedSubnets(h, [Text(text)]) == [Parse(h, text).value]
  {
    assert [Number(i)][1..] == [] && [Text(text)][1..] == [];
  }

  /** The list under construction, with prev at its end. */
  ghost predicate Building(head: AddrInfo?, prev: AddrInfo?, es: seq<AddrInfo>, vs: seq<Subnet>)
    reads es, set e <- es :: e.net, set e <- es :: e.mask
  {
    && Linked(head, es, vs)
    && prev == (if es == [] then null else es[|es| - 1])
    && forall i, j | 0 <= i < j < |es| :: es[i] != es[j]
  }

  /** A new entry goes behind the previous one. */
  method LinkLast(head: AddrInfo?, prev: AddrInfo?, current: AddrInfo, ghost es: seq<AddrInfo>, ghost vs: seq<Subnet>)
    returns (newHead: AddrInfo)
    requires Building(head, prev, es, vs) && current !in es && current.next == null && current.Valid()
    modifies if prev == null then {} else {prev}
    ensures Building(newHead, current, es + [current], vs + [current.View()])
    ensures current.View() == old(current.View())
  {
    ghost var v := current.View();
    if head == null {
      newHead := current;
    } else {
      newHead := head;
      if prev != null {
        prev.next := current;
      }
    }
    ghost var es' := es + [current];
    forall i | 0 <= i < |es'| - 1 ensures es'[i].next == es'[i + 1] {
      if i < |es| - 1 {
        assert old(es[i].next) == es[i + 1] && es[i] != es[|es| - 1];
      }
    }
    forall i | 0 <= i < |es| ensures Stands(es[i], vs[i]) {
      assert old(Stands(es[i], vs[i]));
    }
    assert Stands(current, v);
  }

  /** One round of the loop for a text entry: an invalid one is reported and left out. */
  method AppendText(h: Host, text: string, head: AddrInfo?, prev: AddrInfo?, ghost es: seq<AddrInfo>, ghost vs: seq<Subnet>)
    returns (head': AddrInfo?, prev': AddrInfo?, ghost es': seq<AddrInfo>, ghost vs': seq<Subnet>)
    requires Building(head, prev, es, vs) && Sized(h)
    modifies if prev == null then {} else {prev}
    ensures Building(head', prev', es', vs')
    ensures vs' == vs + EntrySubnet(h, Text(text))
    ensures forall e | e in es' && e !in es :: fresh(e)
  {
    var current := Init(h, text);
    if current == null {
      return head, prev, es, vs;
    }
    prev', es', vs' := current, es + [current], vs + [current.View()];
    head' := LinkLast(head, prev, current, es, vs);
  }

  /** parse_and_free_raw_subnetlist: links the valid entries in written order. */
  method ParseRawSubnetList(h: Host, raw: Option<seq<RawEntry>>)
    returns (addrlist: AddrInfo?, ghost es: seq<AddrInfo>)
    requires Sized(h)
    ensures Linked(addrlist, es, if raw.None? then [] else ListedSubnets(h, raw.value))
    ensures addrlist == null <==> raw.None? || ListedSubnets(h, raw.value) == []
  {
    addrlist, es := null, [];
    if raw.None? {
      return;
    }
    var prev: AddrInfo? := null;
    ghost var vs := [];
    for k := 0 to |raw.value|
      invariant vs == ListedSubnets(h, raw.value[..k])
      invariant Building(addrlist, prev, es, vs)
      invariant forall e | e in es :: fresh(e)
    {
      ListedTake(h, raw.value, k);
      if raw.value[k].Number? {
        continue;
      }
      assert prev != null ==> prev in es;
      addrlist, prev, es, vs := AppendText(h, raw.value[k].s, addrlist, prev, es, vs);
    }
    assert raw.value[..|raw.value|] == raw.value;
  }

  /** Every listed subnet is canonical, so the matching theorems apply to configured lists. */
  lemma {:induction false} ListedCanonical(h: Host, raw: seq<RawEntry>)
    requires Sized(h)
    ensures AllCanonical(ListedSubnets(h, raw))
  {
    if raw != [] {
      ListedCanonical(h, raw[1..]);
      if raw[0].Text? && Parse(h, raw[0].s).Some? {
        ParseCanonical(h, raw[0].s);
      }
    }
  }

  function AllOnes(n: nat): Bytes { seq(n, _ => 0xFF) }

  lemma HostBits(b: bv8, j: int)
    ensures b & !Leading(j) == 0 <==> b == MaskByte(b, j)
    ensures MaskByte(b, j) & !Leading(j) == 0
  {
  }

  method CopyBytes(a: array<bv8>, b: Bytes)
    requires |b| <= a.Length
    modifies a
    ensures a[..|b|] == b
  {
    forall i | 0 <= i < |b| {
      a[i] := b[i];
    }
  }

  method Fill(a: array<bv8>, n: nat, v: bv8)
    requires n <= a.Length
    modifies a
    ensures a[..n] == seq(n, _ => v)
  {
    forall i | 0 <= i < n {
      a[i] := v;
    }
  }
}
