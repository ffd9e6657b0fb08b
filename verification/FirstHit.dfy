/** First-hit matching of a subnet against a list (addrmask_match), on values. */
module FirstHit {
  import opened Prefix
  import opened Subnets

  ghost predicate AllCanonical(es: seq<Subnet>) {
    forall i | 0 <= i < |es| :: Canonical(es[i])
  }

  /** Index of the first entry holding the query's network address, or |es|. */
  function HitIndex(es: seq<Subnet>, q: Subnet): (i: nat)
    ensures i <= |es|
    ensures i < |es| ==> Hits(es[i], q)
    ensures forall j | 0 <= j < i :: !Hits(es[j], q)
  {
    if es == [] || Hits(es[0], q) then 0 else 1 + HitIndex(es[1..], q)
  }

  /** The entry addrmask_match returns, by index: the first hit, unless that one is narrower than the query. */
  function MatchIndex(es: seq<Subnet>, q: Subnet): (i: int)
    ensures -1 <= i < |es|
  {
    var k := HitIndex(es, q);
    if k < |es| && es[k].shift <= q.shift then k else -1
  }

  predicate Matches(es: seq<Subnet>, q: Subnet) { MatchIndex(es, q) >= 0 }

  lemma HitIndexUnique(es: seq<Subnet>, q: Subnet, i: nat)
    requires i <= |es| && (i < |es| ==> Hits(es[i], q)) && forall j | 0 <= j < i :: !Hits(es[j], q)
    ensures HitIndex(es, q) == i
  {
  }

  /** A match is sound: the entry found includes the query. */
  lemma MatchSound(es: seq<Subnet>, q: Subnet)
    requires AllCanonical(es) && Canonical(q) && Matches(es, q)
    ensures Includes(es[MatchIndex(es, q)], q)
  {
    MatchIsInclusion(es[MatchIndex(es, q)], q);
  }

  /** Whether first-hit matching finds an including entry for every query that has one. */
  ghost predicate Complete(es: seq<Subnet>)
    requires AllCanonical(es)
  {
    forall q | Canonical(q) :: Matches(es, q) <==> exists i | 0 <= i < |es| :: Includes(es[i], q)
  }

  /**
    * Entry i hides entry j: it comes first, lies strictly inside, is the first to hold its own network address,
    * and that address still starts a network one bit wider.
    */
  predicate Hides(es: seq<Subnet>, i: nat, j: nat)
    requires i < j < |es|
  {
    && es[i].family == es[j].family
    && es[j].shift < es[i].shift
    && Hits(es[j], es[i])
    && Masked(es[i].net, es[i].shift - 1) == es[i].net
    && HitIndex(es, es[i]) == i
  }

  predicate NoneHidden(es: seq<Subnet>) {
    forall i, j | 0 <= i < j < |es| :: !Hides(es, i, j)
  }

  /** A canonical network address does not change under a longer mask. */
  lemma LongerMask(q: Subnet, k: nat)
    requires Canonical(q) && q.shift <= k
    ensures Masked(q.net, k) == q.net
  {
    MaskCompose(q.net, q.shift, k);
  }

  /** The query one bit wider than a hiding entry is missed. */
  lemma HiddenIsMissed(es: seq<Subnet>, i: nat, j: nat)
    requires AllCanonical(es) && i < j < |es| && Hides(es, i, j)
    ensures var q := es[i].(shift := es[i].shift - 1);
            Canonical(q) && Includes(es[j], q) && !Matches(es, q)
  {
    var q := es[i].(shift := es[i].shift - 1);
    MatchIsInclusion(es[j], q);
    HitIndexUnique(es, q, i);
  }

  /** A query missed although entry j includes it shows an entry that hides j. */
  lemma MissedIsHidden(es: seq<Subnet>, q: Subnet, j: nat) returns (i: nat)
    requires AllCanonical(es) && Canonical(q) && !Matches(es, q)
    requires j < |es| && Includes(es[j], q)
    ensures i < j && Hides(es, i, j)
  {
    MatchIsInclusion(es[j], q);
    i := HitIndex(es, q);
    LongerMask(q, es[i].shift);
    LongerMask(q, es[i].shift - 1);
    HitIndexUnique(es, es[i], i);
  }

  /** First-hit matching is complete for every query exactly when no entry hides a later one. */
  lemma CompleteIffNoneHidden(es: seq<Subnet>)
    requires AllCanonical(es)
    ensures Complete(es) <==> NoneHidden(es)
  {
    if NoneHidden(es) {
      forall q | Canonical(q) ensures Matches(es, q) <==> exists i | 0 <= i < |es| :: Includes(es[i], q) {
        if Matches(es, q) {
          MatchSound(es, q);
        }
        if i: nat :| i < |es| && Includes(es[i], q) && !Matches(es, q) {
          var k := MissedIsHidden(es, q, i);
        }
      }
    } else {
      var i, j :| 0 <= i < j < |es| && Hides(es, i, j);
      HiddenIsMissed(es, i, j);
    }
  }

  /** Two usual ways to write a list are safe: disjoint entries, or wider ones before the ones nested in them. */
  lemma OrderedListsComplete(es: seq<Subnet>)
    requires AllCanonical(es)
    requires forall i, j | 0 <= i < j < |es| :: Includes(es[j], es[i]) ==> Includes(es[i], es[j])
    ensures Complete(es)
  {
    forall i, j | 0 <= i < j < |es| ensures !Hides(es, i, j) {
      MatchIsInclusion(es[j], es[i]);
      MatchIsInclusion(es[i], es[j]);
    }
    CompleteIffNoneHidden(es);
  }
}
