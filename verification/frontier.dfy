/**
 * Merging the updates of one frontier. The nodes of a fan-out all read the
 * same snapshot and their updates are folded into the state one after the
 * other; this module states when the fold order cannot matter, and what the
 * fold does when a whole subgraph's final state is merged as one update.
 */
module Frontier {
  import opened Wrappers
  import opened Values
  import opened Reducers
  import opened WorkflowState

  /** Folds a frontier's updates into the state, left to right. */
  function FoldUpdates(s: State, us: seq<Update>): State
    decreases |us|
  {
    if |us| == 0 then s else FoldUpdates(Apply(s, us[0]), us[1..])
  }

  /** At most one of two optional values is present. */
  predicate AtMostOne<T>(a: Option<T>, b: Option<T>) {
    a.None? || b.None?
  }

  /** Two `merge_dicts` writes that own disjoint keys. */
  predicate DisjointWrites<K, V>(a: Option<map<K, V>>, b: Option<map<K, V>>) {
    a.None? || b.None? || a.value.Keys !! b.value.Keys
  }

  /**
   * Two updates are independent when no order-sensitive channel (concatenation,
   * `unique_list_merge`) has two writers and the `merge_dicts` writers own disjoint keys.
   */
  predicate Independent(u: Update, v: Update) {
    && DisjointWrites(u.userInput, v.userInput)
    && AtMostOne(u.messages, v.messages)
    && AtMostOne(u.palmIds, v.palmIds)
    && DisjointWrites(u.sraIdentifiers, v.sraIdentifiers)
    && DisjointWrites(u.metadataCounts, v.metadataCounts)
    && AtMostOne(u.mwasResults, v.mwasResults)
    && AtMostOne(u.virusFamilies, v.virusFamilies)
    && DisjointWrites(u.validationReport, v.validationReport)
    && DisjointWrites(u.anomalyReport, v.anomalyReport)
  }

  /** Every two updates at different positions are independent. */
  predicate PairwiseIndependent(us: seq<Update>) {
    forall i, j :: 0 <= i < |us| && 0 <= j < |us| && i != j ==> Independent(us[i], us[j])
  }

  lemma MergeMapCommutes<K, V>(m: map<K, V>, a: Option<map<K, V>>, b: Option<map<K, V>>)
    requires DisjointWrites(a, b)
    ensures MergeMap(MergeMap(m, a), b) == MergeMap(MergeMap(m, b), a)
  {
    if a.Some? && b.Some? {
      var l := MergeMap(MergeMap(m, a), b);
      var r := MergeMap(MergeMap(m, b), a);
      assert l.Keys == r.Keys;
      forall k | k in l
        ensures l[k] == r[k]
      {
      }
    }
  }

  /** Two independent updates commute. */
  lemma {:induction false} ApplyCommutes(s: State, u: Update, v: Update)
    requires Independent(u, v)
    ensures Apply(Apply(s, u), v) == Apply(Apply(s, v), u)
  {
    MergeMapCommutes(s.userInput, u.userInput, v.userInput);
    MergeMapCommutes(s.sraIdentifiers, u.sraIdentifiers, v.sraIdentifiers);
    MergeMapCommutes(s.metadataCounts, u.metadataCounts, v.metadataCounts);
    MergeMapCommutes(s.validationReport, u.validationReport, v.validationReport);
    MergeMapCommutes(s.anomalyReport, u.anomalyReport, v.anomalyReport);
  }

  /** Removing position `k > 0` keeps the head and removes position `k - 1` of the tail. */
  lemma RemoveAfterHead<T>(us: seq<T>, k: nat)
    requires 0 < k < |us|
    ensures (us[..k] + us[k + 1..])[0] == us[0]
    ensures (us[..k] + us[k + 1..])[1..] == us[1..][..k - 1] + us[1..][k..]
    ensures us[1..][k - 1] == us[k]
  {
  }

  /** Removing position 0 leaves the tail. */
  lemma RemoveHead<T>(us: seq<T>)
    requires 0 < |us|
    ensures us[..0] + us[1..] == us[1..]
  {
  }

  /** An update independent of everything before it can be applied first. */
  lemma {:induction false} MoveToFront(s: State, us: seq<Update>, k: nat)
    requires k < |us|
    requires forall i :: 0 <= i < k ==> Independent(us[i], us[k])
    ensures FoldUpdates(s, us) == FoldUpdates(Apply(s, us[k]), us[..k] + us[k + 1..])
    decreases k
  {
    if k != 0 {
      var rest := us[1..];
      RemoveAfterHead(us, k);
      MoveToFront(Apply(s, us[0]), rest, k - 1);
      ApplyCommutes(s, us[0], us[k]);
    } else {
      RemoveHead(us);
    }
  }

  /** Removing one position keeps the remaining updates pairwise independent. */
  lemma RemoveKeepsIndependent(us: seq<Update>, k: nat)
    requires k < |us| && PairwiseIndependent(us)
    ensures PairwiseIndependent(us[..k] + us[k + 1..])
  {
    var r := us[..k] + us[k + 1..];
    forall i, j | 0 <= i < |r| && 0 <= j < |r| && i != j
      ensures Independent(r[i], r[j])
    {
      var i' := if i < k then i else i + 1;
      var j' := if j < k then j else j + 1;
      assert r[i] == us[i'] && r[j] == us[j'];
    }
  }

  /** Taking the first element off one sequence and an equal element off a permutation of it leaves permutations. */
  lemma RemoveMatching<T>(us: seq<T>, vs: seq<T>, k: nat)
    requires multiset(us) == multiset(vs)
    requires |us| != 0 && k < |vs| && vs[k] == us[0]
    ensures multiset(us[1..]) == multiset(vs[..k] + vs[k + 1..])
  {
    var x := us[0];
    var a, b := multiset(us[1..]), multiset(vs[..k] + vs[k + 1..]);
    assert vs == vs[..k] + [x] + vs[k + 1..];
    assert us == [x] + us[1..];
    assert multiset([x]) == multiset{x};
    assert multiset(us) == multiset{x} + a;
    assert multiset(vs) == multiset(vs[..k]) + multiset{x} + multiset(vs[k + 1..]);
    assert b == multiset(vs[..k]) + multiset(vs[k + 1..]);
    forall y
      ensures a[y] == b[y]
    {
      assert multiset(us)[y] == multiset(vs)[y];
    }
  }

  /**
   * The merge-ordering guarantee: when a frontier's updates are pairwise
   * independent, every order of merging them gives the same state.
   */
  lemma {:induction false} FoldOrderIrrelevant(s: State, us: seq<Update>, vs: seq<Update>)
    requires multiset(us) == multiset(vs)
    requires PairwiseIndependent(vs)
    ensures FoldUpdates(s, us) == FoldUpdates(s, vs)
    decreases |us|
  {
    assert |us| == |multiset(us)| == |multiset(vs)| == |vs|;
    if |us| != 0 {
      var x := us[0];
      assert x in multiset(vs);
      var k :| 0 <= k < |vs| && vs[k] == x;
      MoveToFront(s, vs, k);
      RemoveMatching(us, vs, k);
      RemoveKeepsIndependent(vs, k);
      FoldOrderIrrelevant(Apply(s, x), us[1..], vs[..k] + vs[k + 1..]);
    }
  }

  /** Folding never loses anything a reducer keeps. */
  lemma {:induction false} FoldGrows(s: State, us: seq<Update>)
    ensures Grows(s, FoldUpdates(s, us))
    decreases |us|
  {
    if |us| != 0 {
      ApplyGrows(s, us[0]);
      FoldGrows(Apply(s, us[0]), us[1..]);
    }
  }

  /** Folding keeps the de-duplicated channels duplicate-free, only ever appending to them. */
  lemma {:induction false} FoldKeepsDupFree(s: State, us: seq<Update>)
    requires DupFree(s)
    ensures DupFree(FoldUpdates(s, us))
    ensures |s.palmIds| <= |FoldUpdates(s, us).palmIds|
    ensures FoldUpdates(s, us).palmIds[..|s.palmIds|] == s.palmIds
    ensures |s.virusFamilies| <= |FoldUpdates(s, us).virusFamilies|
    ensures FoldUpdates(s, us).virusFamilies[..|s.virusFamilies|] == s.virusFamilies
    decreases |us|
  {
    if |us| != 0 {
      var t := Apply(s, us[0]);
      ApplyKeepsDupFree(s, us[0]);
      FoldKeepsDupFree(t, us[1..]);
      var f := FoldUpdates(s, us);
      assert f.palmIds[..|s.palmIds|] == f.palmIds[..|t.palmIds|][..|s.palmIds|];
      assert f.virusFamilies[..|s.virusFamilies|] == f.virusFamilies[..|t.virusFamilies|][..|s.virusFamilies|];
    }
  }

  /** A compiled subgraph used as a node returns its whole final state as the node's update. */
  function FinalStateAsUpdate(t: State): Update {
    Update(Some(t.userInput), Some(t.messages), Some(t.palmIds), Some(t.sraIdentifiers),
           Some(t.metadataCounts), Some(t.mwasResults), Some(t.virusFamilies),
           Some(t.validationReport), Some(t.anomalyReport))
  }

  /**
   * Merging a subgraph's final state back into the parent with the parent's
   * reducers: the dictionary and de-duplicated channels end exactly as the
   * subgraph left them, but the concatenated channels hold the parent's list
   * twice, once before the subgraph's copy of it.
   */
  lemma SubgraphMergeBack(p: State, us: seq<Update>)
    requires DupFree(p)
    ensures var c := FoldUpdates(p, us);
            var r := Apply(p, FinalStateAsUpdate(c));
            && r.userInput == c.userInput
            && r.palmIds == c.palmIds
            && r.sraIdentifiers == c.sraIdentifiers
            && r.metadataCounts == c.metadataCounts
            && r.virusFamilies == c.virusFamilies
            && r.validationReport == c.validationReport
            && r.anomalyReport == c.anomalyReport
            && r.messages == p.messages + c.messages
            && r.mwasResults == p.mwasResults + c.mwasResults
  {
    var c := FoldUpdates(p, us);
    FoldGrows(p, us);
    FoldKeepsDupFree(p, us);
    DedupRepeatedPrefix(p.palmIds, c.palmIds);
    DedupRepeatedPrefix(p.virusFamilies, c.virusFamilies);
    MergeDictsAbsorbs(p.userInput, c.userInput);
    MergeDictsAbsorbs(p.sraIdentifiers, c.sraIdentifiers);
    MergeDictsAbsorbs(p.metadataCounts, c.metadataCounts);
    MergeDictsAbsorbs(p.validationReport, c.validationReport);
    MergeDictsAbsorbs(p.anomalyReport, c.anomalyReport);
  }

  /** So the embedded run equals the direct run exactly when the parent's concatenated channels were empty. */
  lemma SubgraphMergeBackExact(p: State, us: seq<Update>)
    requires DupFree(p)
    ensures Apply(p, FinalStateAsUpdate(FoldUpdates(p, us))) == FoldUpdates(p, us)
        <==> p.messages == [] && p.mwasResults == []
  {
    var c := FoldUpdates(p, us);
    SubgraphMergeBack(p, us);
    if p.messages == [] && p.mwasResults == [] {
      assert p.messages + c.messages == c.messages;
      assert p.mwasResults + c.mwasResults == c.mwasResults;
    }
  }

  /** The update writes key `k` of `metadata_counts`. */
  predicate WritesCountsKey(u: Update, k: string) {
    u.metadataCounts.Some? && k in u.metadataCounts.value
  }

  /** A `metadata_counts` key no update of the fold writes keeps its presence and value. */
  lemma {:induction false} FoldKeepsUnwrittenKey(s: State, us: seq<Update>, k: string)
    requires forall w :: w in us ==> !WritesCountsKey(w, k)
    ensures k in FoldUpdates(s, us).metadataCounts <==> k in s.metadataCounts
    ensures k in s.metadataCounts ==> FoldUpdates(s, us).metadataCounts[k] == s.metadataCounts[k]
    decreases |us|
  {
    if |us| != 0 {
      assert us[0] in us;
      FoldKeepsUnwrittenKey(Apply(s, us[0]), us[1..], k);
    }
  }

  /** A key already holding `x` still holds it when every writer of it in the fold writes `x`. */
  lemma {:induction false} FoldKeepsAgreedValue(s: State, us: seq<Update>, k: string, x: Value)
    requires k in s.metadataCounts && s.metadataCounts[k] == x
    requires forall w :: w in us && WritesCountsKey(w, k) ==> w.metadataCounts.value[k] == x
    ensures k in FoldUpdates(s, us).metadataCounts && FoldUpdates(s, us).metadataCounts[k] == x
    decreases |us|
  {
    if |us| != 0 {
      assert us[0] in us;
      FoldKeepsAgreedValue(Apply(s, us[0]), us[1..], k, x);
    }
  }

  /**
   * A `metadata_counts` key that some update of the fold writes, where every
   * writer of it writes the same value, ends holding that value whatever the
   * order: disjoint writers cannot overwrite each other.
   */
  lemma {:induction false} FoldHoldsWrittenValue(s: State, us: seq<Update>, v: Update, k: string)
    requires v in us && WritesCountsKey(v, k)
    requires forall w :: w in us && WritesCountsKey(w, k) ==> w.metadataCounts.value[k] == v.metadataCounts.value[k]
    ensures k in FoldUpdates(s, us).metadataCounts
    ensures FoldUpdates(s, us).metadataCounts[k] == v.metadataCounts.value[k]
    decreases |us|
  {
    assert us[0] in us;
    if WritesCountsKey(us[0], k) {
      FoldKeepsAgreedValue(Apply(s, us[0]), us[1..], k, v.metadataCounts.value[k]);
    } else {
      assert v in us[1..];
      FoldHoldsWrittenValue(Apply(s, us[0]), us[1..], v, k);
    }
  }

  /** A `metadata_counts` key with a single writer in the fold ends holding that writer's value. */
  lemma FoldSoleWriter(s: State, us: seq<Update>, v: Update, k: string)
    requires v in us && WritesCountsKey(v, k)
    requires forall w :: w in us && w != v ==> !WritesCountsKey(w, k)
    ensures k in FoldUpdates(s, us).metadataCounts
    ensures FoldUpdates(s, us).metadataCounts[k] == v.metadataCounts.value[k]
  {
    FoldHoldsWrittenValue(s, us, v, k);
  }

  /** A frontier of two updates folds as the first applied, then the second. */
  lemma FoldPair(s: State, u: Update, v: Update)
    ensures FoldUpdates(s, [u, v]) == Apply(Apply(s, u), v)
  {
    var s1 := Apply(s, u);
    assert [u, v][1..] == [v];
    assert FoldUpdates(s, [u, v]) == FoldUpdates(s1, [v]);
    assert [v][1..] == [];
    assert FoldUpdates(s1, [v]) == FoldUpdates(Apply(s1, v), []);
  }
}
