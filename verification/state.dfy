/**
 * The shared `State` of the virus-metadata workflows and the field-wise
 * application of a node's sparse update, each field merged with the reducer
 * the schema declares for it:
 *
 *   user_input, sra_identifiers, metadata_counts,
 *   validation_report, anomaly_report     merge_dicts
 *   messages, mwas_results                operator.add (concatenation)
 *   palm_ids, virus_families              unique_list_merge
 */
module WorkflowState {
  import opened Wrappers
  import opened Values
  import opened Reducers

  /** A chat message `{"role": ..., "content": ...}`. */
  datatype Message = Message(role: string, content: string)

  /** `UserInput`: `hypothesis` and `species_label`, either of which may be missing. */
  type UserInput = map<string, string>

  /** `SRAIdentifiers`: `run`, `biosample` and `bioproject`, each a dict holding `totalCount` and `single`. */
  type SraIdentifiers = map<string, Dict>

  /** The workflow state; every reduced channel starts at its type's empty value. */
  datatype State = State(
    userInput: UserInput,
    messages: seq<Message>,
    palmIds: seq<string>,
    sraIdentifiers: SraIdentifiers,
    metadataCounts: Dict,
    mwasResults: seq<Dict>,
    virusFamilies: seq<Value>,
    validationReport: Dict,
    anomalyReport: Dict)

  /** A node's sparse return value: `None` marks a key the node did not return. */
  datatype Update = Update(
    userInput: Option<UserInput>,
    messages: Option<seq<Message>>,
    palmIds: Option<seq<string>>,
    sraIdentifiers: Option<SraIdentifiers>,
    metadataCounts: Option<Dict>,
    mwasResults: Option<seq<Dict>>,
    virusFamilies: Option<seq<Value>>,
    validationReport: Option<Dict>,
    anomalyReport: Option<Dict>)

  /** The update `{}`. */
  const NoUpdate: Update := Update(None, None, None, None, None, None, None, None, None)

  /** The diagnostic update `{"messages": [{"role": "assistant", "content": text}]}`. */
  function Say(text: string): Update {
    NoUpdate.(messages := Some([Message("assistant", text)]))
  }

  /** The `operator.add` channel: a returned list is appended. */
  function Concat<T>(current: seq<T>, update: Option<seq<T>>): seq<T> {
    if update.Some? then current + update.value else current
  }

  /** The `unique_list_merge` channel. */
  function Unique<T(==)>(current: seq<T>, update: Option<seq<T>>): seq<T> {
    if update.Some? then UniqueListMerge(current, update.value) else current
  }

  /** The `merge_dicts` channel. */
  function MergeMap<K, V>(current: map<K, V>, update: Option<map<K, V>>): map<K, V> {
    if update.Some? then MergeDicts(Some(current), update) else current
  }

  /** Applies a node's update to the state, field by field, with the schema's reducers. */
  function Apply(s: State, u: Update): (r: State)
    ensures u == NoUpdate ==> r == s
  {
    State(
      MergeMap(s.userInput, u.userInput),
      Concat(s.messages, u.messages),
      Unique(s.palmIds, u.palmIds),
      MergeMap(s.sraIdentifiers, u.sraIdentifiers),
      MergeMap(s.metadataCounts, u.metadataCounts),
      Concat(s.mwasResults, u.mwasResults),
      Unique(s.virusFamilies, u.virusFamilies),
      MergeMap(s.validationReport, u.validationReport),
      MergeMap(s.anomalyReport, u.anomalyReport))
  }

  /** `s` grows into `t`: nothing any reducer keeps has been lost. */
  ghost predicate Grows(s: State, t: State) {
    && s.userInput.Keys <= t.userInput.Keys
    && |s.messages| <= |t.messages| && t.messages[..|s.messages|] == s.messages
    && (forall p :: p in s.palmIds ==> p in t.palmIds)
    && s.sraIdentifiers.Keys <= t.sraIdentifiers.Keys
    && s.metadataCounts.Keys <= t.metadataCounts.Keys
    && |s.mwasResults| <= |t.mwasResults| && t.mwasResults[..|s.mwasResults|] == s.mwasResults
    && (forall f :: f in s.virusFamilies ==> f in t.virusFamilies)
    && s.validationReport.Keys <= t.validationReport.Keys
    && s.anomalyReport.Keys <= t.anomalyReport.Keys
  }

  /** Keeps the de-duplicated channels duplicate-free. */
  ghost predicate DupFree(s: State) {
    NoDup(s.palmIds) && NoDup(s.virusFamilies)
  }

  /**
   * Every reducer is monotone: no update can remove a message, an MWAS row,
   * a palm_id, a virus family or a key of any dictionary channel; concatenated
   * channels grow by exactly the returned list.
   */
  lemma ApplyGrows(s: State, u: Update)
    ensures Grows(s, Apply(s, u))
    ensures |Apply(s, u).messages| == |s.messages| + |u.messages.GetOr([])|
    ensures Apply(s, u).messages[|s.messages|..] == u.messages.GetOr([])
    ensures |Apply(s, u).mwasResults| == |s.mwasResults| + |u.mwasResults.GetOr([])|
    ensures Apply(s, u).mwasResults[|s.mwasResults|..] == u.mwasResults.GetOr([])
  {
    DedupElements(s.palmIds + u.palmIds.GetOr([]));
    DedupElements(s.virusFamilies + u.virusFamilies.GetOr([]));
  }

  /** The de-duplicated channels stay duplicate-free and only ever append. */
  lemma ApplyKeepsDupFree(s: State, u: Update)
    requires DupFree(s)
    ensures DupFree(Apply(s, u))
    ensures |s.palmIds| <= |Apply(s, u).palmIds| && Apply(s, u).palmIds[..|s.palmIds|] == s.palmIds
    ensures |s.virusFamilies| <= |Apply(s, u).virusFamilies|
    ensures Apply(s, u).virusFamilies[..|s.virusFamilies|] == s.virusFamilies
  {
    if u.palmIds.Some? {
      UniqueListMergeKeepsLeft(s.palmIds, u.palmIds.value);
    }
    if u.virusFamilies.Some? {
      UniqueListMergeKeepsLeft(s.virusFamilies, u.virusFamilies.value);
    }
  }

  /**
   * One key of a `merge_dicts` channel after an update: a carried key takes
   * the carried value, any other key keeps its presence and value, and an
   * update that does not return the channel leaves it as it was.
   */
  predicate MergedAt<V(==)>(before: map<string, V>, carried: Option<map<string, V>>, after: map<string, V>, k: string) {
    match carried
    case None => after == before
    case Some(c) =>
      && (k in c ==> k in after && after[k] == c[k])
      && (k !in c ==> (k in after <==> k in before) && (k in before ==> after[k] == before[k]))
  }

  /** Every `merge_dicts` channel: an update overwrites exactly the keys it carries. */
  lemma ApplyOverwritesOnlyCarriedKeys(s: State, u: Update, k: string)
    ensures MergedAt(s.userInput, u.userInput, Apply(s, u).userInput, k)
    ensures MergedAt(s.sraIdentifiers, u.sraIdentifiers, Apply(s, u).sraIdentifiers, k)
    ensures MergedAt(s.metadataCounts, u.metadataCounts, Apply(s, u).metadataCounts, k)
    ensures MergedAt(s.validationReport, u.validationReport, Apply(s, u).validationReport, k)
    ensures MergedAt(s.anomalyReport, u.anomalyReport, Apply(s, u).anomalyReport, k)
  {
  }

  /**
   * Returning an empty list is a no-op, not a reset: on a duplicate-free state,
   * `[]` for every list channel leaves the state unchanged.
   */
  lemma EmptyListsAreNoOp(s: State)
    requires DupFree(s)
    ensures Apply(s, NoUpdate.(messages := Some([]), palmIds := Some([]),
                               mwasResults := Some([]), virusFamilies := Some([]))) == s
  {
    assert s.palmIds + [] == s.palmIds;
    assert s.virusFamilies + [] == s.virusFamilies;
    assert s.messages + [] == s.messages;
    assert s.mwasResults + [] == s.mwasResults;
    DedupOfNoDup(s.palmIds);
    DedupOfNoDup(s.virusFamilies);
  }

  /** Re-delivering ids that are already present leaves a duplicate-free `palm_ids` unchanged. */
  lemma RedeliveredIdsAreNoOp(s: State, ids: seq<string>)
    requires NoDup(s.palmIds)
    requires forall p :: p in ids ==> p in s.palmIds
    ensures Apply(s, NoUpdate.(palmIds := Some(ids))).palmIds == s.palmIds
  {
    DedupAbsorbs(s.palmIds, ids);
    DedupOfNoDup(s.palmIds);
  }
}
