/**
 * The virus-metadata-analysis workflow: resolve the species label to
 * palm_ids, widen them with evolutionarily similar ones, find the SRA runs
 * carrying them, run the metadata-counts and MWAS workflows as subgraph
 * nodes, ask the LLM to validate the hypothesis and to flag anomalies, and
 * check that at least one report came back.
 */
module VirusMetadataAnalysis {
  import opened Wrappers
  import opened Values
  import opened Reducers
  import opened WorkflowState
  import opened Frontier
  import opened Graphs

  /** `state["user_input"].get(key, "")`. */
  function InputField(s: State, key: string): (v: string)
    ensures key in s.userInput ==> v == s.userInput[key]
    ensures key !in s.userInput ==> v == ""
  {
    if key in s.userInput then s.userInput[key] else ""
  }

  /** A `data` table as the database clients return it: a header row, then the data rows. */
  type Table = seq<seq<string>>

  /** The collaborator `get_palm_ids_by_species`; `None` stands for a reply without `data`. */
  type SpeciesLookup = (string, int) -> Option<Table>

  /** The collaborator `get_similar_palm_ids_neo4j`; `None` stands for a reply without `data`. */
  type SimilarLookup = (seq<string>, int) -> Option<Table>

  /** The `percent_identity` both palm_id lookups pass. */
  const PercentIdentity: int := 80

  /**
   * `[row[col] for row in rows]`: the column, or `IndexError` from the first
   * row too short to have it.
   */
  function {:induction false} ColumnOf(rows: Table, col: nat): (r: Result<seq<string>, PyError>)
    ensures r.Raised? <==> exists i :: 0 <= i < |rows| && |rows[i]| <= col
    ensures r.Returned? ==> |r.value| == |rows| && forall i :: 0 <= i < |rows| ==> r.value[i] == rows[i][col]
  {
    if |rows| == 0 then Returned([])
    else if |rows[0]| <= col then Raised(IndexError)
    else
      assert forall i :: 1 <= i < |rows| ==> rows[i] == rows[1..][i - 1];
      match ColumnOf(rows[1..], col)
      case Raised(e) => Raised(e)
      case Returned(rest) => Returned([rows[0][col]] + rest)
  }

  /** A value is in a column exactly when some row holds it at that position. */
  lemma ColumnMembers(rows: Table, col: nat)
    requires ColumnOf(rows, col).Returned?
    ensures forall i :: 0 <= i < |rows| ==> col < |rows[i]|
    ensures forall p :: p in ColumnOf(rows, col).value <==> exists i :: 0 <= i < |rows| && rows[i][col] == p
  {
    var column := ColumnOf(rows, col).value;
    forall p | p in column
      ensures exists i :: 0 <= i < |rows| && rows[i][col] == p
    {
      var i :| 0 <= i < |column| && column[i] == p;
      assert rows[i][col] == p;
    }
  }

  /** The data rows of a reply: `.get("data", [])[1:]`, the header dropped. */
  function DataRows(reply: Option<Table>): (rows: Table)
    ensures reply.None? || |reply.value| == 0 ==> rows == []
    ensures reply.Some? && |reply.value| != 0 ==> rows == reply.value[1..]
  {
    var t := reply.GetOr([]);
    if |t| == 0 then [] else t[1..]
  }

  // ---------------------------------------------------------------------------
  // Sequential nodes

  /**
   * `get_palm_ids_from_species_label`: without a species label, only the
   * diagnostic; otherwise column 0 of the lookup's data rows becomes
   * `palm_ids`, or the first empty row raises `IndexError`.
   */
  function GetPalmIdsFromSpeciesLabel(s: State, lookup: SpeciesLookup): (r: Result<Update, PyError>)
    ensures InputField(s, "species_label") == "" ==> r == Returned(Say("No species label provided."))
    ensures InputField(s, "species_label") != "" ==>
      var rows := DataRows(lookup(InputField(s, "species_label"), PercentIdentity));
      && (r.Raised? <==> exists i :: 0 <= i < |rows| && |rows[i]| == 0)
      && (r.Returned? ==>
            && r.value.palmIds.Some? && r.value.(palmIds := None) == NoUpdate
            && |r.value.palmIds.value| == |rows|
            && forall i :: 0 <= i < |rows| ==> r.value.palmIds.value[i] == rows[i][0])
  {
    var species := InputField(s, "species_label");
    if species == "" then
      Returned(Say("No species label provided."))
    else
      match ColumnOf(DataRows(lookup(species, PercentIdentity)), 0)
      case Raised(e) => Raised(e)
      case Returned(ids) => Returned(NoUpdate.(palmIds := Some(ids)))
  }

  /** The elements of `xs` that are not in `ys`, in order: `[x for x in xs if x not in ys]`. */
  function {:induction false} Exclude(xs: seq<string>, ys: seq<string>): (r: seq<string>)
    ensures forall x :: x in r <==> x in xs && x !in ys
    ensures |r| <= |xs|
  {
    if |xs| == 0 then []
    else
      var rest := Exclude(xs[1..], ys);
      assert forall x :: x in xs <==> x == xs[0] || x in xs[1..];
      if xs[0] in ys then rest else [xs[0]] + rest
  }

  /**
   * The similar palm_ids worth returning: those not already in `palm_ids`,
   * each once (`list(set(...))`; the order is not promised).
   */
  function NewPalmIds(similar: seq<string>, palmIds: seq<string>): (r: seq<string>)
    ensures NoDup(r)
    ensures forall p :: p in r <==> p in similar && p !in palmIds
  {
    DedupElements(Exclude(similar, palmIds));
    Dedup(Exclude(similar, palmIds))
  }

  /**
   * `get_evol_similar_palm_ids`: with no palm_ids, only the diagnostic and no
   * lookup; otherwise column 1 of the lookup's data rows (or `IndexError`
   * from the first row shorter than two), without the palm_ids already
   * present, without repeats, written to `palm_ids`; `{}` when none remain.
   */
  function GetEvolSimilarPalmIds(s: State, lookup: SimilarLookup): (r: Result<Update, PyError>)
    ensures |s.palmIds| == 0 ==> r == Returned(Say("No palm_ids available to find similar viruses."))
    ensures |s.palmIds| != 0 ==>
      var rows := DataRows(lookup(s.palmIds, PercentIdentity));
      && (r.Raised? <==> exists i :: 0 <= i < |rows| && |rows[i]| < 2)
      && (r.Returned? ==>
            && (r.value == NoUpdate <==> forall i :: 0 <= i < |rows| ==> rows[i][1] in s.palmIds)
            && (r.value != NoUpdate ==>
                  && r.value.palmIds.Some? && r.value.(palmIds := None) == NoUpdate
                  && NoDup(r.value.palmIds.value)
                  && (forall p :: p in r.value.palmIds.value ==> p !in s.palmIds)
                  && forall p :: p in r.value.palmIds.value <==>
                       exists i :: 0 <= i < |rows| && rows[i][1] == p && p !in s.palmIds))
  {
    if |s.palmIds| == 0 then
      Returned(Say("No palm_ids available to find similar viruses."))
    else
      var rows := DataRows(lookup(s.palmIds, PercentIdentity));
      var column := ColumnOf(rows, 1);
      if column.Raised? then Raised(column.error)
      else
        var novel := NewPalmIds(column.value, s.palmIds);
        ColumnMembers(rows, 1);
        if |novel| == 0 then
          Returned(NoUpdate)
        else
          assert novel[0] in novel;
          Returned(NoUpdate.(palmIds := Some(novel)))
  }

  /**
   * With empty `palm_ids` the node short-circuits: whatever the lookup would
   * answer, the outcome is one diagnostic message, and `palm_ids` stays `[]`.
   */
  lemma EvolShortCircuit(s: State, lookup: SimilarLookup, other: SimilarLookup)
    requires s.palmIds == []
    ensures GetEvolSimilarPalmIds(s, lookup) == GetEvolSimilarPalmIds(s, other)
    ensures GetEvolSimilarPalmIds(s, lookup).Returned?
    ensures var t := Apply(s, GetEvolSimilarPalmIds(s, lookup).value);
      && t.palmIds == []
      && t.messages == s.messages + [Message("assistant", "No palm_ids available to find similar viruses.")]
      && t.(messages := s.messages) == s
  {
  }

  /**
   * Merging the node's palm_ids into the state keeps the existing ids first,
   * in order, and appends exactly the new ones, none of them twice.
   */
  lemma EvolAppendsOnlyNewIds(s: State, lookup: SimilarLookup)
    requires NoDup(s.palmIds)
    requires GetEvolSimilarPalmIds(s, lookup).Returned?
    ensures var u := GetEvolSimilarPalmIds(s, lookup).value;
      u.palmIds.Some? ==> Apply(s, u).palmIds == s.palmIds + u.palmIds.value
  {
    var u := GetEvolSimilarPalmIds(s, lookup).value;
    if u.palmIds.Some? {
      var novel := u.palmIds.value;
      var c := s.palmIds + novel;
      assert NoDup(c) by {
        forall i, j | 0 <= i < j < |c|
          ensures c[i] != c[j]
        {
          if j >= |s.palmIds| && i < |s.palmIds| {
            assert c[j] in novel;
          }
        }
      }
      DedupOfNoDup(c);
    }
  }

  /** One metadata filter: `{"filterType": ..., "filterValue": ..., "groupByKey": ...}`. */
  datatype MetadataFilter = MetadataFilter(filterType: string, filterValue: string, groupByKey: string)

  /** The collaborator `get_sra_identifiers_by_filters`; `None` stands for a `None` reply. */
  type SraLookup = (seq<MetadataFilter>, bool) -> Option<SraIdentifiers>

  /** One `sotu` filter per palm_id, in order. */
  function SotuFilters(palmIds: seq<string>): (fs: seq<MetadataFilter>)
    ensures |fs| == |palmIds|
    ensures forall i :: 0 <= i < |fs| ==> fs[i].filterType == "sotu" && fs[i].groupByKey == "sotu"
  {
    seq(|palmIds|, i requires 0 <= i < |palmIds| => MetadataFilter("sotu", palmIds[i], "sotu"))
  }

  /** The values a list of filters asks for. */
  function FilterValues(fs: seq<MetadataFilter>): (vs: seq<string>)
    ensures |vs| == |fs|
  {
    seq(|fs|, i requires 0 <= i < |fs| => fs[i].filterValue)
  }

  /** The filters ask for exactly the palm_ids, in order, and nothing else. */
  lemma SotuFiltersRoundTrip(palmIds: seq<string>)
    ensures FilterValues(SotuFilters(palmIds)) == palmIds
  {
  }

  /**
   * `get_matching_sra_ids`: with no palm_ids, only the diagnostic; otherwise
   * the identifiers for one `sotu` filter per palm_id (palmprint only), or
   * "No SRA accessions found." when the reply is empty.
   */
  function GetMatchingSraIds(s: State, lookup: SraLookup): (u: Update)
    ensures |s.palmIds| == 0 ==> u == Say("No palm_ids available to find matching SRA accessions.")
    ensures |s.palmIds| != 0 ==>
      var reply := lookup(SotuFilters(s.palmIds), true);
      if reply.None? || |reply.value| == 0 then u == Say("No SRA accessions found.")
      else u.sraIdentifiers == reply && u.(sraIdentifiers := None) == NoUpdate
  {
    if |s.palmIds| == 0 then
      Say("No palm_ids available to find matching SRA accessions.")
    else
      var reply := lookup(SotuFilters(s.palmIds), true);
      if reply.None? || |reply.value| == 0 then
        Say("No SRA accessions found.")
      else
        NoUpdate.(sraIdentifiers := reply)
  }

  // ---------------------------------------------------------------------------
  // LLM nodes

  datatype ReportKind = ValidationReport | AnomalyReport

  /**
   * What an LLM node sends: the report schema, the model, and the prompt's
   * inputs (the prompt wording is not modelled).
   */
  datatype LlmRequest = LlmRequest(
    kind: ReportKind,
    modelName: string,
    hypothesis: string,
    metadataCounts: Dict,
    mwasResults: seq<Dict>)

  /** The collaborator `run_llm_completion` with structured output; `None` stands for no response. */
  type Llm = LlmRequest -> Option<Dict>

  /** The diagnostic both LLM nodes return when their inputs are missing. */
  const MissingInputs: string := "Missing hypothesis, metadata counts, or MWAS results in state"

  /** `hypothesis + f". Given virus species: {virus_species}"`. */
  function PromptHypothesis(s: State): (h: string)
    ensures |h| >= |InputField(s, "hypothesis")|
    ensures h[..|InputField(s, "hypothesis")|] == InputField(s, "hypothesis")
    ensures h[|InputField(s, "hypothesis")|..] == ". Given virus species: " + InputField(s, "species_label")
  {
    InputField(s, "hypothesis") + ". Given virus species: " + InputField(s, "species_label")
  }

  /** How many entries of each count list the LLM sees. */
  const PromptRows: nat := 20

  /** `{k: v[:20] for k, v in metadata_counts.items() if isinstance(v, list)}`. */
  function CountsForPrompt(counts: Dict): (r: Dict)
    ensures forall k :: k in r <==> k in counts && counts[k].List?
    ensures forall k :: k in r ==>
      && r[k].List?
      && |r[k].items| == (if |counts[k].items| < PromptRows then |counts[k].items| else PromptRows)
      && r[k].items == counts[k].items[..|r[k].items|]
  {
    map k | k in counts && counts[k].List? ::
      List(if |counts[k].items| < PromptRows then counts[k].items else counts[k].items[..PromptRows])
  }

  /** Truncating twice is truncating once. */
  lemma CountsForPromptIdempotent(counts: Dict)
    ensures CountsForPrompt(CountsForPrompt(counts)) == CountsForPrompt(counts)
  {
    var r := CountsForPrompt(counts);
    forall k | k in r
      ensures CountsForPrompt(r)[k] == r[k]
    {
      assert r[k].items[..|r[k].items|] == r[k].items;
    }
  }

  /** Counts whose every value is a list of at most 20 rows reach the LLM unchanged. */
  lemma CountsForPromptKeepsShortLists(counts: Dict)
    requires forall k :: k in counts ==> counts[k].List? && |counts[k].items| <= PromptRows
    ensures CountsForPrompt(counts) == counts
  {
    forall k | k in counts
      ensures CountsForPrompt(counts)[k] == counts[k]
    {
      assert counts[k].items[..|counts[k].items|] == counts[k].items;
    }
  }

  /** The guard of `llm_validate_hypothesis`: a hypothesis, and counts or MWAS rows. */
  predicate CanValidate(s: State) {
    InputField(s, "hypothesis") != "" && (|s.metadataCounts| != 0 || |s.mwasResults| != 0)
  }

  /** The guard of `llm_identify_anomalies`: a hypothesis, counts and MWAS rows. */
  predicate CanIdentifyAnomalies(s: State) {
    InputField(s, "hypothesis") != "" && |s.metadataCounts| != 0 && |s.mwasResults| != 0
  }

  /** The request an LLM node sends from the state. */
  function RequestFor(kind: ReportKind, s: State): LlmRequest {
    LlmRequest(kind, "gpt-4o", PromptHypothesis(s), CountsForPrompt(s.metadataCounts), s.mwasResults)
  }

  /**
   * `llm_validate_hypothesis`: without its inputs, the diagnostic; otherwise
   * the LLM's validation report, or "No validation report generated." when
   * the response is empty.
   */
  function LlmValidateHypothesis(s: State, llm: Llm): (u: Update)
    ensures !CanValidate(s) ==> u == Say(MissingInputs)
    ensures CanValidate(s) ==>
      var response := llm(RequestFor(ValidationReport, s));
      if response.None? || |response.value| == 0 then u == Say("No validation report generated.")
      else u == NoUpdate.(validationReport := response)
  {
    if !CanValidate(s) then
      Say(MissingInputs)
    else
      var response := llm(RequestFor(ValidationReport, s));
      if response.None? || |response.value| == 0 then
        Say("No validation report generated.")
      else
        NoUpdate.(validationReport := response)
  }

  /**
   * `llm_identify_anomalies`: without its inputs, the diagnostic; otherwise
   * the LLM's anomaly report, or "No anomalies identified." when the
   * response is empty.
   */
  function LlmIdentifyAnomalies(s: State, llm: Llm): (u: Update)
    ensures !CanIdentifyAnomalies(s) ==> u == Say(MissingInputs)
    ensures CanIdentifyAnomalies(s) ==>
      var response := llm(RequestFor(AnomalyReport, s));
      if response.None? || |response.value| == 0 then u == Say("No anomalies identified.")
      else u == NoUpdate.(anomalyReport := response)
  {
    if !CanIdentifyAnomalies(s) then
      Say(MissingInputs)
    else
      var response := llm(RequestFor(AnomalyReport, s));
      if response.None? || |response.value| == 0 then
        Say("No anomalies identified.")
      else
        NoUpdate.(anomalyReport := response)
  }

  /**
   * The anomaly guard is strictly stronger than the validation guard: a state
   * that passes the first passes the second, and counts without MWAS rows
   * pass only the second.
   */
  lemma AnomalyGuardIsStronger(s: State)
    ensures CanIdentifyAnomalies(s) ==> CanValidate(s)
    ensures InputField(s, "hypothesis") != "" && |s.metadataCounts| != 0 && |s.mwasResults| == 0
            ==> CanValidate(s) && !CanIdentifyAnomalies(s)
  {
  }

  /**
   * The two LLM nodes run in one frontier, and the order of their updates
   * matters exactly when the validation guard passes and both nodes write a
   * message: `messages` then receives two different diagnostics, in task
   * order. Otherwise the updates write disjoint channels, or both are the
   * same missing-inputs diagnostic.
   */
  lemma LlmNodesCommute(s: State, llm: Llm)
    ensures var v, a := LlmValidateHypothesis(s, llm), LlmIdentifyAnomalies(s, llm);
      FoldUpdates(s, [v, a]) == FoldUpdates(s, [a, v]) <==>
        !(CanValidate(s) && v.messages.Some? && a.messages.Some?)
  {
    var v, a := LlmValidateHypothesis(s, llm), LlmIdentifyAnomalies(s, llm);
    var n := |s.messages|;
    if CanValidate(s) && v.messages.Some? && a.messages.Some? {
      FoldPair(s, v, a);
      FoldPair(s, a, v);
      assert FoldUpdates(s, [v, a]).messages[n] == Message("assistant", "No validation report generated.");
      assert FoldUpdates(s, [a, v]).messages[n] == a.messages.value[0];
    } else if !CanValidate(s) {
      AnomalyGuardIsStronger(s);
      assert v == a;
    } else {
      assert Independent(v, a);
      ApplyCommutes(s, v, a);
    }
  }

  /**
   * A query with a hypothesis and counts but no MWAS rows, and an LLM that
   * never answers: the two orders of the LLM frontier leave different
   * message lists.
   */
  lemma LlmNodesOrderVisible()
    ensures var s := State(map["hypothesis" := "h"], [], [], map[], map["sra" := Null], [], [], map[], map[]);
      var llm: Llm := _ => None;
      var v, a := LlmValidateHypothesis(s, llm), LlmIdentifyAnomalies(s, llm);
      && v == Say("No validation report generated.")
      && a == Say(MissingInputs)
      && FoldUpdates(s, [v, a]) != FoldUpdates(s, [a, v])
  {
    var s := State(map["hypothesis" := "h"], [], [], map[], map["sra" := Null], [], [], map[], map[]);
    var llm: Llm := _ => None;
    LlmNodesCommute(s, llm);
  }

  /**
   * `get_supporting_documents`: the diagnostic when neither report is
   * present, otherwise `{}`.
   */
  function GetSupportingDocuments(s: State): (u: Update)
    ensures u == NoUpdate <==> |s.anomalyReport| != 0 || |s.validationReport| != 0
    ensures u != NoUpdate ==> u == Say("No anomaly or validation report found.")
  {
    if |s.anomalyReport| == 0 && |s.validationReport| == 0 then
      Say("No anomaly or validation report found.")
    else
      NoUpdate
  }

  // ---------------------------------------------------------------------------
  // Topology

  const PalmIdsNode := Node("get_palm_ids_from_species_label")
  const EvolNode := Node("get_evol_similar_palm_ids")
  const SraNode := Node("get_matching_sra_ids")
  const CountsNode := Node("get_metadata_counts")
  const MwasNode := Node("get_mwas_results")
  const ValidateNode := Node("llm_validate_hypothesis")
  const AnomaliesNode := Node("llm_identify_anomalies")
  const DocumentsNode := Node("get_supporting_documents")

  const AnalysisNodes: set<string> := {
    "get_palm_ids_from_species_label", "get_evol_similar_palm_ids", "get_matching_sra_ids",
    "get_metadata_counts", "get_mwas_results", "llm_validate_hypothesis",
    "llm_identify_anomalies", "get_supporting_documents"}

  /** The twelve `add_edge` calls. */
  const AnalysisGraph: Graph := Graph(AnalysisNodes, {
    Edge(Start, PalmIdsNode),
    Edge(PalmIdsNode, EvolNode),
    Edge(EvolNode, SraNode),
    Edge(SraNode, CountsNode),
    Edge(SraNode, MwasNode),
    Edge(CountsNode, ValidateNode),
    Edge(CountsNode, AnomaliesNode),
    Edge(MwasNode, ValidateNode),
    Edge(MwasNode, AnomaliesNode),
    Edge(AnomaliesNode, DocumentsNode),
    Edge(ValidateNode, DocumentsNode),
    Edge(DocumentsNode, End)})

  /**
   * Both LLM nodes have exactly the two subgraph nodes as predecessors, and
   * the document check exactly the two LLM nodes. A node with several
   * incoming edges runs after any predecessor's step; here each pair of
   * predecessors runs in the same step, so each node runs once, after both.
   */
  lemma AnalysisFanIns()
    ensures Preds(AnalysisGraph, ValidateNode) == {CountsNode, MwasNode}
    ensures Preds(AnalysisGraph, AnomaliesNode) == {CountsNode, MwasNode}
    ensures Preds(AnalysisGraph, DocumentsNode) == {ValidateNode, AnomaliesNode}
    ensures Succs(AnalysisGraph, SraNode) == {CountsNode, MwasNode}
  {
    var g := AnalysisGraph;
    assert Edge(CountsNode, ValidateNode) in g.edges && Edge(MwasNode, ValidateNode) in g.edges;
    assert Edge(CountsNode, AnomaliesNode) in g.edges && Edge(MwasNode, AnomaliesNode) in g.edges;
    assert Edge(ValidateNode, DocumentsNode) in g.edges && Edge(AnomaliesNode, DocumentsNode) in g.edges;
    assert Edge(SraNode, CountsNode) in g.edges && Edge(SraNode, MwasNode) in g.edges;
  }

  /** Every edge joins declared nodes. */
  lemma AnalysisEdgesDeclared()
    ensures EdgesDeclared(AnalysisGraph)
  {
  }

  /** The graph compiles: every node is reachable from START and reaches END. */
  lemma AnalysisGraphWellFormed()
    ensures WellFormed(AnalysisGraph)
  {
    var g := AnalysisGraph;
    var head := [Start, PalmIdsNode, EvolNode, SraNode];
    var viaCountsValidate := head + [CountsNode, ValidateNode, DocumentsNode, End];
    var viaMwasAnomalies := head + [MwasNode, AnomaliesNode, DocumentsNode, End];
    AnalysisEdgesDeclared();
    assert IsPath(g, viaCountsValidate);
    assert IsPath(g, viaMwasAnomalies);
    CoveredByPaths(g, viaCountsValidate, viaMwasAnomalies);
  }
}
