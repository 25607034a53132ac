/**
 * The MWAS workflow: `get_matching_virus_families` collects the families of
 * the viruses the query's palm_ids name in the query's runs, then
 * `get_mwas_results` looks up metadata-wide association results for the
 * query's bioprojects and those families.
 */
module Mwas {
  import opened Wrappers
  import opened Values
  import opened Reducers
  import opened WorkflowState
  import opened Graphs

  /** The keyword arguments of `get_results_by_identifiers`. */
  datatype ResultsQuery = ResultsQuery(table: string, idColumn: string, ids: Value, pageStart: int)

  /** The collaborator `get_results_by_identifiers`; its body is not part of this model. */
  type ResultsLookup = ResultsQuery -> seq<Dict>

  /** The keyword arguments of `get_mwas_results_by_identifiers`. */
  datatype MwasQuery = MwasQuery(idColumn: string, ids: Value, virusFamilies: seq<Value>, pageStart: int, pageEnd: int)

  /** The collaborator `get_mwas_results_by_identifiers`; `None` stands for a falsy non-list reply. */
  type MwasLookup = MwasQuery -> Option<seq<Dict>>

  /** The query for the palm_virome rows of the query's runs. */
  function VirusRowsQuery(s: State): ResultsQuery {
    ResultsQuery("palm_virome", "run", GetNested(s.sraIdentifiers, "run", "single"), 0)
  }

  /** `result.get("palm_id") in palm_ids`: a missing or non-string `palm_id` never matches. */
  predicate MatchesPalmId(row: Dict, palmIds: seq<string>) {
    "palm_id" in row && row["palm_id"].Str? && row["palm_id"].s in palmIds
  }

  /** The family a row contributes: its truthy `tax_family`, when the row matches a palm_id. */
  function FamilyOf(row: Dict, palmIds: seq<string>): Option<Value> {
    if MatchesPalmId(row, palmIds) && "tax_family" in row && Truthy(row["tax_family"])
    then Some(row["tax_family"]) else None
  }

  /** `virus_families.add(family)` hashes the family: a truthy list or dict raises `TypeError`. */
  predicate UnhashableFamily(row: Dict, palmIds: seq<string>) {
    FamilyOf(row, palmIds).Some? && !Hashable(FamilyOf(row, palmIds).value)
  }

  /**
   * The families of the matching rows, in row order, repeats kept; the first
   * family that cannot be hashed raises `TypeError`.
   */
  function {:induction false} MatchingFamilies(rows: seq<Dict>, palmIds: seq<string>): (r: Result<seq<Value>, PyError>)
    ensures r.Raised? <==> exists i :: 0 <= i < |rows| && UnhashableFamily(rows[i], palmIds)
    ensures r.Raised? ==> r.error == TypeError
    ensures r.Returned? ==>
      forall i :: 0 <= i < |rows| && FamilyOf(rows[i], palmIds).Some? ==> FamilyOf(rows[i], palmIds).value in r.value
    ensures r.Returned? ==>
      forall f :: f in r.value ==> exists i :: 0 <= i < |rows| && FamilyOf(rows[i], palmIds) == Some(f)
    ensures r.Returned? ==> forall f :: f in r.value ==> Truthy(f) && Hashable(f)
  {
    if |rows| == 0 then Returned([])
    else
      var rest := MatchingFamilies(rows[1..], palmIds);
      assert forall i :: 1 <= i < |rows| ==> rows[i] == rows[1..][i - 1];
      match FamilyOf(rows[0], palmIds)
      case None => rest
      case Some(f) =>
        if !Hashable(f) then Raised(TypeError)
        else match rest
          case Raised(e) => Raised(e)
          case Returned(fs) => Returned([f] + fs)
  }

  /**
   * `get_matching_virus_families`: writes only `virus_families`, a list
   * without repeats holding exactly the truthy `tax_family` of every row of
   * the query's runs whose `palm_id` is one of the query's palm_ids; a
   * matching family that is a list or dict raises `TypeError`.
   */
  function GetMatchingVirusFamilies(s: State, lookup: ResultsLookup): (r: Result<Update, PyError>)
    ensures var rows := lookup(VirusRowsQuery(s));
      r.Raised? <==> exists i :: 0 <= i < |rows| && UnhashableFamily(rows[i], s.palmIds)
    ensures r.Returned? ==> r.value.virusFamilies.Some? && r.value.(virusFamilies := None) == NoUpdate
    ensures r.Returned? ==> NoDup(r.value.virusFamilies.value)
    ensures r.Returned? ==>
      var rows := lookup(VirusRowsQuery(s));
      forall f :: f in r.value.virusFamilies.value <==>
        exists i :: 0 <= i < |rows| && FamilyOf(rows[i], s.palmIds) == Some(f)
  {
    var rows := lookup(VirusRowsQuery(s));
    match MatchingFamilies(rows, s.palmIds)
    case Raised(e) => Raised(e)
    case Returned(fams) =>
      DedupElements(fams);
      Returned(NoUpdate.(virusFamilies := Some(Dedup(fams))))
  }

  /** The fields `get_mwas_results` drops from every row to keep the state small. */
  const LargeFields: set<string> := {"biosamples", "sotus", "taxSpecies"}

  /** One MWAS row without its large fields. */
  function Strip(row: Dict): (r: Dict)
    ensures r.Keys == row.Keys - LargeFields
    ensures forall k :: k in r ==> r[k] == row[k]
  {
    map k | k in row && k !in LargeFields :: row[k]
  }

  /** The large fields of one MWAS row, the part `Strip` drops. */
  function LargePart(row: Dict): (r: Dict)
    ensures r.Keys == row.Keys * LargeFields
  {
    map k | k in row && k in LargeFields :: row[k]
  }

  /** Stripping loses nothing but the large fields: putting them back restores the row. */
  lemma StripRoundTrip(row: Dict)
    ensures Strip(row) + LargePart(row) == row
    ensures Strip(Strip(row)) == Strip(row)
  {
  }

  /** The stripping comprehension, row by row. */
  function StripAll(rows: seq<Dict>): (r: seq<Dict>)
    ensures |r| == |rows|
    ensures forall i :: 0 <= i < |rows| ==> r[i] == Strip(rows[i])
  {
    seq(|rows|, i requires 0 <= i < |rows| => Strip(rows[i]))
  }

  /** The query `get_mwas_results` sends for the given bioprojects and families. */
  function MwasQueryFor(bioprojects: Value, families: seq<Value>): MwasQuery {
    MwasQuery("bioproject", bioprojects, families, 0, 100)
  }

  /**
   * `get_mwas_results`: diagnoses, in order, falsy bioprojects, an empty
   * `virus_families` and an empty reply; otherwise appends the stripped rows
   * to `mwas_results`.
   */
  function GetMwasResults(s: State, lookup: MwasLookup): (u: Update)
    ensures var bioprojects := GetNested(s.sraIdentifiers, "bioproject", "single");
      && (!Truthy(bioprojects) ==> u == Say("No bioprojects found."))
      && (Truthy(bioprojects) && |s.virusFamilies| == 0 ==> u == Say("No virus families found."))
      && (Truthy(bioprojects) && |s.virusFamilies| != 0 ==>
            var reply := lookup(MwasQueryFor(bioprojects, s.virusFamilies));
            if reply.None? || |reply.value| == 0 then u == Say("No MWAS results found.")
            else u == NoUpdate.(mwasResults := Some(StripAll(reply.value))))
    ensures u.mwasResults.Some? ==>
      forall i :: 0 <= i < |u.mwasResults.value| ==> u.mwasResults.value[i].Keys !! LargeFields
  {
    var bioprojects := GetNested(s.sraIdentifiers, "bioproject", "single");
    if !Truthy(bioprojects) then
      Say("No bioprojects found.")
    else if |s.virusFamilies| == 0 then
      Say("No virus families found.")
    else
      var reply := lookup(MwasQueryFor(bioprojects, s.virusFamilies));
      if reply.None? || |reply.value| == 0 then
        Say("No MWAS results found.")
      else
        NoUpdate.(mwasResults := Some(StripAll(reply.value)))
  }

  /**
   * The two nodes run one after the other, the second reading the first's
   * merged output; an exception in the first ends the run.
   */
  function Run(s: State, rows: ResultsLookup, mwas: MwasLookup): (r: Result<State, PyError>)
    ensures var found := rows(VirusRowsQuery(s));
      r.Raised? <==> exists i :: 0 <= i < |found| && UnhashableFamily(found[i], s.palmIds)
    ensures r.Returned? ==>
      r.value.(messages := s.messages, mwasResults := s.mwasResults, virusFamilies := s.virusFamilies) == s
  {
    match GetMatchingVirusFamilies(s, rows)
    case Raised(e) => Raised(e)
    case Returned(u) =>
      var s1 := Apply(s, u);
      Returned(Apply(s1, GetMwasResults(s1, mwas)))
  }

  /**
   * The families the first node finds reach the second node's query: after
   * the first step `virus_families` holds the earlier families followed by
   * the new ones, and is empty exactly when both were.
   */
  lemma FamiliesReachMwasQuery(s: State, rows: ResultsLookup)
    ensures GetMatchingVirusFamilies(s, rows).Returned? ==>
      var u := GetMatchingVirusFamilies(s, rows).value;
      var s1 := Apply(s, u);
      && (forall f :: f in s1.virusFamilies <==> f in s.virusFamilies || f in u.virusFamilies.value)
      && (|s1.virusFamilies| == 0 <==> |s.virusFamilies| == 0 && |u.virusFamilies.value| == 0)
      && s1.(virusFamilies := s.virusFamilies) == s
  {
    if GetMatchingVirusFamilies(s, rows).Returned? {
      var fams := GetMatchingVirusFamilies(s, rows).value.virusFamilies.value;
      UniqueListMergeContents(s.virusFamilies, fams);
      DedupElements(s.virusFamilies + fams);
      assert s.messages + [] == s.messages;
    }
  }

  /** A matching row whose family is a list or dict makes the whole run raise `TypeError`. */
  lemma RunRaisesOnUnhashableFamily(s: State, rows: ResultsLookup, mwas: MwasLookup, i: nat)
    requires i < |rows(VirusRowsQuery(s))| && UnhashableFamily(rows(VirusRowsQuery(s))[i], s.palmIds)
    ensures Run(s, rows, mwas) == Raised(TypeError)
  {
    var r := MatchingFamilies(rows(VirusRowsQuery(s)), s.palmIds);
    assert r.Raised? && r.error == TypeError;
  }

  /**
   * A run whose query names bioprojects but whose palm_ids match no virus row
   * ends, on a state without families, with exactly the "No virus families
   * found." diagnostic and no MWAS rows.
   */
  lemma RunWithoutFamilies(s: State, rows: ResultsLookup, mwas: MwasLookup)
    requires Truthy(GetNested(s.sraIdentifiers, "bioproject", "single"))
    requires |s.virusFamilies| == 0
    requires forall i :: 0 <= i < |rows(VirusRowsQuery(s))| ==> FamilyOf(rows(VirusRowsQuery(s))[i], s.palmIds).None?
    ensures Run(s, rows, mwas).Returned?
    ensures Run(s, rows, mwas).value.messages == s.messages + [Message("assistant", "No virus families found.")]
    ensures Run(s, rows, mwas).value.mwasResults == s.mwasResults
  {
    FamiliesReachMwasQuery(s, rows);
  }

  /**
   * A run whose lookups both succeed appends the stripped MWAS rows, one per
   * reply row, to `mwas_results` and adds no message.
   */
  lemma RunWithResults(s: State, rows: ResultsLookup, mwas: MwasLookup)
    requires Truthy(GetNested(s.sraIdentifiers, "bioproject", "single"))
    requires GetMatchingVirusFamilies(s, rows).Returned?
    requires |Apply(s, GetMatchingVirusFamilies(s, rows).value).virusFamilies| != 0
    requires var s1 := Apply(s, GetMatchingVirusFamilies(s, rows).value);
      var reply := mwas(MwasQueryFor(GetNested(s.sraIdentifiers, "bioproject", "single"), s1.virusFamilies));
      reply.Some? && |reply.value| != 0
    ensures Run(s, rows, mwas).Returned?
    ensures var s1 := Apply(s, GetMatchingVirusFamilies(s, rows).value);
      var reply := mwas(MwasQueryFor(GetNested(s.sraIdentifiers, "bioproject", "single"), s1.virusFamilies));
      var t := Run(s, rows, mwas).value;
      && t.messages == s.messages
      && |t.mwasResults| == |s.mwasResults| + |reply.value|
      && t.mwasResults[..|s.mwasResults|] == s.mwasResults
      && forall i :: 0 <= i < |reply.value| ==> t.mwasResults[|s.mwasResults| + i] == Strip(reply.value[i])
  {
    FamiliesReachMwasQuery(s, rows);
    assert s.messages + [] == s.messages;
  }

  const MwasNodes: set<string> := {"get_matching_virus_families", "get_mwas_results"}

  /** START → get_matching_virus_families → get_mwas_results → END. */
  const MwasGraph: Graph := Graph(MwasNodes, {
    Edge(Start, Node("get_matching_virus_families")),
    Edge(Node("get_matching_virus_families"), Node("get_mwas_results")),
    Edge(Node("get_mwas_results"), End)})

  /** The graph compiles, and `get_mwas_results` runs only after `get_matching_virus_families`. */
  lemma MwasGraphWellFormed()
    ensures WellFormed(MwasGraph)
    ensures Preds(MwasGraph, Node("get_mwas_results")) == {Node("get_matching_virus_families")}
    ensures Succs(MwasGraph, Start) == {Node("get_matching_virus_families")}
  {
    var g := MwasGraph;
    var a, b := Node("get_matching_virus_families"), Node("get_mwas_results");
    var p := [Start, a, b, End];
    assert Edge(Start, a) in g.edges && Edge(a, b) in g.edges;
    assert IsPath(g, p);
    CoveredByPaths(g, p, p);
  }
}
