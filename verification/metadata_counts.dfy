/**
 * The metadata-counts workflow: nine nodes fan out from START, each reads the
 * SRA identifiers from the same snapshot and writes one key of
 * `metadata_counts`, and all nine fan in to END.
 */
module MetadataCounts {
  import opened Wrappers
  import opened Values
  import opened WorkflowState
  import opened Frontier
  import opened Graphs

  /** The keyword arguments of one `get_counts_by_identifiers` call, `DEFAULT_ARGS` included. */
  datatype CountQuery = CountQuery(
    table: string,
    groupBy: string,
    idColumn: string,
    ids: Value,
    sortByColumn: string,
    sortByDirection: string,
    pageStart: int,
    pageEnd: int,
    palmprintOnly: bool)

  /** The collaborator `get_counts_by_identifiers`; its body is not part of this model. */
  type CountsLookup = CountQuery -> seq<Dict>

  /** What distinguishes the eight count nodes: the table, the grouping column, the id kind and the key written. */
  datatype CountNodeSpec = CountNodeSpec(table: string, groupBy: string, idColumn: string, key: string)

  const Organism := CountNodeSpec("sra", "organism", "run", "organism")
  const Tissue := CountNodeSpec("biosample_tissue", "tissue", "biosample", "tissue")
  const Disease := CountNodeSpec("biosample_disease", "do_label", "biosample", "disease")
  const Sex := CountNodeSpec("biosample_sex", "sex", "biosample", "sex")
  const StatHost := CountNodeSpec("sra_stat", "stat_host_order", "run", "stat_organism")
  const VirusFamily := CountNodeSpec("palm_virome", "tax_family", "run", "virus_family")
  const GeoAttribute := CountNodeSpec("biosample_geographical_location", "geo_attribute_value", "biosample", "geo_attribute")
  const Biome := CountNodeSpec("bgl_gm4326_gp4326", "biome_attribute_value", "biosample", "biome")

  /** The query a count node sends: its own table and columns, the `single` ids of its id kind, and `DEFAULT_ARGS`. */
  function QueryFor(spec: CountNodeSpec, s: State): CountQuery {
    CountQuery(spec.table, spec.groupBy, spec.idColumn,
               GetNested(s.sraIdentifiers, spec.idColumn, "single"),
               "count", "desc", 0, 1000, true)
  }

  /** A list of rows as the Python value stored in `metadata_counts`. */
  function Rows(rows: seq<Dict>): (v: Value)
    ensures v.List? && |v.items| == |rows|
    ensures forall i :: 0 <= i < |rows| ==> v.items[i] == Dict(rows[i])
  {
    List(seq(|rows|, i requires 0 <= i < |rows| => Dict(rows[i])))
  }

  /** The update writes `metadata_counts` and nothing else, with exactly the one key `key`. */
  predicate WritesOnlyCountsKey(u: Update, key: string) {
    && u.metadataCounts.Some?
    && u.metadataCounts.value.Keys == {key}
    && u.(metadataCounts := None) == NoUpdate
  }

  /** The update writes `messages` and nothing else. */
  predicate WritesOnlyMessages(u: Update) {
    u.messages.Some? && u.(messages := None) == NoUpdate
  }

  // ---------------------------------------------------------------------------
  // Nodes

  /** The `totalCount` of each identifier kind, `[]` when a kind has none. */
  function SraCounts(ids: SraIdentifiers): (counts: Dict)
    requires "run" in ids && "biosample" in ids && "bioproject" in ids
    ensures counts.Keys == {"run", "biosample", "bioproject"}
    ensures forall k :: k in counts ==>
      counts[k] == if "totalCount" in ids[k] then ids[k]["totalCount"] else List([])
  {
    map[
      "run" := Get(ids["run"], "totalCount", List([])),
      "biosample" := Get(ids["biosample"], "totalCount", List([])),
      "bioproject" := Get(ids["bioproject"], "totalCount", List([]))]
  }

  /**
   * `get_sra_id_counts`: guards in order on an empty identifier record, a
   * missing `run`/`biosample`/`bioproject` key and three empty entries;
   * otherwise records the three `totalCount`s under `metadata_counts["sra"]`.
   */
  function GetSraIdCounts(s: State): (u: Update)
    ensures |s.sraIdentifiers| == 0 ==> u == Say("No SRA accessions found.")
    ensures |s.sraIdentifiers| != 0 && !("run" in s.sraIdentifiers && "biosample" in s.sraIdentifiers
                                        && "bioproject" in s.sraIdentifiers)
            ==> u == Say("Invalid SRA identifiers structure.")
    ensures ("run" in s.sraIdentifiers && "biosample" in s.sraIdentifiers && "bioproject" in s.sraIdentifiers
             && |s.sraIdentifiers["run"]| == 0 && |s.sraIdentifiers["biosample"]| == 0
             && |s.sraIdentifiers["bioproject"]| == 0)
            ==> u == Say("No SRA identifiers found.")
    ensures u.metadataCounts.Some? <==>
            ("run" in s.sraIdentifiers && "biosample" in s.sraIdentifiers && "bioproject" in s.sraIdentifiers
             && (|s.sraIdentifiers["run"]| != 0 || |s.sraIdentifiers["biosample"]| != 0
                 || |s.sraIdentifiers["bioproject"]| != 0))
    ensures u.metadataCounts.Some? ==>
            && WritesOnlyCountsKey(u, "sra")
            && u.metadataCounts.value["sra"].Dict?
            && var counts := u.metadataCounts.value["sra"].fields;
            && counts.Keys == {"run", "biosample", "bioproject"}
            && (forall k :: k in counts ==>
                  counts[k] == if "totalCount" in s.sraIdentifiers[k]
                               then s.sraIdentifiers[k]["totalCount"] else List([]))
    ensures WritesOnlyMessages(u) || WritesOnlyCountsKey(u, "sra")
  {
    var ids := s.sraIdentifiers;
    if |ids| == 0 then
      Say("No SRA accessions found.")
    else if !("run" in ids && "biosample" in ids && "bioproject" in ids) then
      Say("Invalid SRA identifiers structure.")
    else
      var runIds := ids["run"];
      var biosamples := ids["biosample"];
      var bioprojects := ids["bioproject"];
      if |runIds| == 0 && |biosamples| == 0 && |bioprojects| == 0 then
        Say("No SRA identifiers found.")
      else
        NoUpdate.(metadataCounts := Some(map["sra" := Dict(SraCounts(ids))]))
  }

  /**
   * The shape shared by `get_organism_counts`, `get_tissue_counts`,
   * `get_disease_counts`, `get_sex_counts`, `get_stat_host_counts`,
   * `get_virus_family_counts` and `get_geo_attribute_counts`: one lookup over
   * the `single` ids of the node's id kind, written under the node's one key.
   */
  function CountNode(spec: CountNodeSpec, s: State, lookup: CountsLookup): (u: Update)
    ensures WritesOnlyCountsKey(u, spec.key)
    ensures u.metadataCounts.value[spec.key] == Rows(lookup(QueryFor(spec, s)))
    ensures QueryFor(spec, s).ids ==
      if spec.idColumn in s.sraIdentifiers && "single" in s.sraIdentifiers[spec.idColumn]
      then s.sraIdentifiers[spec.idColumn]["single"] else List([])
  {
    NoUpdate.(metadataCounts := Some(map[spec.key := Rows(lookup(QueryFor(spec, s)))]))
  }

  /** `biome_id_to_name`: WWF terrestrial-ecoregion biome codes and their names. */
  const BiomeNames: map<string, string> := map[
    "WWF_TEW_BIOME_01" := "Tropical & Subtropical Moist Broadleaf Forests",
    "WWF_TEW_BIOME_02" := "Tropical & Subtropical Dry Broadleaf Forests",
    "WWF_TEW_BIOME_03" := "Tropical & Subtropical Coniferous Forests",
    "WWF_TEW_BIOME_04" := "Temperate Broadleaf & Mixed Forests",
    "WWF_TEW_BIOME_05" := "Temperate Conifer Forests",
    "WWF_TEW_BIOME_06" := "Boreal Forests/Taiga",
    "WWF_TEW_BIOME_07" := "Tropical & Subtropical Grasslands, Savannas & Shrublands",
    "WWF_TEW_BIOME_08" := "Temperate Grasslands, Savannas & Shrublands",
    "WWF_TEW_BIOME_09" := "Flooded Grasslands & Savannas",
    "WWF_TEW_BIOME_10" := "Montane Grasslands & Shrublands",
    "WWF_TEW_BIOME_11" := "Tundra",
    "WWF_TEW_BIOME_12" := "Mediterranean Forests, Woodlands & Scrub",
    "WWF_TEW_BIOME_13" := "Deserts & Xeric Shrublands",
    "WWF_TEW_BIOME_14" := "Mangroves",
    "WWF_TEW_BIOME_98" := "Ocean",
    "WWF_TEW_BIOME_99" := "Ocean"]

  /** The row's `name` is a code of the table. */
  predicate HasBiomeCode(row: Dict) {
    "name" in row && row["name"].Str? && row["name"].s in BiomeNames
  }

  /** `result["name"] = biome_id_to_name[biome_id]` when the row's `name` is a code of the table. */
  function RenameBiome(row: Dict): Dict {
    if HasBiomeCode(row) then row["name" := Str(BiomeNames[row["name"].s])] else row
  }

  /** `biome_id in biome_id_to_name` hashes the row's `name`: a list or dict there raises `TypeError`. */
  predicate UnhashableName(row: Dict) {
    "name" in row && !Hashable(row["name"])
  }

  /**
   * The renaming loop of `get_biome_counts`: rows whose `name` is a code of
   * the table get the full name, and the first row whose `name` cannot be
   * hashed raises `TypeError`.
   */
  function {:induction false} RenameBiomes(rows: seq<Dict>): (r: Result<seq<Dict>, PyError>)
    ensures r.Raised? <==> exists i :: 0 <= i < |rows| && UnhashableName(rows[i])
    ensures r.Raised? ==> r.error == TypeError
    ensures r.Returned? ==> |r.value| == |rows|
    ensures r.Returned? ==> forall i :: 0 <= i < |rows| ==> r.value[i].Keys == rows[i].Keys
    ensures r.Returned? ==> forall i :: 0 <= i < |rows| && !HasBiomeCode(rows[i]) ==> r.value[i] == rows[i]
    ensures r.Returned? ==> forall i :: 0 <= i < |rows| && HasBiomeCode(rows[i]) ==>
      && r.value[i]["name"] == Str(BiomeNames[rows[i]["name"].s])
      && forall k :: k in rows[i] && k != "name" ==> r.value[i][k] == rows[i][k]
  {
    if |rows| == 0 then Returned([])
    else if UnhashableName(rows[0]) then Raised(TypeError)
    else
      var rest := RenameBiomes(rows[1..]);
      assert forall i :: 1 <= i < |rows| ==> rows[i] == rows[1..][i - 1];
      match rest
      case Raised(e) => Raised(e)
      case Returned(tail) => Returned([RenameBiome(rows[0])] + tail)
  }

  /**
   * `get_biome_counts`: the biome lookup with its codes renamed, or the
   * `TypeError` of the renaming loop.
   */
  function GetBiomeCounts(s: State, lookup: CountsLookup): (r: Result<Update, PyError>)
    ensures var rows := lookup(QueryFor(Biome, s));
      r.Raised? <==> exists i :: 0 <= i < |rows| && UnhashableName(rows[i])
    ensures r.Returned? ==> WritesOnlyCountsKey(r.value, "biome")
    ensures r.Returned? ==>
      r.value.metadataCounts.value["biome"] == Rows(RenameBiomes(lookup(QueryFor(Biome, s))).value)
  {
    match RenameBiomes(lookup(QueryFor(Biome, s)))
    case Raised(e) => Raised(e)
    case Returned(renamed) => Returned(NoUpdate.(metadataCounts := Some(map["biome" := Rows(renamed)])))
  }

  /** Both ocean biome codes map to "Ocean". */
  lemma OceanCodes()
    ensures BiomeNames["WWF_TEW_BIOME_98"] == "Ocean" && BiomeNames["WWF_TEW_BIOME_99"] == "Ocean"
  {
  }

  /** Every biome code has 16 characters. */
  lemma CodeLengths()
    ensures forall c :: c in BiomeNames ==> |c| == 16
  {
  }

  /** No biome name has 16 characters. */
  lemma NameLengths()
    ensures forall c :: c in BiomeNames ==> |BiomeNames[c]| != 16
  {
  }

  /** So no full biome name is itself a code. */
  lemma NamesAreNotCodes(code: string)
    requires code in BiomeNames
    ensures BiomeNames[code] !in BiomeNames
  {
    CodeLengths();
    NameLengths();
  }

  /** Renaming is idempotent: a renamed row is never renamed again, and renamed rows cannot raise. */
  lemma RenameBiomesIdempotent(rows: seq<Dict>)
    ensures RenameBiomes(rows).Returned? ==> RenameBiomes(RenameBiomes(rows).value) == RenameBiomes(rows)
  {
    if RenameBiomes(rows).Returned? {
      var r := RenameBiomes(rows).value;
      forall i | 0 <= i < |r|
        ensures !HasBiomeCode(r[i]) && !UnhashableName(r[i])
      {
        if HasBiomeCode(rows[i]) {
          NamesAreNotCodes(rows[i]["name"].s);
        } else {
          assert r[i] == rows[i];
        }
      }
      assert RenameBiomes(r).value == r;
    }
  }

  // ---------------------------------------------------------------------------
  // The fan-out frontier

  /** The update writes only `messages`, or only `metadata_counts` keys drawn from `keys`. */
  predicate WritesWithin(u: Update, keys: set<string>) {
    WritesOnlyMessages(u)
    || (u.metadataCounts.Some? && u.metadataCounts.value.Keys <= keys && u.(metadataCounts := None) == NoUpdate)
  }

  /** Updates that each write only within `keys`, at most one of them `messages`, are pairwise independent. */
  ghost predicate IndependentWithin(us: seq<Update>, keys: set<string>) {
    && PairwiseIndependent(us)
    && (forall i :: 0 <= i < |us| ==> WritesWithin(us[i], keys))
  }

  /** A node writing a fresh key joins an independent frontier without breaking it. */
  lemma JoinFrontier(us: seq<Update>, keys: set<string>, v: Update, key: string)
    requires IndependentWithin(us, keys)
    requires WritesOnlyCountsKey(v, key) && key !in keys
    ensures IndependentWithin(us + [v], keys + {key})
  {
    var r := us + [v];
    forall i, j | 0 <= i < |r| && 0 <= j < |r| && i != j
      ensures Independent(r[i], r[j])
    {
      if i < |us| && j < |us| {
        assert r[i] == us[i] && r[j] == us[j];
      }
    }
  }

  /** A frontier of nine updates in `add_node` order. */
  function Frontier9(sra: Update, tissue: Update, disease: Update, organism: Update, sex: Update,
                     statHost: Update, virusFamily: Update, geo: Update, biome: Update): seq<Update>
  {
    [sra] + [tissue] + [disease] + [organism] + [sex] + [statHost] + [virusFamily] + [geo] + [biome]
  }

  /** Each of the nine updates writes what its node may write. */
  predicate FrontierShape(sra: Update, tissue: Update, disease: Update, organism: Update, sex: Update,
                          statHost: Update, virusFamily: Update, geo: Update, biome: Update)
  {
    && (WritesOnlyMessages(sra) || WritesOnlyCountsKey(sra, "sra"))
    && WritesOnlyCountsKey(tissue, "tissue")
    && WritesOnlyCountsKey(disease, "disease")
    && WritesOnlyCountsKey(organism, "organism")
    && WritesOnlyCountsKey(sex, "sex")
    && WritesOnlyCountsKey(statHost, "stat_organism")
    && WritesOnlyCountsKey(virusFamily, "virus_family")
    && WritesOnlyCountsKey(geo, "geo_attribute")
    && WritesOnlyCountsKey(biome, "biome")
  }

  /**
   * The nine updates of the frontier, all computed from the same snapshot
   * `s`; when `get_biome_counts` raises, the whole step raises.
   */
  function FanOutUpdates(s: State, lookup: CountsLookup): (r: Result<seq<Update>, PyError>)
    ensures var rows := lookup(QueryFor(Biome, s));
      r.Raised? <==> exists i :: 0 <= i < |rows| && UnhashableName(rows[i])
    ensures r.Returned? ==> |r.value| == 9
  {
    match GetBiomeCounts(s, lookup)
    case Raised(e) => Raised(e)
    case Returned(biome) =>
      Returned(Frontier9(GetSraIdCounts(s), CountNode(Tissue, s, lookup), CountNode(Disease, s, lookup),
                         CountNode(Organism, s, lookup), CountNode(Sex, s, lookup), CountNode(StatHost, s, lookup),
                         CountNode(VirusFamily, s, lookup), CountNode(GeoAttribute, s, lookup), biome))
  }

  /** The keys of `metadata_counts` the nine nodes write; they are pairwise distinct. */
  const FanOutKeys: set<string> :=
    {"sra", "tissue", "disease", "organism", "sex", "stat_organism", "virus_family", "geo_attribute", "biome"}

  /** Nine updates of the frontier's shape are pairwise independent. */
  lemma Frontier9Independent(sra: Update, tissue: Update, disease: Update, organism: Update, sex: Update,
                             statHost: Update, virusFamily: Update, geo: Update, biome: Update)
    requires FrontierShape(sra, tissue, disease, organism, sex, statHost, virusFamily, geo, biome)
    ensures IndependentWithin(Frontier9(sra, tissue, disease, organism, sex, statHost, virusFamily, geo, biome),
                              FanOutKeys)
  {
    var u0 := [sra];
    assert IndependentWithin(u0, {"sra"});
    var u1 := u0 + [tissue];
    JoinFrontier(u0, {"sra"}, tissue, "tissue");
    var u2 := u1 + [disease];
    JoinFrontier(u1, {"sra", "tissue"}, disease, "disease");
    var u3 := u2 + [organism];
    JoinFrontier(u2, {"sra", "tissue", "disease"}, organism, "organism");
    var u4 := u3 + [sex];
    JoinFrontier(u3, {"sra", "tissue", "disease", "organism"}, sex, "sex");
    var u5 := u4 + [statHost];
    JoinFrontier(u4, {"sra", "tissue", "disease", "organism", "sex"}, statHost, "stat_organism");
    var u6 := u5 + [virusFamily];
    JoinFrontier(u5, {"sra", "tissue", "disease", "organism", "sex", "stat_organism"},
                 virusFamily, "virus_family");
    var u7 := u6 + [geo];
    JoinFrontier(u6, {"sra", "tissue", "disease", "organism", "sex", "stat_organism", "virus_family"},
                 geo, "geo_attribute");
    JoinFrontier(u7, {"sra", "tissue", "disease", "organism", "sex", "stat_organism", "virus_family",
                      "geo_attribute"}, biome, "biome");
  }

  /** The nine nodes' updates have the frontier's shape. */
  lemma FanOutShape(s: State, lookup: CountsLookup)
    requires GetBiomeCounts(s, lookup).Returned?
    ensures FrontierShape(GetSraIdCounts(s), CountNode(Tissue, s, lookup), CountNode(Disease, s, lookup),
              CountNode(Organism, s, lookup), CountNode(Sex, s, lookup), CountNode(StatHost, s, lookup),
              CountNode(VirusFamily, s, lookup), CountNode(GeoAttribute, s, lookup), GetBiomeCounts(s, lookup).value)
  {
  }

  /**
   * The nine updates are pairwise independent: each writes exactly its own
   * key of `metadata_counts`, except that `get_sra_id_counts` may write a
   * message instead.
   */
  lemma FanOutIndependent(s: State, lookup: CountsLookup)
    ensures FanOutUpdates(s, lookup).Returned? ==> PairwiseIndependent(FanOutUpdates(s, lookup).value)
  {
    if GetBiomeCounts(s, lookup).Returned? {
      FanOutShape(s, lookup);
      Frontier9Independent(GetSraIdCounts(s), CountNode(Tissue, s, lookup), CountNode(Disease, s, lookup),
                CountNode(Organism, s, lookup), CountNode(Sex, s, lookup), CountNode(StatHost, s, lookup),
                CountNode(VirusFamily, s, lookup), CountNode(GeoAttribute, s, lookup), GetBiomeCounts(s, lookup).value);
    }
  }

  /** Merging the fan-out's updates with `merge_dicts` gives the same state in every order. */
  lemma FanOutOrderIrrelevant(s: State, lookup: CountsLookup)
    ensures FanOutUpdates(s, lookup).Returned? ==>
      var us := FanOutUpdates(s, lookup).value;
      forall order :: multiset(order) == multiset(us) ==> FoldUpdates(s, order) == FoldUpdates(s, us)
  {
    if FanOutUpdates(s, lookup).Returned? {
      var us := FanOutUpdates(s, lookup).value;
      FanOutIndependent(s, lookup);
      forall order | multiset(order) == multiset(us)
        ensures FoldUpdates(s, order) == FoldUpdates(s, us)
      {
        FoldOrderIrrelevant(s, order, us);
      }
    }
  }

  /** In a frontier of that shape a count key's owner is the only update writing it. */
  lemma Frontier9Owner(sra: Update, tissue: Update, disease: Update, organism: Update, sex: Update,
                       statHost: Update, virusFamily: Update, geo: Update, biome: Update, v: Update, k: string)
    requires FrontierShape(sra, tissue, disease, organism, sex, statHost, virusFamily, geo, biome)
    requires || (v == sra && k == "sra") || (v == tissue && k == "tissue") || (v == disease && k == "disease")
             || (v == organism && k == "organism") || (v == sex && k == "sex")
             || (v == statHost && k == "stat_organism") || (v == virusFamily && k == "virus_family")
             || (v == geo && k == "geo_attribute") || (v == biome && k == "biome")
    ensures v in Frontier9(sra, tissue, disease, organism, sex, statHost, virusFamily, geo, biome)
    ensures var us := Frontier9(sra, tissue, disease, organism, sex, statHost, virusFamily, geo, biome);
      forall w :: w in us && w != v ==> !WritesCountsKey(w, k)
  {
  }

  /** Folding a frontier of that shape leaves each biosample count key holding its writer's value. */
  lemma Frontier9BiosampleKeys(s: State, sra: Update, tissue: Update, disease: Update, organism: Update, sex: Update,
                               statHost: Update, virusFamily: Update, geo: Update, biome: Update)
    requires FrontierShape(sra, tissue, disease, organism, sex, statHost, virusFamily, geo, biome)
    ensures var m := FoldUpdates(s, Frontier9(sra, tissue, disease, organism, sex, statHost, virusFamily, geo, biome)).metadataCounts;
      && "tissue" in m && m["tissue"] == tissue.metadataCounts.value["tissue"]
      && "disease" in m && m["disease"] == disease.metadataCounts.value["disease"]
      && "sex" in m && m["sex"] == sex.metadataCounts.value["sex"]
      && "geo_attribute" in m && m["geo_attribute"] == geo.metadataCounts.value["geo_attribute"]
      && "biome" in m && m["biome"] == biome.metadataCounts.value["biome"]
  {
    var us := Frontier9(sra, tissue, disease, organism, sex, statHost, virusFamily, geo, biome);
    Frontier9Owner(sra, tissue, disease, organism, sex, statHost, virusFamily, geo, biome, tissue, "tissue");
    FoldSoleWriter(s, us, tissue, "tissue");
    Frontier9Owner(sra, tissue, disease, organism, sex, statHost, virusFamily, geo, biome, disease, "disease");
    FoldSoleWriter(s, us, disease, "disease");
    Frontier9Owner(sra, tissue, disease, organism, sex, statHost, virusFamily, geo, biome, sex, "sex");
    FoldSoleWriter(s, us, sex, "sex");
    Frontier9Owner(sra, tissue, disease, organism, sex, statHost, virusFamily, geo, biome, geo, "geo_attribute");
    FoldSoleWriter(s, us, geo, "geo_attribute");
    Frontier9Owner(sra, tissue, disease, organism, sex, statHost, virusFamily, geo, biome, biome, "biome");
    FoldSoleWriter(s, us, biome, "biome");
  }

  /** Folding a frontier of that shape leaves each run count key, and `sra` when written, holding its writer's value. */
  lemma Frontier9RunKeys(s: State, sra: Update, tissue: Update, disease: Update, organism: Update, sex: Update,
                         statHost: Update, virusFamily: Update, geo: Update, biome: Update)
    requires FrontierShape(sra, tissue, disease, organism, sex, statHost, virusFamily, geo, biome)
    ensures var m := FoldUpdates(s, Frontier9(sra, tissue, disease, organism, sex, statHost, virusFamily, geo, biome)).metadataCounts;
      && "organism" in m && m["organism"] == organism.metadataCounts.value["organism"]
      && "stat_organism" in m && m["stat_organism"] == statHost.metadataCounts.value["stat_organism"]
      && "virus_family" in m && m["virus_family"] == virusFamily.metadataCounts.value["virus_family"]
      && (sra.metadataCounts.Some? ==> "sra" in m && m["sra"] == sra.metadataCounts.value["sra"])
  {
    var us := Frontier9(sra, tissue, disease, organism, sex, statHost, virusFamily, geo, biome);
    Frontier9Owner(sra, tissue, disease, organism, sex, statHost, virusFamily, geo, biome, organism, "organism");
    FoldSoleWriter(s, us, organism, "organism");
    Frontier9Owner(sra, tissue, disease, organism, sex, statHost, virusFamily, geo, biome, statHost, "stat_organism");
    FoldSoleWriter(s, us, statHost, "stat_organism");
    Frontier9Owner(sra, tissue, disease, organism, sex, statHost, virusFamily, geo, biome, virusFamily, "virus_family");
    FoldSoleWriter(s, us, virusFamily, "virus_family");
    if sra.metadataCounts.Some? {
      Frontier9Owner(sra, tissue, disease, organism, sex, statHost, virusFamily, geo, biome, sra, "sra");
      FoldSoleWriter(s, us, sra, "sra");
    }
  }

  /** Folding a frontier of that shape touches no key outside the nine. */
  lemma Frontier9Untouched(s: State, sra: Update, tissue: Update, disease: Update, organism: Update, sex: Update,
                           statHost: Update, virusFamily: Update, geo: Update, biome: Update)
    requires FrontierShape(sra, tissue, disease, organism, sex, statHost, virusFamily, geo, biome)
    ensures var m := FoldUpdates(s, Frontier9(sra, tissue, disease, organism, sex, statHost, virusFamily, geo, biome)).metadataCounts;
      forall k :: k !in FanOutKeys ==>
        (k in m <==> k in s.metadataCounts) && (k in m ==> m[k] == s.metadataCounts[k])
  {
    var us := Frontier9(sra, tissue, disease, organism, sex, statHost, virusFamily, geo, biome);
    forall k | k !in FanOutKeys
      ensures k in FoldUpdates(s, us).metadataCounts <==> k in s.metadataCounts
      ensures k in s.metadataCounts ==> FoldUpdates(s, us).metadataCounts[k] == s.metadataCounts[k]
    {
      FoldKeepsUnwrittenKey(s, us, k);
    }
  }

  /**
   * After the fan-in every count key holds its node's rows (the biome rows
   * renamed), `sra` holds the identifier totals unless `get_sra_id_counts`
   * returned a diagnostic, and every key outside the nine is untouched.
   */
  lemma FanInHoldsAllKeys(s: State, lookup: CountsLookup)
    ensures FanOutUpdates(s, lookup).Returned? ==>
      var m := FoldUpdates(s, FanOutUpdates(s, lookup).value).metadataCounts;
      && "tissue" in m && m["tissue"] == Rows(lookup(QueryFor(Tissue, s)))
      && "disease" in m && m["disease"] == Rows(lookup(QueryFor(Disease, s)))
      && "organism" in m && m["organism"] == Rows(lookup(QueryFor(Organism, s)))
      && "sex" in m && m["sex"] == Rows(lookup(QueryFor(Sex, s)))
      && "stat_organism" in m && m["stat_organism"] == Rows(lookup(QueryFor(StatHost, s)))
      && "virus_family" in m && m["virus_family"] == Rows(lookup(QueryFor(VirusFamily, s)))
      && "geo_attribute" in m && m["geo_attribute"] == Rows(lookup(QueryFor(GeoAttribute, s)))
      && "biome" in m && m["biome"] == Rows(RenameBiomes(lookup(QueryFor(Biome, s))).value)
      && (GetSraIdCounts(s).metadataCounts.Some? ==>
            "sra" in m && m["sra"] == GetSraIdCounts(s).metadataCounts.value["sra"])
      && (forall k :: k !in FanOutKeys ==>
            (k in m <==> k in s.metadataCounts) && (k in m ==> m[k] == s.metadataCounts[k]))
  {
    if GetBiomeCounts(s, lookup).Returned? {
      var sra, tissue, disease, organism, sex, statHost, virusFamily, geo, biome :=
        GetSraIdCounts(s), CountNode(Tissue, s, lookup), CountNode(Disease, s, lookup),
        CountNode(Organism, s, lookup), CountNode(Sex, s, lookup), CountNode(StatHost, s, lookup),
        CountNode(VirusFamily, s, lookup), CountNode(GeoAttribute, s, lookup), GetBiomeCounts(s, lookup).value;
      FanOutShape(s, lookup);
      Frontier9BiosampleKeys(s, sra, tissue, disease, organism, sex, statHost, virusFamily, geo, biome);
      Frontier9RunKeys(s, sra, tissue, disease, organism, sex, statHost, virusFamily, geo, biome);
      Frontier9Untouched(s, sra, tissue, disease, organism, sex, statHost, virusFamily, geo, biome);
    }
  }

  // ---------------------------------------------------------------------------
  // Topology

  const NodeNames: set<string> := {
    "get_sra_id_counts", "get_tissue_counts", "get_disease_counts", "get_organism_counts",
    "get_sex_counts", "get_stat_host_counts", "get_virus_family_counts",
    "get_geo_attribute_counts", "get_biome_counts"}

  /** The nine `add_edge(START, …)` and nine `add_edge(…, END)` calls. */
  const CountsGraph: Graph := FanGraph(NodeNames)

  /** The graph compiles; every node has an edge from START and an edge to END, and nothing else. */
  lemma CountsGraphWellFormed()
    ensures WellFormed(CountsGraph)
    ensures Succs(CountsGraph, Start) == set n | n in NodeNames :: Node(n)
    ensures Preds(CountsGraph, End) == set n | n in NodeNames :: Node(n)
    ensures forall n :: n in NodeNames ==> Preds(CountsGraph, Node(n)) == {Start}
  {
    FanGraphShape(NodeNames);
  }
}
