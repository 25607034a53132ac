# Open Virome workflow core, modelled in Dafny

This project models the workflow logic of the Open Virome MCP server: four
langgraph workflows and two small utilities (accession extraction and SQL row
shaping). Three of the workflows (metadata counts, MWAS and virus metadata
analysis) share one `State` of reduced channels. The two-node demonstration
workflow has its own state, a list of messages only (`MetadataAnomaly`).

- **State and reducers.** `Reducers` models `merge_dicts` and
  `unique_list_merge`. `WorkflowState` models the `State` schema and `Apply`,
  which merges a node's sparse update into the state field by field, each
  field with the reducer the schema declares: `merge_dicts`, concatenation or
  `unique_list_merge`.
- **Nodes.** Every node is a pure function from the state to an update.
  Database, graph-database and LLM calls are function-typed parameters.
  Python's dynamic values are the `Values.Value` datatype, with truthiness and
  `dict.get` written out. Dictionaries are maps.
- **Frontiers.** `Frontier` folds the updates of one fan-out frontier into the
  state. It proves that the fold order cannot matter when the updates are
  pairwise independent. It also proves what a compiled subgraph used as a node
  does when its final state is merged back with the parent's reducers.
- **Topologies.** `Graphs` and the per-workflow graph constants hold the
  declared node sets and `add_edge` lists as data. Lemmas fix reachability
  from START, paths to END, and the predecessor sets of the fan-in nodes.
- **Utilities.** `Accessions` models `re.findall` for the accession pattern as
  an explicit left-to-right scan, proved sound and complete. `Psql` models the
  row shaping of `run_sql_query`.

Two consequences the proofs make explicit:

- `Frontier.SubgraphMergeBack`: when a subgraph node's final state is merged
  into the parent with the parent's reducers, the dictionary and de-duplicated
  channels end as the subgraph left them. The concatenated channels
  (`messages`, `mwas_results`) hold the parent's list twice.
- `Frontier.SubgraphMergeBackExact`: running a subgraph embedded gives the
  same state as running it directly only when the parent's concatenated
  channels were empty.

The type annotations of `state.py` and the code that reads and writes the
state disagree in several places. The model follows the code in each:

- `SRAIdentifiers` entries are annotated as lists (`state.py:22-24`). The nodes
  call `.get("totalCount")` and `.get("single")` on them, so they are
  dictionaries (`WorkflowState.SraIdentifiers`).
- `MetadataCounts.sra` is annotated as a list of dictionaries (`state.py:28`).
  `get_sra_id_counts` writes one dictionary with the keys run, biosample and
  bioproject (`metadata_counts.py:51-58`), as `MetadataCounts.SraCounts` does.
- `virus_families` is annotated as `list[str]` (`state.py:90`).
  `get_matching_virus_families` collects whatever truthy `tax_family` the rows
  hold (`mwas.py:29-31`), so the channel holds `Values.Value`s, and a list or
  dict there raises `TypeError` (`Mwas.MatchingFamilies`).
- `UserInput` declares both `hypothesis` and `species_label` as required
  (`state.py:78-80`). The nodes read them with `.get(…, "")`, so either may be
  missing (`WorkflowState.UserInput`).
- `messages` is annotated `Sequence[BaseMessage]` (`state.py:85`,
  `metadata_anomaly.py:11`). The nodes read `messages[-1]["content"]` and write
  `{"role": ..., "content": ...}` dictionaries, so a message is a role and a
  string content (`WorkflowState.Message`).
- The rows of `metadata_counts`, `mwas_results` and the reports are annotated
  with string-valued fields (`state.py:27-75`). They hold whatever the lookups
  and the LLM return, so they are `Values.Dict`s.

## Model

| member | source | states |
|---|---|---|
| Reducers.MergeDicts | src/tools/workflows/utils.py:14-19 | None on the left gives `b` or `{}`, None on the right gives `a` or `{}`; otherwise the keys are the union, `b` wins on shared keys and keys only in `a` keep `a`'s value |
| Reducers.MergeDictsNone | src/tools/workflows/utils.py:15-18 | a None argument on either side behaves as the other argument or `{}` |
| Reducers.MergeDictsAssociative | src/tools/workflows/utils.py:19 | `merge_dicts` is associative |
| Reducers.MergeDictsCommutesWhenDisjoint | src/tools/workflows/utils.py:19 | on disjoint key sets the argument order does not matter |
| Reducers.MergeDictsIdempotentAndUnit | src/tools/workflows/utils.py:19 | `merge_dicts(x, x) == x`, and `{}` is an identity on both sides |
| Reducers.MergeDictsAbsorbs | src/tools/workflows/utils.py:19 | a dictionary holding every key of `a` absorbs `a` from the left |
| Reducers.Dedup | src/tools/workflows/utils.py:23 | `dict.fromkeys` keeps exactly the input's elements, none twice, and is never longer |
| Reducers.DedupOfNoDup | src/tools/workflows/utils.py:23 | a duplicate-free list is its own de-duplication |
| Reducers.DedupAbsorbs | src/tools/workflows/utils.py:23 | appending only elements already present changes nothing |
| Reducers.DedupFirstOccurrenceOrder | src/tools/workflows/utils.py:23 | the result lists elements in the order of their first occurrence |
| Reducers.DedupRepeatedPrefix | src/tools/workflows/utils.py:23 | a duplicate-free list extending `p` absorbs a second copy of `p` in front of it |
| Reducers.UniqueListMerge | src/tools/workflows/utils.py:22-23 | the merge has no duplicates, and every element of `a` or `b` is in it and nothing else |
| Reducers.UniqueListMergeContents | src/tools/workflows/utils.py:23 | the merge has no duplicates, holds exactly set(a) ∪ set(b), in first-occurrence order |
| Reducers.UniqueListMergeKeepsLeft | src/tools/workflows/utils.py:23 | a duplicate-free left list is a prefix of the merge |
| Reducers.UniqueListMergeIdempotent | src/tools/workflows/utils.py:23 | merging the result with `b` again changes nothing |
| Reducers.UniqueListMergeSelf | src/tools/workflows/utils.py:23 | `unique_list_merge(x, x)` is `x` exactly when `x` has no duplicates |
| Reducers.UniqueListMergeExample | src/tools/workflows/utils.py:23 | `["a","b"]` merged with `["b","c"]` is `["a","b","c"]` |
| WorkflowState.Apply | src/tools/workflows/state.py:83-92 | the update `{}` leaves every channel unchanged |
| WorkflowState.ApplyGrows | src/tools/workflows/state.py:83-92 | every reducer is monotone: no message, MWAS row, palm_id, family or dictionary key is lost; concatenated channels grow by exactly the returned list |
| WorkflowState.ApplyKeepsDupFree | src/tools/workflows/state.py:86-90 | `palm_ids` and `virus_families` stay duplicate-free and keep the old list as a prefix |
| WorkflowState.ApplyOverwritesOnlyCarriedKeys | src/tools/workflows/state.py:84-92 | each of the five `merge_dicts` channels (`user_input`, `sra_identifiers`, `metadata_counts`, `validation_report`, `anomaly_report`) changes exactly the keys the update carries, and is unchanged when the update does not return it |
| WorkflowState.EmptyListsAreNoOp | src/tools/workflows/state.py:85-90 | returning `[]` for every list channel is a no-op, not a reset |
| WorkflowState.RedeliveredIdsAreNoOp | src/tools/workflows/state.py:86 | re-delivering palm_ids already present leaves a duplicate-free `palm_ids` unchanged |
| Frontier.ApplyCommutes | src/tools/workflows/state.py:83-92 | two independent updates can be applied in either order |
| Frontier.MoveToFront | src/tools/workflows/state.py:83-92 | an update independent of everything before it can be merged first |
| Frontier.FoldOrderIrrelevant | src/tools/workflows/metadata_counts.py:245-263 | pairwise independent updates fold to the same state in every order |
| Frontier.FoldGrows | src/tools/workflows/state.py:83-92 | folding a frontier never loses anything a reducer keeps |
| Frontier.FoldKeepsDupFree | src/tools/workflows/state.py:86-90 | folding keeps the de-duplicated channels duplicate-free and only appends to them |
| Frontier.SubgraphMergeBack | src/tools/workflows/virus_metadata_analysis.py:225-226 | merging a subgraph's final state back keeps dictionary and de-duplicated channels as the subgraph left them, and doubles the parent's concatenated lists |
| Frontier.SubgraphMergeBackExact | src/tools/workflows/virus_metadata_analysis.py:225-226 | the embedded run equals the direct run exactly when the parent's `messages` and `mwas_results` were empty |
| Frontier.FoldKeepsUnwrittenKey | src/tools/workflows/state.py:88 | a `metadata_counts` key no update writes keeps its presence and value |
| Frontier.FoldHoldsWrittenValue | src/tools/workflows/state.py:88 | a key whose writers all agree ends with that value, whatever the order |
| Frontier.FoldSoleWriter | src/tools/workflows/state.py:88 | a key with a single writer ends with that writer's value |
| Graphs.OnStartEndPath | src/tools/workflows/virus_metadata_analysis.py:231-242 | every endpoint on a START-to-END path is reachable from START and reaches END |
| Graphs.CoveredByPaths | src/tools/workflows/virus_metadata_analysis.py:231-242 | a graph whose nodes all lie on two START-to-END paths compiles |
| Graphs.FanGraphShape | src/tools/workflows/metadata_counts.py:245-263 | a fan graph compiles, START's successors and END's predecessors are all nodes, and each node's only predecessor is START |
| MetadataCounts.SraCounts | src/tools/workflows/metadata_counts.py:51-55 | exactly the keys run, biosample and bioproject, each its `totalCount` or `[]` |
| MetadataCounts.GetSraIdCounts | src/tools/workflows/metadata_counts.py:20-59 | the three diagnostics in guard order, and otherwise exactly the key `sra` with the three totals; counts are written iff all three keys exist and one entry is non-empty |
| MetadataCounts.CountNode | src/tools/workflows/metadata_counts.py:62-188 | each count node writes only its own key, holding the lookup's rows for the `single` ids of its id kind, or `[]` ids when missing |
| MetadataCounts.RenameBiomes | src/tools/workflows/metadata_counts.py:222-226 | `TypeError` exactly when some row's `name` is a list or dict; otherwise length and keys kept, `name` replaced only when it is a code of the table, other rows and fields unchanged |
| MetadataCounts.GetBiomeCounts | src/tools/workflows/metadata_counts.py:191-231 | `TypeError` exactly when some looked-up row's `name` is a list or dict; otherwise writes only `biome`, holding the renamed rows |
| MetadataCounts.OceanCodes | src/tools/workflows/metadata_counts.py:218-219 | both ocean codes map to "Ocean" |
| MetadataCounts.NamesAreNotCodes | src/tools/workflows/metadata_counts.py:203-220 | no biome name is itself a code |
| MetadataCounts.RenameBiomesIdempotent | src/tools/workflows/metadata_counts.py:222-226 | renaming rows that did not raise again raises nothing and changes nothing |
| MetadataCounts.FanOutUpdates | src/tools/workflows/metadata_counts.py:233-263 | the step raises exactly when some biome row's `name` is a list or dict; otherwise it has the nine nodes' updates |
| MetadataCounts.JoinFrontier | src/tools/workflows/metadata_counts.py:245-263 | a node writing a fresh key joins an independent frontier without breaking it |
| MetadataCounts.Frontier9Independent | src/tools/workflows/metadata_counts.py:245-263 | nine updates, each writing its own distinct key, are pairwise independent |
| MetadataCounts.FanOutIndependent | src/tools/workflows/metadata_counts.py:245-263 | when no node raises, the nine fan-out nodes' updates are pairwise independent |
| MetadataCounts.FanOutOrderIrrelevant | src/tools/workflows/metadata_counts.py:245-263 | when no node raises, merging the nine updates gives the same state in every order |
| MetadataCounts.Frontier9Owner | src/tools/workflows/metadata_counts.py:245-263 | each count key's owner is the only update writing it |
| MetadataCounts.Frontier9Untouched | src/tools/workflows/metadata_counts.py:245-263 | keys outside the nine are untouched by the fan-in |
| MetadataCounts.FanInHoldsAllKeys | src/tools/workflows/metadata_counts.py:245-263 | when no node raises, after the fan-in all nine keys hold their nodes' rows (`sra` unless diagnosed), other keys untouched |
| MetadataCounts.CountsGraphWellFormed | src/tools/workflows/metadata_counts.py:245-263 | the graph compiles, every node has an edge from START and to END, and no other edges |
| Mwas.MatchingFamilies | src/tools/workflows/mwas.py:25-31 | `TypeError` exactly when some matching row's truthy `tax_family` is a list or dict; otherwise exactly the truthy `tax_family` of rows whose `palm_id` is in `palm_ids`, all hashable |
| Mwas.GetMatchingVirusFamilies | src/tools/workflows/mwas.py:12-33 | the same `TypeError` condition; otherwise writes only `virus_families`, without repeats, holding exactly the matching rows' truthy families |
| Mwas.Strip | src/tools/workflows/mwas.py:65-72 | the row's keys minus the three large fields, with values unchanged |
| Mwas.StripRoundTrip | src/tools/workflows/mwas.py:65-72 | the stripped row plus the large part is the original row, and stripping is idempotent |
| Mwas.StripAll | src/tools/workflows/mwas.py:65-72 | the list keeps its length, each row stripped |
| Mwas.GetMwasResults | src/tools/workflows/mwas.py:36-73 | the three diagnostics in guard order; otherwise the stripped rows, none with a large field |
| Mwas.Run | src/tools/workflows/mwas.py:76-84 | the chain raises `TypeError` exactly when a matching row's family is a list or dict; otherwise it changes only `messages`, `mwas_results` and `virus_families` |
| Mwas.FamiliesReachMwasQuery | src/tools/workflows/mwas.py:25-48 | when the first node returns, `virus_families` afterwards holds the old and new families and is empty exactly when both were |
| Mwas.RunRaisesOnUnhashableFamily | src/tools/workflows/mwas.py:28-31 | a matching row with a list or dict family makes the run raise `TypeError` |
| Mwas.RunWithoutFamilies | src/tools/workflows/mwas.py:43-48 | no matching family yields exactly "No virus families found." and no MWAS rows |
| Mwas.RunWithResults | src/tools/workflows/mwas.py:43-73 | when the merged `virus_families` (old or new) is non-empty and the MWAS reply has rows, the run appends one stripped row per reply row and no message |
| Mwas.MwasGraphWellFormed | src/tools/workflows/mwas.py:81-83 | the chain compiles; `get_mwas_results` runs only after `get_matching_virus_families` |
| VirusMetadataAnalysis.ColumnOf | src/tools/workflows/virus_metadata_analysis.py:34 | the column, or `IndexError` exactly when some row is too short |
| VirusMetadataAnalysis.ColumnMembers | src/tools/workflows/virus_metadata_analysis.py:56 | a value is in the column exactly when some row holds it there |
| VirusMetadataAnalysis.DataRows | src/tools/workflows/virus_metadata_analysis.py:33-34 | the reply's rows without the header, `[]` when there is no data |
| VirusMetadataAnalysis.GetPalmIdsFromSpeciesLabel | src/tools/workflows/virus_metadata_analysis.py:22-35 | no species label gives only the diagnostic; otherwise column 0 of the data rows, or `IndexError` exactly when a row is empty |
| VirusMetadataAnalysis.Exclude | src/tools/workflows/virus_metadata_analysis.py:59-61 | exactly the elements of `xs` not in `ys` |
| VirusMetadataAnalysis.NewPalmIds | src/tools/workflows/virus_metadata_analysis.py:58-62 | duplicate-free, exactly the similar ids not already present |
| VirusMetadataAnalysis.GetEvolSimilarPalmIds | src/tools/workflows/virus_metadata_analysis.py:38-67 | empty `palm_ids` gives the diagnostic; `IndexError` exactly when a row is short; otherwise new, duplicate-free ids, or `{}` exactly when none remain |
| VirusMetadataAnalysis.EvolShortCircuit | src/tools/workflows/virus_metadata_analysis.py:40-49 | with empty `palm_ids` the result does not depend on the lookup and adds one message only |
| VirusMetadataAnalysis.EvolAppendsOnlyNewIds | src/tools/workflows/virus_metadata_analysis.py:58-67 | merging the node's ids appends exactly the new ones after the old |
| VirusMetadataAnalysis.SotuFilters | src/tools/workflows/virus_metadata_analysis.py:82-85 | one `sotu` filter per palm_id |
| VirusMetadataAnalysis.SotuFiltersRoundTrip | src/tools/workflows/virus_metadata_analysis.py:82-85 | the filters' values are exactly the palm_ids, in order |
| VirusMetadataAnalysis.GetMatchingSraIds | src/tools/workflows/virus_metadata_analysis.py:70-93 | no palm_ids or an empty reply gives its diagnostic; otherwise only `sra_identifiers`, the reply |
| VirusMetadataAnalysis.PromptHypothesis | src/tools/workflows/virus_metadata_analysis.py:116 | the hypothesis followed by the species sentence |
| VirusMetadataAnalysis.CountsForPrompt | src/tools/workflows/virus_metadata_analysis.py:117-119 | only list-valued keys, each truncated to its first 20 entries |
| VirusMetadataAnalysis.CountsForPromptIdempotent | src/tools/workflows/virus_metadata_analysis.py:117-119 | truncating twice is truncating once |
| VirusMetadataAnalysis.CountsForPromptKeepsShortLists | src/tools/workflows/virus_metadata_analysis.py:171-173 | counts of short lists reach the LLM unchanged |
| VirusMetadataAnalysis.LlmValidateHypothesis | src/tools/workflows/virus_metadata_analysis.py:96-147 | guard on hypothesis and counts-or-MWAS; an empty response gives its diagnostic, otherwise only `validation_report` |
| VirusMetadataAnalysis.LlmIdentifyAnomalies | src/tools/workflows/virus_metadata_analysis.py:150-197 | guard on all three inputs; an empty response gives its diagnostic, otherwise only `anomaly_report` |
| VirusMetadataAnalysis.AnomalyGuardIsStronger | src/tools/workflows/virus_metadata_analysis.py:102-156 | the anomaly guard implies the validation guard, and counts without MWAS rows pass only the latter |
| VirusMetadataAnalysis.LlmNodesCommute | src/tools/workflows/virus_metadata_analysis.py:236-241 | the two LLM nodes' updates fold alike in either order exactly unless the validation guard passes and both nodes return a diagnostic message |
| VirusMetadataAnalysis.LlmNodesOrderVisible | src/tools/workflows/virus_metadata_analysis.py:96-197 | with a hypothesis and counts, no MWAS rows and no LLM response, the two orders leave different message lists |
| VirusMetadataAnalysis.GetSupportingDocuments | src/tools/workflows/virus_metadata_analysis.py:200-214 | `{}` exactly when some report is present, otherwise the diagnostic |
| VirusMetadataAnalysis.AnalysisFanIns | src/tools/workflows/virus_metadata_analysis.py:231-242 | both LLM nodes have exactly the two subgraph nodes as predecessors, and the document check has exactly the two LLM nodes |
| VirusMetadataAnalysis.AnalysisEdgesDeclared | src/tools/workflows/virus_metadata_analysis.py:231-242 | every edge joins registered nodes |
| VirusMetadataAnalysis.AnalysisGraphWellFormed | src/tools/workflows/virus_metadata_analysis.py:219-242 | every node is reachable from START and reaches END |
| MetadataAnomaly.LastContent | src/tools/workflows/metadata_anomaly.py:16-18 | the last message's content, or "No input provided" |
| MetadataAnomaly.Answer | src/tools/workflows/metadata_anomaly.py:19-23 | one assistant message: the last content followed by the node's reply |
| MetadataAnomaly.Node1 | src/tools/workflows/metadata_anomaly.py:14-23 | one assistant message: the last content (or "No input provided") followed by Node-1's greeting |
| MetadataAnomaly.Node2 | src/tools/workflows/metadata_anomaly.py:26-35 | one assistant message: the last content (or "No input provided") followed by Node-2's greeting |
| MetadataAnomaly.Run | src/tools/workflows/metadata_anomaly.py:38-45 | the run keeps the initial messages as a prefix and appends exactly two |
| MetadataAnomaly.RunAppendsTwoAnswers | src/tools/workflows/metadata_anomaly.py:41-45 | the initial messages plus two answers, the second extending the first |
| MetadataAnomaly.RunFromNothing | src/tools/workflows/metadata_anomaly.py:16-18 | from no messages the run answers "No input provided" twice over |
| MetadataAnomaly.AnomalyGraphWellFormed | src/tools/workflows/metadata_anomaly.py:43-45 | the chain compiles; Node-2 runs only after Node-1 |
| Accessions.DigitRun | src/tools/utils.py:14 | the maximal run of ASCII digits |
| Accessions.MatchLen | src/tools/utils.py:14 | non-zero only at a match, and then its length |
| Accessions.MatchLenExact | src/tools/utils.py:14 | the match at a position is unique |
| Accessions.NoMatchInsideMatch | src/tools/utils.py:14 | no match starts strictly inside another |
| Accessions.FindAll | src/tools/utils.py:14 | no contract of its own; characterised by `Accessions.FindAllSound` and `Accessions.FindAllComplete` |
| Accessions.FindAllSound | src/tools/utils.py:14 | everything the scan finds is a match |
| Accessions.FindAllComplete | src/tools/utils.py:14 | the scan finds every match |
| Accessions.ExtractAccessions | src/tools/utils.py:5-16 | no duplicates; an accession is in the result exactly when it is the text of some match |
| Accessions.AccessionShape | src/tools/utils.py:14 | every accession starts with SRX or ERX and continues with at least four digits only |
| Accessions.ExtractAccessionsRepeated | src/tools/utils.py:14-16 | a repeated accession is reported |
| Accessions.ExtractAccessionsTooShort | src/tools/utils.py:14 | three digits after the prefix are not an accession |
| Psql.ShapeRows | src/resources/psql.py:58-63 | the header row is the column names, one row per fetched row of the same width, NULL as "" and other cells as their text |

## Left out

- The langgraph runtime: `StateGraph`, `compile()`, the scheduler, concurrency and streaming. The library is not part of this model. A frontier's updates are folded in registration order; the fold-order lemmas show when that order cannot matter.
- Collaborator bodies are not part of this model: `get_counts_by_identifiers`, `get_results_by_identifiers`, `get_mwas_results_by_identifiers`, `get_sra_identifiers_by_filters`, `get_palm_ids_by_species`, `get_similar_palm_ids_neo4j` and `run_llm_completion`. Each is an arbitrary function parameter.
- `src/tools/openvirome.py` is not part of this model. It holds SQL text and a stub.
- I/O and connections: `get_*_connection`, the cursor, connection closing, Neo4j and Entrez. Only the row shaping of `run_sql_query` is modelled; the fetched rows and column names are parameters.
- Python's `str` on database values is a parameter of `Psql.ShapeRows`.
- `src/tools/llm.py`, prompt texts and their `repr` formatting. An LLM request carries the prompt's inputs, not its wording.
- The `temperature` float and the float `rating` fields of the report types.
- Logging calls, MCP registration glue and `save_graph_image`.
- Python dict insertion order and set iteration order. Maps have no order. `list(set(...))` is modelled by first-occurrence de-duplication, and contracts promise only the elements and the absence of repeats.
- `KeyError` from `state["..."]`. Reduced channels are assumed to start at their type's empty value, so such reads cannot fail in the model. The exceptions modelled are `IndexError` from short rows and `TypeError` from hashing a list or dict (`biome_id in biome_id_to_name`, `virus_families.add`).
- Mwas.GetMatchingVirusFamilies: its "no repeats" and membership contracts use structural equality, not Python's, where `True == 1` and `False == 0` hash alike and `set()` keeps only one of them. `Reducers.UniqueListMerge` on the `virus_families` channel has the same gap. It is left out because the `palm_virome` families are strings.
- `TypeError` from `unique_list_merge` on a list or dict element. The only node writing `virus_families` raises before it could return one, and `palm_ids` holds strings.
- MetadataAnomaly.LastContent: message content is a string, so `str(input1)` and `str(input2)` (`metadata_anomaly.py:21`, `:33`) are the identity; non-string content is not modelled. Nor are the exceptions the nodes raise on a last message that is not a dictionary with `"content"`: `KeyError` for a dictionary without that key, `TypeError` for a `BaseMessage` object (`metadata_anomaly.py:17`, `:29`). The `Message` datatype rules both out.
- An LLM structured-output response is a dictionary (the report types are `TypedDict`s, `state.py:64-75`) or `None` for no response; the model keeps it as `Option<Dict>` and leaves out only the `rating` float inside it.
- The virus-metadata-analysis workflow is not run end to end. Its nodes, its topology, the LLM frontier and the subgraph merge-back are each modelled separately.
