# Vault Graph: a verified model

Vault Graph indexes folders of Markdown notes, keeps a graph and a vector index of them up to date, and answers
questions from both. Most of its hard code reaches a simple result by an incremental or stateful route. This project
models that code in Dafny and proves that each route arrives.

- **Incremental graph.** `GraphIndex`, `GraphStores` and `GraphRuns` follow one run that rebuilds only the records a
  change touches. The theorem is that the store then holds what a full extraction of the new notes gives, although a
  link in a note that was not edited may now resolve elsewhere. `SourcePaths`, `LinkResolution`, `LinkPaths` (what a
  link as written leads to), `Extraction` and `Text` supply what a note's extraction depends on.
  `GraphRuns.GraphIndexer` carries the theorem over every history of metadata runs, graph runs that did not happen,
  forced and unforced runs, and changed extraction rules.
- **Document graph.** `DocumentGraph` to `DocumentHistories` follow the store of per-document contributions and the
  tables derived from them, with its revision counter and transactions. Any read of any reachable state, whole or
  partial, equals a recomputation.
- **Two-stage publication.** `LegacyMapping`, `ShadowProtocol` and `DocumentAdapters` follow the client that commits to
  that store and publishes a manifest afterwards, with crashes in between and any number of clients at once.
  `Restoration` proves that what it restores is the graph the other backend holds.
- **Graph search.** `GraphSnapshots`, `BreadthFirst` and `PathTraversals`: a bounded breadth-first search whose depths
  stay exact under limits, and a resumable iterator with an explicit stack that refines the recursive list of simple
  paths.
- **Metadata runs.** `Provenance` (union-find against connectedness), `MetadataClosure` and `MetadataRuns` (which
  unchanged files must be read again), `FamilyRuns` (when an incremental run gives every page the family of a full
  run), `SessionGroups` (which copy of an exchange is kept).
- **Vectors.** `VectorPlans`, `EmbeddingBatches` and `IndexServices`: plans that converge, batches that are as few as
  possible, and which runs are published.
- **Budgets.** `RecallLayout`, `WindowPacking`, `EvidenceSelection` and `ItemPages`.

Code that changes state is modelled by classes and methods with loops; each method is proved against a function or
relation on values, and the properties are lemmas about these. Texts are sequences of characters, other names and
digests are numbers, tables are maps, and a commit or publication is one step. Where a contract names a function, a
lemma beside it says what that function means on the fields of its arguments: `GraphRecords` and `ExtractionMeaning`
do this for the records of the graph and the entities of a chunk.

## Where the code does not do what it says

Each of these has a lemma with an input that shows it and one that says exactly when the code is right. Modules
`MissedLinks` and `StaleRecords` hold the inputs for the first two.

- The search for links that a new file may satisfy looks for the file's name in `str(frontmatter)`
  (`graph_indexer.py:1148-1150`), where strings are quoted. A name with an unprintable character, such as a no-break
  space, or with a single quote inside is not always found there, so the linking note is not rebuilt and the graph
  differs from a full run (`MissedLinks.LinkIsMissed`). For every file name, document-level runs in which files of that
  name come or go are all exact, if and only if the name survives quoting or no link can ask for the file
  (`MissedLinks.RunsAreExactly`); which names these are, `MissedLinks.FindableExactly` says. Over histories, only a
  document-level run that moves another name can spoil the graph, and the next run over the whole scope repairs it
  (`GraphRuns.GraphIndexer.Apply`).
- A graph run over the whole scope skips records that look unchanged (`graph_indexer.py:806-877`), but evidence and
  revisions can be the same although the record is another: when a page is gone and its own graph run did not happen,
  a link that no longer resolves can change which name a concept is stored under
  (`StaleRecords.RecordIsLeftBehind`). The run leaves the full extraction, if and only if every skipped record is stored
  as it should be (`GraphStores.WholeRunExactly`, `StaleRecords.UnforcedRunIsNotExact`). A forced run and a run under
  other revisions skip nothing, and without a missing page nothing falls behind (`GraphRuns.GraphIndexer.Apply`).
  With a backend that cannot reconcile documents, every unforced run is of this kind.
- An incremental metadata run does not open the provenance family of a page it meets only through a link to a missing
  page (`metadata_indexer.py:346-357`), so two pages can get different families where a full run gives them one: when
  one of them is new (`FamilyRuns.DanglingSplitsFamily`), and when the missing page is created
  (`FamilyRuns.CreatedTargetSplits`). All families are those of a full run, if and only if the loaded pages give every
  shared target the family stored for the page that names it (`FamilyRuns.FamiliesExactly`, over histories
  `FamilyRuns.AlwaysIndexed`); nothing is shared when no link led nowhere before the run
  (`FamilyRuns.NoDanglingIsFull`).
- Reading a subset of documents merges their label sets (`sqlite_store.py:699-729`). This differs from a recomputation
  for contributions in which a relation ends at a node without an entity fact (`DocumentGraph.MergeCanFail`), exactly as
  `DocumentGraph.MergeExactly` says. The endpoint check of the extraction (`extraction.py:208-209`) rules such
  contributions out, so the store itself is right.
- Dropping the vectors of removed chunks concerns the model in use (`index_service.py:335-353`) or the listed files
  (`index_service.py:265-300`). A vector of another model or of another file stays, and the audit before publication
  refuses the whole run (`IndexServices.OtherModelStops`, `IndexServices.UnlistedFileStops`;
  `IndexServices.RefusedExactly` says when). What is published is always clean (`IndexServices.AlwaysClean`).

## Model

| member | source | states |
|---|---|---|
| GraphStores.IncrementalEqualsFull | src/vault_graph/indexing/graph_indexer.py:548-651 | If the stored graph mirrors the old extraction, replacing only the rebuilt records leaves live records, representatives and evidence of the full new extraction; tombstones are exactly the live records that lost all evidence; recorded counts are the live totals |
| GraphStores.IncrementalTracks | src/vault_graph/indexing/graph_indexer.py:548-651 | From a graph whose owners and evidence are right, a document-level run leaves owners, evidence, tombstones and counts of the new extraction; the records out of date afterwards are exactly those that were before and were not rebuilt |
| GraphIndex.SelectionSuffices | src/vault_graph/indexing/graph_indexer.py:1124-1151 | Rebuilding what a run selects is enough: a rebuilt record has all its new occurrences at hand, and a record left alone did not change |
| GraphIndex.UnselectedOccurs | src/vault_graph/indexing/graph_indexer.py:1124-1151 | A document outside the selection has the same occurrences under the old and the new metadata, links that resolve through other documents included |
| GraphIndex.UnselectedChunk | src/vault_graph/indexing/graph_indexer.py:1124-1151 | Each chunk of an unselected document extracts the same, although the set of documents its links resolve against has changed |
| GraphIndex.KeptGroup | src/vault_graph/indexing/graph_indexer.py:579-587 | A record that the run does not rebuild has the same occurrences before and after |
| GraphIndex.RebuiltGroup | src/vault_graph/indexing/graph_indexer.py:588-603 | What the run collects for a rebuilt record, selected documents and chunks of other documents together, is every occurrence it has in the new metadata and no other |
| GraphIndex.HadEvidenceIffOld | src/vault_graph/indexing/graph_indexer.py:1142-1144 | Stored evidence at a path is the same as the path being in the old metadata, so "moved" paths are those that came or went |
| GraphIndex.ReextractedPaths | src/vault_graph/indexing/graph_indexer.py:1124-1151 | The loops of the selection collect exactly the touched documents, those with evidence for a touched document's entity, and those that name a moved file |
| GraphIndex.MentioningChunks | src/vault_graph/indexing/graph_indexer.py:1146-1147 | Exactly the paths of chunks whose text holds one of the names |
| GraphIndex.MentioningDocuments | src/vault_graph/indexing/graph_indexer.py:1148-1150 | Exactly the documents whose frontmatter, as text, holds one of the names |
| GraphIndex.SelectedRecords | src/vault_graph/indexing/graph_indexer.py:570-587 | The owners a run rebuilds are those with old evidence or new occurrences in selected documents; the first occurrences are all those of selected documents |
| GraphIndex.TouchedOccurrences | src/vault_graph/indexing/graph_indexer.py:588-603 | The occurrences to rebuild from: all of the selected documents, and of other documents those of touched records whose chunk holds stored evidence |
| GraphIndex.RebuildScope | src/vault_graph/indexing/graph_indexer.py:548-651 | The run's records and evidence describe what it used, evidence is rewritten only where it differs, tombstones and the two counts are those the theorem above needs |
| GraphIndex.Extract | src/vault_graph/indexing/graph_indexer.py:407-432 | Extracting a list of chunks yields exactly the occurrences these chunks have |
| GraphIndex.PickRepresentative | src/vault_graph/indexing/graph_indexer.py:666-667 | The representative has the highest confidence and, among equals, comes first in path, chunk, method and name order |
| GraphIndex.DescribesUnique | src/vault_graph/indexing/graph_indexer.py:653-699 | A group of occurrences determines its record, so two ways of collecting the same group give one result |
| GraphRecords.RecordMeans | src/vault_graph/indexing/graph_indexer.py:653-755 | A record has the name, method and confidence of the occurrence of its owner with the highest confidence that comes first by path, chunk, method name and name, and exactly the aliases of all of them |
| GraphRecords.EvidenceMeans | src/vault_graph/indexing/graph_indexer.py:758-803 | Every occurrence has a row with its owner, document, chunk, anchor, path, hash and section, and every row has such an occurrence |
| GraphRecords.AsGoodMeans | src/vault_graph/indexing/graph_indexer.py:1067-1083 | Of two occurrences of one owner one is as good, if and only if it has the higher confidence or the same and does not come later by path, chunk, method name and name |
| GraphRecords.RankIsNameOrder | src/vault_graph/indexing/graph_indexer.py:1067-1083 | Methods are ordered as the texts of their names |
| GraphIndex.SortsFirstIsOrder | src/vault_graph/indexing/graph_indexer.py:1067-1083 | The sort key of occurrences is a total order up to equal keys |
| GraphIndex.Group | src/vault_graph/indexing/graph_indexer.py:659-661 | Each owner gets exactly its own occurrences |
| GraphIndex.RecordOf | src/vault_graph/indexing/graph_indexer.py:653-699 | Name, method and confidence of the representative, aliases of all occurrences |
| GraphIndex.BuildRecords | src/vault_graph/indexing/graph_indexer.py:653-755 | One record for each owner that occurs, described by its group, with exactly the evidence rows of the occurrences |
| GraphIndex.EvidenceRefs | src/vault_graph/indexing/graph_indexer.py:758-803 | Exactly one row for each distinct evidence identifier that occurs |
| GraphStores.MirrorsUnique | src/vault_graph/indexing/graph_indexer.py:548-651 | Two graphs that mirror the same extraction have the same live records and the same evidence |
| GraphStores.MirrorsExactly | src/vault_graph/indexing/graph_indexer.py:548-651 | A graph mirrors an extraction, if and only if its live owners and evidence are those of the extraction and no live record is out of date |
| GraphRecords.MirrorMeans | src/vault_graph/indexing/graph_indexer.py:548-651 | A graph that mirrors an extraction has exactly the records of owners that occur, and each says what its occurrences yield |
| GraphRecords.OwnersMean | src/vault_graph/indexing/graph_indexer.py:548-651 | When only owners and evidence are right, the live records are still exactly those of the owners that occur |
| GraphRecords.CountsMean | src/vault_graph/indexing/graph_indexer.py:633-650 | The recorded totals are the numbers of live entities and of live relationships |
| GraphRecords.SkippedExactly | src/vault_graph/indexing/graph_indexer.py:806-877 | A run skips a record, if and only if it is neither forced nor under another lineage, and the live record has the lineage, evidence identifiers and content hashes it would get |
| GraphStores.RecordsTrack | src/vault_graph/indexing/graph_indexer.py:604-617 | Replacing the rebuilt records gives the live owners of the new extraction, and leaves out of date only what was so and was not rebuilt |
| GraphStores.EvidenceMirror | src/vault_graph/storage/local/sqlite_graph_store.py:1001-1029 | Evidence that comes from the rebuilt side for rebuilt owners and from the stored side for all others is the evidence of the new extraction |
| GraphStores.CountsAfter | src/vault_graph/indexing/graph_indexer.py:633-650 | Totals less the live rebuilt records plus the new ones are the new totals, for entities and for relationships |
| GraphStores.WholeRunExactly | src/vault_graph/indexing/graph_indexer.py:806-877 | A whole-scope run, forced or not, leaves the owners and evidence of the extraction; it mirrors the extraction, if and only if every record it skips as unchanged is stored as it should be |
| GraphStores.GraphStore.WritePlan | src/vault_graph/storage/local/sqlite_graph_store.py:957-986 | Upserted records become live, tombstoned ones retire and keep their content, all others stay; evidence rows are overwritten by identifier |
| GraphStores.GraphStore.ApplyOwnerReconcilePlan | src/vault_graph/storage/local/sqlite_graph_store.py:911-937 | Removing the obsolete evidence of touched owners and writing the plan leaves the state the theorems speak of |
| GraphStores.GraphStore.ApplyScopePlan | src/vault_graph/storage/local/sqlite_graph_store.py:790-809 | A whole-scope plan writes the desired records except those skipped, retires what is not desired, removes obsolete evidence of what it writes or retires, and records the live totals |
| GraphRuns.GuardIsSound | src/vault_graph/indexing/graph_indexer.py:1086-1112 | When the check passes, the metadata the graph shows and the metadata of now differ at the paths of this run only |
| GraphRuns.SameRevisions | src/vault_graph/indexing/graph_indexer.py:986-1007 | When the same metadata revisions are on record, metadata can only have lost pages; if it lost none it is the same |
| GraphRuns.WriteKeeps | src/vault_graph/indexing/metadata_indexer.py:136-156 | A further metadata run keeps every relation between revisions and pages that the check rests on, for the graph and for earlier change sets |
| GraphRuns.EvidencePaths | src/vault_graph/indexing/graph_indexer.py:1086-1112 | The evidence of a full extraction lies at exactly the documents of the metadata |
| GraphRuns.FindableMoves | src/vault_graph/indexing/graph_indexer.py:1145-1150 | Stored evidence tells which files came or went, so their names decide whether the search is enough |
| GraphRuns.TrackedIsTidy | src/vault_graph/storage/local/sqlite_graph_store.py:1982-2034 | Evidence of documents always lies at a path the cleanup accepts, so no row is out of its reach |
| GraphRuns.ReconciledIsTidy | src/vault_graph/storage/local/sqlite_graph_store.py:911-937 | A document-level run never leaves a row that the cleanup skips, whatever graph it started from |
| GraphRuns.SourcePathIsCleanable | src/vault_graph/storage/local/sqlite_graph_store.py:1982-2034 | Every path a source document can have passes the path check of the cleanup |
| GraphRecords.CleanableExactly | src/vault_graph/storage/local/sqlite_graph_store.py:1982-2034 | The cleanup removes rows at every path but one with a backslash or that leaves its folder |
| GraphRuns.ReconcileDocuments | src/vault_graph/indexing/graph_indexer.py:434-546 | From a graph that follows the old metadata a document-level run, for files whose names the search finds, leaves one that follows the new metadata under its lineage; the records behind are exactly those that were behind and were not rebuilt. From any graph it leaves rows a later cleanup reaches |
| GraphRuns.ReconcileWholeScope | src/vault_graph/indexing/graph_indexer.py:199-301 | A whole-scope run, whatever the graph held, leaves the owners, evidence and totals of the metadata; a record can be behind only in an unforced run under the lineage of the last one, and is then as it was; a forced run leaves none |
| GraphRuns.GraphIndexer.Apply | src/vault_graph/indexing/graph_indexer.py:303-359 | After any history of metadata runs over any files, missed graph runs and rule upgrades: a whole-scope run leaves owners, evidence and totals of the current metadata and a forced one the full extraction; a document-level run carries over what was right unless a file of hidden name came or went; a full extraction is otherwise lost only by an unforced whole-scope run under the revisions of the last run when a page is gone; the run records schema, rules, versions and the revision of every page |
| GraphRuns.GraphIndexer.ReconcileListed | src/vault_graph/indexing/graph_indexer.py:434-546 | A document-level run that the check allows, for names that are not hidden, leaves no record behind that was not so before |
| GraphRuns.GraphIndexer.ReconcileAll | src/vault_graph/indexing/graph_indexer.py:199-301 | A whole-scope run puts owners and evidence right, also after links were missed, and keeps records right unless it reads under the same revisions and misses a page |
| GraphRuns.GraphIndexer.NothingBehind | src/vault_graph/indexing/graph_indexer.py:303-359 | The graph is the full extraction of the metadata its last run read, if and only if it is intact and no record is behind |
| GraphRuns.GraphIndexer.Write | src/vault_graph/indexing/metadata_indexer.py:136-156 | A metadata run without a graph run keeps what a later graph run needs to know, and which records are behind |
| GraphRuns.GraphIndexer.Upgrade | src/vault_graph/indexing/graph_indexer.py:151-176 | New extraction rules under a new digest keep the invariant, so the next run does not trust the old graph |
| GraphRuns.GraphIndexer.FollowedIsSound | src/vault_graph/indexing/graph_indexer.py:434-546 | When the check passes on an intact graph it was made by the same rules, and the document-level run has all its hypotheses exactly when no file of hidden name came or went |
| GraphRuns.GraphIndexer.ByDocumentExactly | src/vault_graph/indexing/graph_indexer.py:1086-1112 | Single documents are reconciled, if and only if the run is not forced, the backend can, the last run had the same schema and rules and recorded the revision of every page this run did not write, and evidence and pages differ at paths of this run only |
| StaleRecords.RecordIsLeftBehind | src/vault_graph/indexing/graph_indexer.py:806-877 | A page is gone whose link had resolved, and the revisions on record are the same: the plan skips a concept whose name is now another |
| StaleRecords.UnforcedRunIsNotExact | src/vault_graph/indexing/graph_indexer.py:806-877 | On that input a whole-scope run leaves the full extraction, if and only if it is forced |
| StaleRecords.OldConcept | src/vault_graph/indexing/extraction/entity_extractor.py:229-238 | While the page is there, the link to it yields its document and only the second link yields the concept |
| StaleRecords.NewConcept | src/vault_graph/indexing/extraction/entity_extractor.py:229-238 | Once the page is gone, both links yield the concept and the first occurrence is kept |
| SourcePaths.SourcePathsExactly | src/vault_graph/indexing/ingestion/document_models.py:351-362 | The paths documents can have are exactly the results of normalizing a path: not empty, no empty or dot component, no backslash, no white space at the ends |
| MissedLinks.ShownExactly | src/vault_graph/indexing/graph_indexer.py:1148-1150 | Every frontmatter value that asks for a file shows the file's name when quoted, if and only if the name survives quoting |
| MissedLinks.HiddenValue | src/vault_graph/indexing/graph_indexer.py:1148-1150 | For each file name that does not survive there is a frontmatter value that asks for the file and does not show it when quoted |
| MissedLinks.PathAsksFor | src/vault_graph/indexing/extraction/graph_source_store.py:80-97 | A path to the file, with or without a caption, asks for it |
| MissedLinks.FindableExactly | src/vault_graph/indexing/graph_indexer.py:1144-1150 | Frontmatter hides the name of a Markdown file that links can ask for, if and only if the name has an unprintable character or a single quote after its first character |
| MissedLinks.FileNameSurvives | src/vault_graph/indexing/graph_indexer.py:1148-1150 | A name without backslash survives quoting, if and only if it is printable and has no single quote after its first character |
| MissedLinks.RunsAreExactly | src/vault_graph/indexing/graph_indexer.py:1144-1150 | For every file name: all document-level runs in which only files of that name come or go leave the full extraction, if and only if the name survives quoting or no link can ask for it |
| MissedLinks.HidingNote | src/vault_graph/indexing/graph_indexer.py:1148-1150 | For each such name there is a note whose frontmatter text holds a link to the file and does not show its name |
| MissedLinks.QuotedNote | src/vault_graph/indexing/graph_indexer.py:1148-1150 | A quote inside the name stays hidden in a frontmatter where no quote comes after the character before it |
| MissedLinks.NoteRunIsRun | src/vault_graph/indexing/graph_indexer.py:434-546 | Adding the file with such a note in the Vault meets everything a document-level run asks for but the name |
| MissedLinks.LinkIsMissed | src/vault_graph/indexing/graph_indexer.py:1144-1150 | The run for such a file leaves the linking note out, and the graph differs from a full extraction; the name may be any that does not survive, such as one with a no-break space |
| MissedLinks.OldNoteExtraction | src/vault_graph/indexing/extraction/entity_extractor.py:186-215 | Before the file exists the linking note holds its own entity only |
| MissedLinks.NewNoteExtraction | src/vault_graph/indexing/extraction/entity_extractor.py:186-215 | Once it exists the same note holds an occurrence of the file's entity |
| LinkResolution.ResolveDependsOnName | src/vault_graph/indexing/extraction/graph_source_store.py:65-77 | A link resolves differently only when a document with the file name it asks for came or went |
| LinkResolution.ResolvedHasName | src/vault_graph/indexing/extraction/graph_source_store.py:65-77 | Whatever a link resolves to is a document with the file name the link asks for |
| LinkResolution.TargetKeepsName | src/vault_graph/indexing/extraction/graph_source_store.py:80-97 | Normalizing a target, in any of its four cases, keeps its file name |
| LinkResolution.RawContainsStem | src/vault_graph/indexing/extraction/graph_source_store.py:80-97 | The raw target contains the stem of the file name it asks for, so a search for the stem finds the link |
| LinkResolution.AskedExactly | src/vault_graph/indexing/extraction/graph_source_store.py:80-97 | Links can ask for exactly the files that end in .md and have no bar, number sign or separator in their names |
| LinkResolution.NormalizeVaultRelativePath | src/vault_graph/indexing/extraction/graph_source_store.py:117-130 | The stack loop yields the folded path, and none when the path leaves the Vault |
| LinkResolution.BasenameIndex | src/vault_graph/indexing/extraction/graph_source_store.py:104-114 | The index lists each document once under its own file name and under no other |
| LinkResolution.ResolveLocalDocumentLink | src/vault_graph/indexing/extraction/graph_source_store.py:65-77 | Looking up the index resolves a link as defined on the set of documents; what that means for links as they are written, `LinkPaths` says |
| LinkPaths.RelativeLink | src/vault_graph/indexing/extraction/graph_source_store.py:80-97 | A target of plain components read in a page of a folder below a content root leads to that folder with these components; each leading ".." drops one folder, and too many lead nowhere |
| LinkPaths.RootedLink | src/vault_graph/indexing/extraction/graph_source_store.py:80-97 | A target that begins with a content root leads to itself, whatever page it is read in |
| LinkPaths.BareLink | src/vault_graph/indexing/extraction/graph_source_store.py:80-97 | A target of one component is a file name, whatever page it is read in |
| LinkPaths.EndDoesNotMatter | src/vault_graph/indexing/extraction/graph_source_store.py:80-97 | What follows a bar or a number sign does not change where a target leads |
| LinkPaths.SlashIsDropped | src/vault_graph/indexing/extraction/graph_source_store.py:80-97 | One slash in front of a target does not change where it leads |
| LinkPaths.SuffixIsAdded | src/vault_graph/indexing/extraction/graph_source_store.py:80-97 | A target without ".md" leads where the same target with it leads |
| LinkPaths.ExternalLeadsNowhere | src/vault_graph/indexing/extraction/graph_source_store.py:80-97 | An empty target, an anchor, an address with "://" and a mail address lead nowhere |
| LinkPaths.ResolvesTo | src/vault_graph/indexing/extraction/graph_source_store.py:65-77 | A link resolves to the document at its target; a target of several components that is no document resolves to nothing, and a bare file name to the one document of that name, if there is exactly one |
| LinkPaths.FoldedFrom | src/vault_graph/indexing/extraction/graph_source_store.py:117-130 | Folding drops one folder for each leading "..", and fails when there are too few |
| Extraction.DeterministicIsLawful | src/vault_graph/indexing/extraction/entity_extractor.py:39-63 | The shipped extractor places occurrences at their chunk, joins relationships to entities of the chunk, and depends on other documents only by named or linked ones |
| Extraction.DependsOnNamedAndLinked | src/vault_graph/indexing/graph_indexer.py:1124-1151 | A chunk's extraction stays the same when no document it names came or went and no document it has an entity for changed |
| Extraction.ExtractionIsLocal | src/vault_graph/indexing/extraction/entity_extractor.py:40-63 | Other documents enter an extraction only through what the chunk's links resolve to |
| Extraction.LinkedByText | src/vault_graph/indexing/extraction/entity_extractor.py:159-183 | A chunk with a text link that resolves holds an occurrence of the target's entity |
| Extraction.LinkedByFrontmatter | src/vault_graph/indexing/extraction/entity_extractor.py:186-215 | A document whose frontmatter link resolves holds an occurrence of the target's entity in each of its chunks |
| Extraction.RelatedAsFound | src/vault_graph/indexing/extraction/relationship_extractor.py:44-148 | Every entity found in a chunk but the document itself is related to the document, by the kind and confidence of the way it was found, and every relation comes from such an entity |
| ExtractionMeaning.RelationsAreFirst | src/vault_graph/indexing/extraction/relationship_extractor.py:152-175 | No two relationships of a chunk have the same kind and ends, and of a tag, a heading and a dead link that mention the same concept the first makes the mention |
| Extraction.TextLinkRelates | src/vault_graph/indexing/extraction/relationship_extractor.py:44-148 | A text link that resolves gives a link relation from the document to the target |
| Extraction.FrontmatterLinkRelates | src/vault_graph/indexing/extraction/relationship_extractor.py:44-148 | A frontmatter link that resolves gives a relation of its field from the document to the target |
| Extraction.DeadLinkMentions | src/vault_graph/indexing/extraction/entity_extractor.py:159-183 | A link that does not resolve gives a concept named by its caption or target, and a mention of it |
| Extraction.IdentityOccurs | src/vault_graph/indexing/extraction/entity_extractor.py:72-97 | Every chunk names its own document |
| ExtractionMeaning.EntitiesAreFound | src/vault_graph/indexing/extraction/entity_extractor.py:39-215 | Every entity of a chunk is its document, a tag, a revisit condition, a heading that is not generic, the target of a link or of a frontmatter field, or the concept of a dead link, with the name, kind, aliases, place and confidence these give |
| ExtractionMeaning.FoundIsThere | src/vault_graph/indexing/extraction/entity_extractor.py:39-238 | Whatever there is such a reason for is there, once for each entity and method |
| ExtractionMeaning.KindExactly | src/vault_graph/indexing/extraction/entity_extractor.py:100-109 | A document is a decision by its frontmatter or by a folder "decisions" below the first, else a wiki page or source by its first folder |
| ExtractionMeaning.NormalizeMeans | src/vault_graph/retrieval/graph/graph_identity.py:7-8 | A normalized name has the words of the name in lower case, with single spaces between them |
| ExtractionMeaning.TrimMeans | src/vault_graph/indexing/extraction/entity_extractor.py:278-286 | Trimming takes off the white space at both ends and nothing else |
| ExtractionMeaning.LowerMeans | src/vault_graph/retrieval/graph/graph_identity.py:7-8 | Lower case changes the capital letters and nothing else |
| Extraction.DedupeKeeps | src/vault_graph/indexing/extraction/entity_extractor.py:229-238 | Deduplication keeps one occurrence for each entity and method and adds none |
| Extraction.DedupeOnce | src/vault_graph/indexing/extraction/entity_extractor.py:229-238 | No two kept occurrences have the same entity and method |
| Extraction.OccurrencesAt | src/vault_graph/indexing/extraction/relationship_extractor.py:44-148 | Relationships join entities of the same chunk |
| Extraction.ChunkWellPlaced | src/vault_graph/indexing/extraction/relationship_extractor.py:44-63 | Every occurrence sits at its chunk, there is always one, and relationship ends are entities of the chunk |
| Extraction.FrontmatterShowsTarget | src/vault_graph/indexing/graph_indexer.py:1148-1150 | A frontmatter link whose file name survives quoting is found by the text search, whether its value is a string, a number, a list or a mapping |
| Extraction.TextShowsTarget | src/vault_graph/indexing/graph_indexer.py:1147-1147 | A link in a chunk's text is found by the text search |
| Text.SurvivesExactly | src/vault_graph/indexing/graph_indexer.py:1148-1150 | The names that show up in the quoted form of every value that contains them are exactly the surviving ones |
| Text.PlainSurvives | src/vault_graph/indexing/graph_indexer.py:1148-1150 | A printable name without backslash and single quote survives |
| DocumentHistories.AlwaysConsistent | packages/graph-document/src/graph_document/sqlite_store.py:901-1002 | After any history of update and removal calls, failed ones included, every stored table is the one recomputed from the contributions |
| DocumentHistories.ReadsAreCurrent | packages/graph-document/src/graph_document/sqlite_store.py:677-803 | After any history, reading all documents or any subset gives the graph recomputed from the contributions of the successful calls, restricted to the subset |
| DocumentHistories.SerialEquivalence | packages/graph-document/src/graph_document/sqlite_store.py:901-1002 | For any interleaving: the revision counts the changes, the i-th change came from a caller that expected revision i, and the contributions are those of applying the successful calls one after the other |
| DocumentHistories.OneCall | packages/graph-document/src/graph_document/sqlite_store.py:909-948 | A call that changes something moves the expected revision up by one; any other call leaves the collection untouched |
| DocumentHistories.SameDocumentsSameGraph | packages/graph-document/src/graph_document/sqlite_store.py:901-1002 | Two histories that end in the same documents have the same nodes, edges, evidence and labels |
| DocumentStores.GraphDocument.UpdateDocuments | packages/graph-document/src/graph_document/sqlite_store.py:805-883 | A batch is refused without any effect or committed in one step; on the fields of the stored contributions: refused for a stale revision, another profile, or the first document that repeats its source revision with another input, or its input with another extraction, and else accepted exactly within the limits, with every document of the batch stored and all others kept |
| DocumentStores.GraphDocument.RemoveDocuments | packages/graph-document/src/graph_document/sqlite_store.py:885-899 | Removal with its refusals on the stored fields; a refused call changes nothing, an accepted one removes exactly the listed documents and recomputes the rest |
| DocumentStores.GraphDocument.Apply | packages/graph-document/src/graph_document/sqlite_store.py:901-1002 | One transaction is everything or nothing, tables, revision and answer together, and refuses exactly for the stated reasons in the stated order |
| DocumentStores.GraphDocument.Read | packages/graph-document/src/graph_document/sqlite_store.py:1004-1102 | A read of any reachable database never reports corruption or a conflict; it succeeds exactly when profile, selection and limits allow, and then returns the graph recomputed from the selected contributions |
| DocumentStores.Transact | packages/graph-document/src/graph_document/sqlite_store.py:908-988 | The checks, the row-by-row rewriting and the summary together do what the outcome of the call says |
| DocumentStores.OutcomeMeans | packages/graph-document/src/graph_document/sqlite_store.py:909-988 | On the fields of the stored collection: which refusal a call meets, in order, and what every document and revision is after a call that is accepted |
| DocumentStores.FirstConflictIs | packages/graph-document/src/graph_document/sqlite_store.py:929-943 | The first document of the batch that repeats a source revision with another input, or an input with another extraction, names the error |
| DocumentStores.NoConflict | packages/graph-document/src/graph_document/sqlite_store.py:929-943 | There is no conflict, if and only if no document of the batch clashes with the stored one |
| DocumentStores.OutcomeReads | packages/graph-document/src/graph_document/sqlite_store.py:1004-1102 | A read succeeds exactly for the stored profile, known documents named once, and a graph within the limits, and returns the graph of the picked contributions |
| DocumentStores.PreparationMeans | packages/graph-document/src/graph_document/sqlite_store.py:824-883 | A batch is prepared exactly when every document can be; each contribution shows its document and extraction, and a refusal names what is wrong with the first document that cannot |
| DocumentStores.Compare | packages/graph-document/src/graph_document/sqlite_store.py:923-943 | The batch is merged into the stored contributions unless some document repeats a source revision with another input, or an input with another extraction; the first such document decides the error |
| DocumentStores.Decide | packages/graph-document/src/graph_document/sqlite_store.py:910-947 | Unknown collection, stale revision, other profile and conflicting documents are refused in this order; otherwise the requested contributions and what changes |
| DocumentStores.Drop | packages/graph-document/src/graph_document/sqlite_store.py:944-947 | Listed documents that are stored are removed and reported, others ignored |
| DocumentStores.DeleteDocuments | packages/graph-document/src/graph_document/sqlite_store.py:970-974 | Deleting the changed documents takes their rows out of every table keyed by document and leaves the other documents' rows |
| DocumentStores.WriteDocumentProjection | packages/graph-document/src/graph_document/sqlite_store.py:552-627 | Inserting one document adds the nodes, edges and evidence of its own contribution |
| DocumentStores.WriteChanged | packages/graph-document/src/graph_document/sqlite_store.py:975-976 | After all changed documents are written, each table keyed by document follows the contributions |
| DocumentStores.WriteTables | packages/graph-document/src/graph_document/sqlite_store.py:959-977 | Rewriting only changed documents and the collection tables leaves the tables a recomputation from nothing would fill |
| DocumentStores.CommitRows | packages/graph-document/src/graph_document/sqlite_store.py:959-978 | A commit with changes takes the next revision with recomputed tables; one without changes is no change |
| DocumentStores.CommittedIsConsistent | packages/graph-document/src/graph_document/sqlite_store.py:948-978 | A commit of valid contributions keeps tables and contributions in agreement |
| DocumentStores.PreparationIsValid | packages/graph-document/src/graph_document/sqlite_store.py:824-883 | Distinct documents that pass the checks give a batch of valid contributions, in order |
| DocumentStores.PrepareAll | packages/graph-document/src/graph_document/sqlite_store.py:824-883 | The first document that cannot be prepared decides the answer of the whole batch |
| DocumentGraph.MergeExactly | packages/graph-document/src/graph_document/sqlite_store.py:699-729 | Merging per-document label sets gives the labels of the documents together, if and only if each node that is named by one document and bare in another is also named by its own key |
| DocumentGraph.MergeCanFail | packages/graph-document/src/graph_document/sqlite_store.py:699-729 | Without entity facts at relation endpoints merging is wrong: two documents for which it differs |
| DocumentGraph.NodesAreFacts | packages/graph-document/src/graph_document/sqlite_store.py:59-147 | The nodes of the graph are exactly the keys of entity facts and relation ends, the edges exactly those of relation facts |
| DocumentGraph.LabelsAreNames | packages/graph-document/src/graph_document/sqlite_store.py:59-147 | A node has exactly the names the documents give it, or its own when none does, shows the least of them, and is available unless it is a document that is not stored |
| DocumentGraph.EvidenceIsPlaces | packages/graph-document/src/graph_document/sqlite_store.py:186-225 | The evidence is exactly one row for each place of a fact |
| DocumentGraph.ValidRowsMerge | packages/graph-document/src/graph_document/extraction.py:208-209 | With an entity fact for every endpoint in the same document, merging is exact for every set of documents |
| DocumentGraph.ValidIsFunctional | packages/graph-document/src/graph_document/sqlite_store.py:186-225 | Valid contributions never disagree about an evidence identifier |
| DocumentTables.ReadsBack | packages/graph-document/src/graph_document/sqlite_store.py:677-803 | The tables, read for all documents or for any subset, are the graph recomputed from the selected contributions |
| DocumentTables.ReadIsSound | packages/graph-document/src/graph_document/sqlite_store.py:740-793 | Every integrity check of the read passes: endpoints present, evidence of stored owners at its document's revision, no identifier twice |
| DocumentTables.NodesBack | packages/graph-document/src/graph_document/sqlite_store.py:702-729 | Merged label rows of a subset are the labels recomputed from that subset |
| DocumentTables.EdgesBack | packages/graph-document/src/graph_document/sqlite_store.py:732-747 | The union of edge rows of a subset is the set of edges of its contributions |
| DocumentTables.EvidenceBack | packages/graph-document/src/graph_document/sqlite_store.py:751-793 | The union of evidence rows of a subset is the evidence of its contributions |
| DocumentTables.RecomputedIsSound | packages/graph-document/src/graph_document/sqlite_store.py:59-147 | A graph recomputed from valid contributions passes the integrity checks |
| DocumentReads.ReadMaterialized | packages/graph-document/src/graph_document/sqlite_store.py:677-803 | The read returns what the tables show when it is sound and within the limits, reports capacity only when a limit is exceeded, and corruption only when an integrity check fails |
| DocumentReads.ReadVerified | packages/graph-document/src/graph_document/sqlite_store.py:1036-1088 | Comparing the read with a recomputation never fails on a consistent collection; capacity is refused exactly when the graph or its size exceeds a limit |
| DocumentReads.EvidenceValid | packages/graph-document/src/graph_document/sqlite_store.py:751-791 | Accepts exactly the evidence that belongs to its document's revision and to a stored owner, each identifier once |
| DocumentReads.MergeNodes | packages/graph-document/src/graph_document/sqlite_store.py:702-718 | The merge loop stops over the limit, if and only if the selection has more nodes than allowed |
| DocumentReads.UnionRows | packages/graph-document/src/graph_document/sqlite_store.py:732-747 | So does the loop over edges and evidence |
| DocumentSnapshots.Snapshot | packages/graph-document/src/graph_document/sqlite_store.py:59-147 | The loops over contributions build the recomputed graph; they stop only when identifiers clash or a limit is exceeded |
| DocumentSnapshots.AddEvidence | packages/graph-document/src/graph_document/sqlite_store.py:186-225 | Evidence is added once per identifier; a refusal means two rows really differ under one identifier |
| DocumentSnapshots.AddEntities | packages/graph-document/src/graph_document/sqlite_store.py:111-117 | Stopping early at a limit is justified by the whole: more rows never make a graph smaller |
| DocumentSnapshots.AddRelations | packages/graph-document/src/graph_document/sqlite_store.py:118-129 | The same for relations, whose endpoints become nodes |
| DocumentSnapshots.Walk | packages/graph-document/src/graph_document/sqlite_store.py:59-147 | Some document's rows are the reason whenever the walk stops |
| DocumentExtraction.ValidateExtraction | packages/graph-document/src/graph_document/extraction.py:125-218 | Accepts exactly the extractions with matching identity, known and distinct places, allowed kinds and relations, an entity for every endpoint, the document's own entity, and no unused evidence |
| DocumentExtraction.CheckEntities | packages/graph-document/src/graph_document/extraction.py:168-196 | The entity loop decides its half of the rules and collects the keys and places used |
| DocumentExtraction.CheckRelations | packages/graph-document/src/graph_document/extraction.py:197-216 | The relation loop decides the other half |
| DocumentExtraction.PreparedIsValid | packages/graph-document/src/graph_document/extraction.py:197-218 | What the checks accept is a contribution on which subset reads are exact |
| DocumentExtraction.ExcerptShows | packages/graph-document/src/graph_document/sqlite_store.py:840-848 | An excerpt is the text at its place, up to the limit, and says whether it was cut |
| ShadowProtocol.AlwaysInvariant | src/vault_graph/indexing/extraction/vault_graph_document_adapter.py:334-537 | In every state any number of clients can reach, crashing between any two of their commits and publications, the manifest of the current revision describes what is stored and lists an inventory that was synced whole |
| ShadowProtocol.NextKeeps | src/vault_graph/indexing/extraction/vault_graph_document_adapter.py:403-450 | No single step, of a sync, a recovery, a publication or a crash, breaks this |
| ShadowProtocol.RestoredWasSynced | src/vault_graph/indexing/extraction/vault_graph_document_adapter.py:457-477 | A restore in a reachable state refuses, or returns the selection of one complete inventory that was synced, and that inventory is what is stored |
| ShadowProtocol.SyncStartsExactly | src/vault_graph/indexing/extraction/vault_graph_document_adapter.py:361-395 | A sync starts, if and only if nothing is expected, or the expected revision is the stored one, has a manifest and can be read within the limits, and inputs that did not change keep their digests |
| ShadowProtocol.RecoverStartsExactly | src/vault_graph/indexing/extraction/vault_graph_document_adapter.py:479-514 | A recovery starts, if and only if the expected revision is stored, can be read, and holds every document of the batch with its input and digest |
| ShadowProtocol.CrashedRunsCanRecover | src/vault_graph/indexing/extraction/vault_graph_document_adapter.py:479-514 | After a crash between the commits or before the publication, a recovery with the same batch starts, if and only if what is stored can be read within the limits |
| ShadowProtocol.RestoreExactly | src/vault_graph/indexing/extraction/vault_graph_document_adapter.py:457-477 | A restore succeeds, if and only if the stored revision has a manifest and the selection can be read; an absent collection restores only an empty one |
| ShadowProtocol.MapsExactly | src/vault_graph/indexing/extraction/vault_graph_document_adapter.py:656-750 | A read is accepted against a manifest, if and only if it lists the recorded documents with their inputs and extractions, maps to their occurrences and, when whole, is the graph that was published |
| ShadowProtocol.ReadBackExactly | src/vault_graph/indexing/extraction/vault_graph_document_adapter.py:425-450 | Reading back succeeds, if and only if the collection can be read at the revision of the session and shows exactly its batch |
| ShadowProtocol.EmptyIsPublished | src/vault_graph/indexing/extraction/vault_graph_document_adapter.py:370-386 | What is published at revision zero is the empty inventory |
| ShadowProtocol.UpdateSucceedsExactly | src/vault_graph/indexing/extraction/vault_graph_document_adapter.py:396-420 | The update commit is accepted, if and only if there is nothing to write or the recorded documents overlaid with the batch are within the limits |
| ShadowProtocol.RemovalSucceedsExactly | src/vault_graph/indexing/extraction/vault_graph_document_adapter.py:421-424 | The removal commit is accepted, if and only if there is nothing to remove or the documents of the batch are within the limits |
| ShadowProtocol.CallFits | src/vault_graph/indexing/extraction/vault_graph_document_adapter.py:396-424 | A call at the stored revision with no clashing document is accepted, if and only if the requested documents are within the limits |
| Restoration.BackendsAgree | src/vault_graph/indexing/extraction/vault_graph_document_adapter.py:752-862 | Restoring every document gives the names, confidences and evidence that a graph store mirroring the same metadata holds |
| Restoration.RestoredSelection | src/vault_graph/indexing/extraction/vault_graph_document_adapter.py:752-862 | Restoring any selection shows exactly the records and evidence of the selected documents' occurrences |
| Restoration.NothingSkipped | src/vault_graph/indexing/extraction/vault_graph_document_adapter.py:799-806 | No relationship of an extraction is skipped for want of an end, in any selection |
| Restoration.Restore | src/vault_graph/indexing/extraction/vault_graph_document_adapter.py:752-862 | The loops keep a relationship exactly when both its ends are restored, and build one node, edge and evidence row per group from the best occurrence |
| Restoration.RestoredUnique | src/vault_graph/indexing/extraction/vault_graph_document_adapter.py:752-862 | The occurrences determine what is restored, in whatever order they are recorded |
| Restoration.RecordedIsConsistent | src/vault_graph/indexing/extraction/vault_graph_document_adapter.py:752-862 | Recorded occurrences never disagree about an evidence identifier |
| ShadowProtocol.PublishedIsRestored | src/vault_graph/indexing/extraction/vault_graph_document_adapter.py:656-750 | Once the manifest of the current revision is published, the mapping check never refuses a readable selection |
| ShadowProtocol.BatchReached | src/vault_graph/indexing/extraction/vault_graph_document_adapter.py:396-424 | Writing the documents whose input changed and removing the missing ones turns the recorded inventory into the batch |
| ShadowProtocol.RecoverBeforeUpdate | src/vault_graph/indexing/extraction/vault_graph_document_adapter.py:502-514 | After a crash before the update, recovery accepts what is stored, if and only if there was nothing to write |
| ShadowProtocol.RecoverAfterUpdate | src/vault_graph/indexing/extraction/vault_graph_document_adapter.py:502-522 | After a crash between the commits, recovery with the same batch commits exactly the removal the interrupted run had left, at the same revisions |
| ShadowProtocol.RecoverAfterRemoval | src/vault_graph/indexing/extraction/vault_graph_document_adapter.py:502-522 | After a crash between removal and publication, recovery commits nothing and stays at the revision and documents of the uninterrupted run |
| ShadowProtocol.RemovalReaches | src/vault_graph/indexing/extraction/vault_graph_document_adapter.py:415-424 | The two commits together leave the rows of the batch |
| ShadowProtocol.SameDocumentsSameRows | src/vault_graph/indexing/extraction/vault_graph_document_adapter.py:502-514 | Stored rows with the digests of a batch are the rows of that batch, so recovery never guesses occurrences |
| ShadowProtocol.CommitterIsInformed | src/vault_graph/indexing/extraction/vault_graph_document_adapter.py:411-424 | After its own commit a client still knows exactly what is stored |
| ShadowProtocol.OthersStayInformed | src/vault_graph/indexing/extraction/vault_graph_document_adapter.py:411-424 | Another client's commit never makes a client's belief wrong without moving the revision it checks |
| DocumentAdapters.VaultGraphDocumentAdapter.Sync | src/vault_graph/indexing/extraction/vault_graph_document_adapter.py:334-450 | A run succeeds exactly when nothing crashes, the expected revision is the stored one with a manifest, inputs that did not change have the same digests, and both commits and the read back fit the limits; the revision then is the expected one plus one for each commit with something to do, and the batch is stored and published. A refused run leaves one of the stages of the run and publishes nothing |
| DocumentAdapters.VaultGraphDocumentAdapter.Carry | src/vault_graph/indexing/extraction/vault_graph_document_adapter.py:403-450 | The two commits and the publication succeed exactly when both are accepted and the read fits; a refusal leaves one of the stages |
| DocumentAdapters.VaultGraphDocumentAdapter.Publish | src/vault_graph/indexing/extraction/vault_graph_document_adapter.py:425-450 | The manifest of what is stored is published exactly when the read fits; otherwise none is lost or changed |
| DocumentAdapters.VaultGraphDocumentAdapter.Finish | src/vault_graph/indexing/extraction/vault_graph_document_adapter.py:421-450 | Removal and publication succeed exactly when the removal is accepted and the read fits |
| DocumentAdapters.VaultGraphDocumentAdapter.SyncEmpty | src/vault_graph/indexing/extraction/vault_graph_document_adapter.py:370-386 | An empty inventory is published at revision zero exactly when the collection is absent |
| DocumentAdapters.VaultGraphDocumentAdapter.WriteChanged | src/vault_graph/indexing/extraction/vault_graph_document_adapter.py:396-420 | The update call succeeds exactly at the expected revision with acceptable documents, and writes exactly those whose input changed |
| DocumentAdapters.VaultGraphDocumentAdapter.DropRemoved | src/vault_graph/indexing/extraction/vault_graph_document_adapter.py:421-424 | The removal call succeeds exactly when the store accepts it, and drops exactly the stored documents the batch lacks |
| DocumentAdapters.VaultGraphDocumentAdapter.Recover | src/vault_graph/indexing/extraction/vault_graph_document_adapter.py:479-537 | Recovery succeeds exactly when the expected revision is stored, every document of the batch is stored with its input and digest, and the removal still due and the read fit the limits; then the batch is stored and published |
| DocumentAdapters.VaultGraphDocumentAdapter.ReadVerified | src/vault_graph/indexing/extraction/vault_graph_document_adapter.py:457-477 | A verified read succeeds exactly when the stored revision has a manifest and the selection can be read within the limits; what it returns is the selection of a complete synced inventory that is stored |
| DocumentAdapters.BothReached | src/vault_graph/indexing/extraction/vault_graph_document_adapter.py:403-424 | An uninterrupted run ends with the rows of the batch |
| DocumentAdapters.CanSyncExactly | src/vault_graph/indexing/extraction/vault_graph_document_adapter.py:334-450 | In terms of the recorded documents, the batch and the limits: when session, commits and read back of a run all succeed |
| DocumentAdapters.CanCarryExactly | src/vault_graph/indexing/extraction/vault_graph_document_adapter.py:403-450 | Both commits and the read back succeed, if and only if the overlay, the batch and its graph are within the limits |
| DocumentAdapters.RecoveryFitsExactly | src/vault_graph/indexing/extraction/vault_graph_document_adapter.py:515-537 | What a recovery still has to do succeeds, if and only if the batch is within the limits |
| DocumentAdapters.RevisionAfterRun | src/vault_graph/indexing/extraction/vault_graph_document_adapter.py:403-450 | A run raises the revision by one for each commit that has something to do |
| DocumentAdapters.RecoveryReaches | src/vault_graph/indexing/extraction/vault_graph_document_adapter.py:515-522 | So does a recovery from accepted rows |
| LegacyMapping.RowIsValid | src/vault_graph/indexing/extraction/vault_graph_document_adapter.py:149-200 | The contribution made from recorded occurrences passes the store's validation |
| LegacyMapping.ExcerptsExactly | src/vault_graph/indexing/extraction/vault_graph_document_adapter.py:149-200 | A contribution has an excerpt for exactly the places of its facts |
| LegacyMapping.RecomputedIsMapped | src/vault_graph/indexing/extraction/vault_graph_document_adapter.py:656-750 | The graph of an inventory passes the mapping check against that inventory, so a healthy read is never refused |
| LegacyMapping.MappedMeans | src/vault_graph/indexing/extraction/vault_graph_document_adapter.py:656-750 | The mapping check accepts a graph, if and only if its nodes are the recorded entities and documents, its edges the recorded relationships, and its evidence lies at exactly the recorded places with their methods and owners |
| LegacyMapping.PlacesApart | src/vault_graph/indexing/extraction/vault_graph_document_adapter.py:149-200 | No two occurrences of a document have the same place, and none has that of the document |
| LegacyMapping.NodesAreKnown | src/vault_graph/indexing/extraction/vault_graph_document_adapter.py:656-750 | Its nodes are exactly those of the recorded entity occurrences and documents |
| LegacyMapping.EdgesAreExpected | src/vault_graph/indexing/extraction/vault_graph_document_adapter.py:656-750 | Its edges are exactly those of the recorded relationships |
| LegacyMapping.EvidenceIsKnown | src/vault_graph/indexing/extraction/vault_graph_document_adapter.py:656-750 | Its evidence lies at exactly the recorded places |
| GraphSnapshots.Build | packages/graph-search/src/graph_search/graph_snapshot.py:67-143 | A snapshot is built exactly when limits are positive, sizes and identifiers fit, identifiers are unique and ends are nodes, and else the first check that fails names the error; it lists each edge in every row it belongs to, by next node, edge and direction |
| GraphSnapshots.Validate | packages/graph-search/src/graph_search/graph_snapshot.py:78-104 | The checks accept exactly the acceptable inputs, and the first that fails says whether the graph is invalid or too large |
| GraphSnapshots.ValidateEdges | packages/graph-search/src/graph_search/graph_snapshot.py:94-104 | The edge loop with its running byte count decides the edge half of the conditions; the first edge that fails a check names the error |
| GraphSnapshots.CountIds | packages/graph-search/src/graph_search/graph_snapshot.py:80-90 | The running total refuses exactly when some identifier or the sum exceeds its limit, and at the first one that does |
| GraphSnapshots.AddEdge | packages/graph-search/src/graph_search/graph_snapshot.py:115-121 | Each edge enters one outbound row, one inbound row, and the rows of both ends, a loop only once |
| GraphSnapshots.Adjacency | packages/graph-search/src/graph_search/graph_snapshot.py:110-121 | After the append loop each of the three tables lists exactly the edges of the snapshot |
| GraphSnapshots.SortRows | packages/graph-search/src/graph_search/graph_snapshot.py:126-141 | Sorting keeps each row's candidates and puts them in order |
| GraphSnapshots.SnapshotIsOrderFree | packages/graph-search/src/graph_search/graph_snapshot.py:106-143 | Two snapshots of the same nodes and edges are equal, in whatever order these were given |
| GraphSnapshots.DirectionsAreConverse | packages/graph-search/src/graph_search/graph_snapshot.py:145-150 | Outbound and inbound candidates are converse, and the both-ways relation is symmetric |
| BreadthFirst.EveryVisitIsShortest | packages/graph-search/src/graph_search/graph_traversal.py:34-86 | Each visit's depth is the true distance even when a limit stopped the run; a completed run visited exactly the nodes within the depth; a node limit means such a node was left out |
| BreadthFirst.LimitsOnlyExtend | packages/graph-search/src/graph_search/graph_traversal.py:34-86 | Raising any of the three limits only extends the list of visits |
| BreadthFirst.ReadsAreCounted | packages/graph-search/src/graph_search/graph_traversal.py:44-82 | The examinations are the candidates of the visited rows in order: all of them when the run completed, the first ones when a limit stopped it, and the visits are the nodes found there for the first time |
| BreadthFirst.EndingUnique | packages/graph-search/src/graph_search/graph_traversal.py:34-86 | Visits, reason and counts are determined by the snapshot, the source and the options |
| BreadthFirst.GraphSearch | packages/graph-search/src/graph_search/graph_traversal.py:34-86 | A negative depth, a node limit below one, a negative examination limit and an unknown source are refused; otherwise the queue loop ends where the step relation ends, with the counts it reports |
| BreadthFirst.Expand | packages/graph-search/src/graph_search/graph_traversal.py:44-82 | The inner loop with deque and seen set follows the step relation, and stops only where that relation stops |
| BreadthFirst.StepsAreWalks | packages/graph-search/src/graph_search/graph_traversal.py:44-82 | Reachability in k steps is the existence of a walk with k edges |
| BreadthFirst.VisitsById | packages/graph-search/src/graph_search/search_results.py:55-57 | The index has exactly the visited nodes, each with its own visit |
| BreadthFirst.PathTo | packages/graph-search/src/graph_search/search_results.py:58-74 | A visited target gets a real path from the source whose length is the target's distance; any other target is reported as not observed |
| PathTraversals.AllPathsExact | packages/graph-search/src/graph_search/path_traversal.py:21-129 | The recursive reference list holds exactly the node-simple paths of length one to the depth limit, each once |
| PathTraversals.ListedAreSimple | packages/graph-search/src/graph_search/path_traversal.py:90-122 | Every listed path is real, simple and within the depth, and continues where the list started |
| PathTraversals.SimpleAreListed | packages/graph-search/src/graph_search/path_traversal.py:90-122 | Every simple path within the depth is listed |
| PathTraversals.ListedOnce | packages/graph-search/src/graph_search/path_traversal.py:90-122 | No path is listed twice |
| PathTraversals.SummaryIsHonest | packages/graph-search/src/graph_search/path_traversal.py:74-129 | When the iterator ended: what it yielded is duplicate-free; a path limit means a further simple path exists; completion means none is left |
| PathTraversals.EndingExactly | packages/graph-search/src/graph_search/path_traversal.py:90-124 | Which limit ends a run, and after which paths, is decided by the list of candidates of the preorder: the path limit exactly when the first reads find more paths than allowed, the examination limit exactly when they do not and more candidates are left, completion otherwise |
| PathTraversals.WithinLimitsCompletes | packages/graph-search/src/graph_search/path_traversal.py:90-124 | When the list is within the examination limit and the paths within theirs, the calls yield every path and report completion with the length of the list |
| PathTraversals.EndingsAgree | packages/graph-search/src/graph_search/path_traversal.py:81-129 | Two iterators with the same arguments that ended without being cancelled yielded the same paths and report the same |
| PathTraversals.ReadsExactly | packages/graph-search/src/graph_search/path_traversal.py:90-122 | The candidates read are exactly those of the rows at the ends of the simple paths below the depth limit |
| PathTraversals.PathTraversal.ValidYieldsPrefix | packages/graph-search/src/graph_search/path_traversal.py:81-129 | At every moment between calls the yielded paths are a prefix of the reference list |
| PathTraversals.PathTraversal.Next | packages/graph-search/src/graph_search/path_traversal.py:81-129 | Each call yields the next path of the reference list or ends; the count of examinations is the number of candidates of the preorder read so far, and an examination limit is reported only when that many were read and more are left |
| PathTraversals.PathTraversal.Search | packages/graph-search/src/graph_search/path_traversal.py:90-124 | The loop terminates and either hands out one path or ends for a reason other than cancellation |
| PathTraversals.PathTraversal.Turn | packages/graph-search/src/graph_search/path_traversal.py:90-124 | One turn reads at most the next candidate of the preorder and counts it, or lowers the measure, keeping frames, nodes, steps and seen set in lockstep with what is left to read |
| PathTraversals.PathTraversal.PopFrame | packages/graph-search/src/graph_search/path_traversal.py:92-97 | Backing up from an exhausted frame loses no path; when no frame is left everything was yielded |
| PathTraversals.PathTraversal.TakeCandidate | packages/graph-search/src/graph_search/path_traversal.py:101-105 | Moving the cursor past a candidate skips nothing that is owed, except the subtree it is about to enter |
| PathTraversals.PathTraversal.Offer | packages/graph-search/src/graph_search/path_traversal.py:107-124 | At a new node the iterator either hands out the path to it, or stops because the path limit is reached while this path is left |
| PathTraversals.PathTraversal.Enter | packages/graph-search/src/graph_search/path_traversal.py:109-122 | The handed-out path is the current one extended, and the rest is still owed, also at the depth limit |
| PathTraversals.PathTraversal.Close | packages/graph-search/src/graph_search/path_traversal.py:70-79 | Closing an open iterator cancels it with honest counts; closing again changes nothing |
| PathTraversals.TakeKeeps | packages/graph-search/src/graph_search/path_traversal.py:101-105 | On values: the candidate taken is the next one of the preorder; what is left are the reads of its subtree when its node is new and nothing otherwise |
| PathTraversals.PopOwes | packages/graph-search/src/graph_search/path_traversal.py:92-97 | On values: what the open frames have left to read is unchanged when an exhausted frame is dropped |
| PathTraversals.SearchPaths | packages/graph-search/src/graph_search/path_traversal.py:132-134 | A negative depth, path limit below one or negative examination limit, and an unknown source, are refused; otherwise the iterator starts with nothing read or yielded |
| PathTraversals.BuiltRowsAreDistinct | packages/graph-search/src/graph_search/graph_snapshot.py:126-141 | Rows of a built snapshot hold no candidate twice, so the path list is duplicate-free |
| Provenance.SameRootIffConnected | src/vault_graph/indexing/ingestion/document_authority.py:47-72 | Two keys have the same root, if and only if provenance links connect them |
| Provenance.RootIsLeast | src/vault_graph/indexing/ingestion/document_authority.py:58-64 | The root is the least key of its component |
| Provenance.SameFamilyIffConnected | src/vault_graph/indexing/ingestion/document_authority.py:46-91 | Two pages get the same family, if and only if they are connected in one Vault, unloaded targets included |
| Provenance.SeedUnique | src/vault_graph/indexing/ingestion/document_authority.py:74-79 | The seed, the least path of the component, is determined by the links |
| Provenance.FamiliesAreOrderFree | src/vault_graph/indexing/ingestion/document_authority.py:46-91 | The order in which the pages are given does not matter |
| Provenance.ProvenanceForest.Find | src/vault_graph/indexing/ingestion/document_authority.py:52-56 | Path compression answers with the root, keeps every root, and terminates because parents never increase |
| Provenance.ProvenanceForest.Union | src/vault_graph/indexing/ingestion/document_authority.py:58-64 | Joining two keys of a Vault represents the links with this one added, and keeps parents descending |
| Provenance.ProvenanceForest.Add | src/vault_graph/indexing/ingestion/document_authority.py:49-50 | A new key is its own component |
| Provenance.JoinPage | src/vault_graph/indexing/ingestion/document_authority.py:67-72 | A page joins all its targets |
| Provenance.Join | src/vault_graph/indexing/ingestion/document_authority.py:66-72 | All pages together represent exactly their links |
| Provenance.Seeds | src/vault_graph/indexing/ingestion/document_authority.py:74-79 | The least path is recorded under each root |
| Provenance.AssignProvenanceFamilies | src/vault_graph/indexing/ingestion/document_authority.py:46-91 | Every page gets the family of the least path connected to it |
| Provenance.Compress | src/vault_graph/indexing/ingestion/document_authority.py:52-56 | Pointing a key at its root changes no root |
| MetadataClosure.LoadWithFamilies | src/vault_graph/indexing/metadata_indexer.py:298-369 | The worklist loads the least set that holds the keys and, in scope, everything a member opens by links, stored family or session group; a group is incomplete exactly when a member that only the group opened cannot be read; it stops only at an unreadable file that every such set opens directly, and always at an unreadable key |
| MetadataClosure.OpensExactly | src/vault_graph/indexing/metadata_indexer.py:326-365 | A file that can be read, or is gone, opens exactly its provenance targets, the live pages of its stored family, and the live files of the sessions it is or was in |
| MetadataClosure.Turn | src/vault_graph/indexing/metadata_indexer.py:318-365 | One turn keeps the worklist sound and complete, uses up the measure, and stops exactly at a file that cannot be read and was not opened by a group |
| MetadataClosure.Follow | src/vault_graph/indexing/metadata_indexer.py:333-365 | What a file opens is appended once, in scope only |
| MetadataClosure.FollowGroups | src/vault_graph/indexing/metadata_indexer.py:360-365 | So are the members of its groups, each remembered with the group that opened it |
| MetadataClosure.Push | src/vault_graph/indexing/metadata_indexer.py:354-357 | Keys not seen before are appended once, and seen grows by exactly those in scope |
| MetadataRuns.SessionsAreWhole | src/vault_graph/indexing/metadata_indexer.py:298-369 | Once one file of a session is loaded, before or after its edit, all files of the session are |
| MetadataRuns.UntouchedSession | src/vault_graph/indexing/metadata_indexer.py:298-369 | A session none of whose files was loaded has the files and contents it had |
| MetadataRuns.UntouchedChunksAreFull | src/vault_graph/indexing/metadata_indexer.py:366-369 | The chunks stored for a file that was not loaded are those a full run gives it |
| MetadataRuns.LoadedChunksAreFull | src/vault_graph/indexing/metadata_indexer.py:366-369 | The chunks a loaded file ends up with are those a full run gives it |
| FamilyRuns.FamiliesExactly | src/vault_graph/indexing/metadata_indexer.py:298-369 | All families, those given to loaded pages and those stored for the others, are those of a full run, if and only if the loaded pages give every shared target the family stored for the unloaded pages that name it |
| FamilyRuns.SharedWasMissing | src/vault_graph/indexing/metadata_indexer.py:346-357 | A target shared by loaded and unloaded pages was named, and was no page, before the run |
| FamilyRuns.StoredSeed | src/vault_graph/indexing/metadata_indexer.py:346-351 | The family stored for a page that was not loaded is the seed of what the unloaded pages connect it to |
| FamilyRuns.StillConnected | src/vault_graph/indexing/metadata_indexer.py:346-351 | A page that was not loaded is connected by unloaded pages to exactly what it was connected to before |
| FamilyRuns.FamilyPulls | src/vault_graph/indexing/metadata_indexer.py:346-351 | Pages that were connected before the run are loaded together |
| FamilyRuns.BothIsShared | src/vault_graph/indexing/metadata_indexer.py:346-357 | A key known to loaded and to unloaded pages is a shared target |
| FamilyRuns.Glued | src/vault_graph/indexing/ingestion/document_authority.py:46-91 | Two sets of links that agree on the seeds of the keys they share have, put together, the seeds they had apart |
| FamilyRuns.SeedExists | src/vault_graph/indexing/ingestion/document_authority.py:74-79 | Every key has a seed |
| FamilyRuns.NoDanglingIsFull | src/vault_graph/indexing/metadata_indexer.py:346-357 | When every provenance link led to a page before the run, all families are those of a full run, whatever the run adds |
| FamilyRuns.RunStaysIndexed | src/vault_graph/indexing/metadata_indexer.py:298-369 | The index a run stores is that of a full run, if and only if the shared targets agreed |
| FamilyRuns.AlwaysIndexed | src/vault_graph/indexing/metadata_indexer.py:298-369 | Over any history of runs: after every run the families are those of a full run, if and only if the shared targets of every run agreed |
| FamilyRuns.LinkedVaultsStayFull | src/vault_graph/indexing/metadata_indexer.py:346-357 | As long as every provenance link leads to a page, every run of a history leaves the families of a full run |
| FamilyRuns.DanglingSplitsFamily | src/vault_graph/indexing/metadata_indexer.py:346-357 | Two pages that meet only in a missing page get different families when one of them is new |
| FamilyRuns.CreatedTargetSplits | src/vault_graph/indexing/metadata_indexer.py:346-357 | Creating the missing page that another page names gives it a family of its own, where a full run gives it the other page's |
| MetadataRuns.KeysHoldChanges | src/vault_graph/indexing/metadata_indexer.py:238-254 | When skipped files did not change, the keys of a run hold every added, edited and removed file |
| MetadataRuns.BuildPlan | src/vault_graph/indexing/metadata_indexer.py:256-269 | Loaded files that are new, differ or are forced are changed, the others and the skipped ones unchanged, live files found nowhere deleted |
| MetadataRuns.PlanIsPartition | src/vault_graph/indexing/metadata_indexer.py:256-269 | Every file on disk is changed or unchanged and not both, and exactly the live files that are gone are deleted |
| SessionGroups.EachExchangeOnce | src/vault_graph/indexing/ingestion/session_exchange_v2_chunker.py:413-447 | Each exchange some file held survives in exactly one file: the first in part order with a whole copy, or else the first with any |
| SessionGroups.OwnerUnique | src/vault_graph/indexing/ingestion/session_exchange_v2_chunker.py:413-425 | There is one such file |
| SessionGroups.OwnerIsEarliest | src/vault_graph/indexing/ingestion/session_exchange_v2_chunker.py:413-425 | A file owns an exchange, if and only if its copy is whole and no whole copy is in an earlier part, or no copy is whole and none is in an earlier part |
| SessionGroups.DeduplicatedMeans | src/vault_graph/indexing/ingestion/session_exchange_v2_chunker.py:397-447 | The files come in part order, each with exactly the chunks it keeps and nothing else changed |
| SessionGroups.OverlapMeans | src/vault_graph/indexing/ingestion/session_group.py:152-159 | Two ranges overlap, if and only if some instant lies in both |
| SessionGroups.OtherChunksStay | src/vault_graph/indexing/ingestion/session_exchange_v2_chunker.py:432-438 | Chunks that belong to no exchange are never dropped |
| SessionGroups.DropIsOrderFree | src/vault_graph/indexing/ingestion/session_exchange_v2_chunker.py:397-447 | The result does not depend on the order of the files |
| SessionGroups.DropIsIdempotent | src/vault_graph/indexing/ingestion/session_exchange_v2_chunker.py:397-447 | Dropping duplicates again drops nothing |
| SessionGroups.DropDuplicateExchanges | src/vault_graph/indexing/ingestion/session_exchange_v2_chunker.py:397-447 | The ownership and stripping loops compute this result, in part order |
| SessionGroups.FindOwners | src/vault_graph/indexing/ingestion/session_exchange_v2_chunker.py:413-425 | After the loop each exchange is owned by the file the rule names |
| SessionGroups.Claim | src/vault_graph/indexing/ingestion/session_exchange_v2_chunker.py:422-425 | One more file takes over an exchange only from a copy that is not whole |
| SessionGroups.Copies | src/vault_graph/indexing/ingestion/session_exchange_v2_chunker.py:417-421 | A file's copy of an exchange counts as whole exactly when none of its chunks is continued |
| SessionGroups.StripFile | src/vault_graph/indexing/ingestion/session_exchange_v2_chunker.py:430-446 | A file keeps its chunks outside exchanges and those of the exchanges it owns |
| SessionGroups.Overlaps | src/vault_graph/indexing/ingestion/session_group.py:152-159 | True exactly when some instant lies in the range and in another one, a range without end counting as its start |
| SessionGroups.CoveringTimes | src/vault_graph/indexing/ingestion/session_group.py:123-133 | All v2 times of the group, or none when one is unknown |
| SessionGroups.RemoveCovered | src/vault_graph/indexing/ingestion/session_group.py:134-148 | A v1 file loses exactly the chunks of exchanges whose known time overlaps a v2 time |
| SessionGroups.ReprocessGroup | src/vault_graph/indexing/ingestion/session_group.py:104-149 | Duplicates are dropped; v1 exchanges covered by v2 go only when the group has both, is complete and all v2 times are known |
| SessionGroups.RegroupIsIdempotent | src/vault_graph/indexing/ingestion/session_group.py:104-149 | Running the group rules on their own result changes nothing |
| SessionGroups.RegroupIsOrderFree | src/vault_graph/indexing/ingestion/session_group.py:104-149 | The result does not depend on the order of the files |
| SessionGroups.GroupMembers | src/vault_graph/indexing/ingestion/session_group.py:82-88 | Each group holds its own files in order |
| SessionGroups.ReprocessSessionGroups | src/vault_graph/indexing/ingestion/session_group.py:68-101 | Each document is replaced by what its group makes of it and stays at its position; others stay as they are |
| SessionGroups.GroupsAreLocal | src/vault_graph/indexing/ingestion/session_group.py:68-101 | What becomes of a file depends only on its own session's files and times, whatever else was loaded and in whatever order |
| VectorPlans.SnapshotConverges | packages/vector-index/src/vector_index/indexing.py:68-143 | Applying a snapshot plan leaves one row for each desired item, at its place and showing it, and no other row in the declared collections |
| VectorPlans.ReplanIsEmpty | packages/vector-index/src/vector_index/indexing.py:68-143 | Planning again without forcing everything finds every item unchanged |
| VectorPlans.ChangesKeepOthers | packages/vector-index/src/vector_index/indexing.py:128-132 | A plan of changes leaves rows of unlisted items as they are |
| VectorPlans.OutsideUntouched | packages/vector-index/src/vector_index/indexing.py:292-315 | Rows outside the declared collections are never touched |
| VectorPlans.ItemArrives | packages/vector-index/src/vector_index/indexing.py:108-127 | Every desired item ends up at its place, written with its fingerprint and metadata when something differs, and otherwise left as it was |
| VectorPlans.RowsLeft | packages/vector-index/src/vector_index/indexing.py:113-132 | Any row that is left is a desired item's or that of an unlisted item in a plan of changes |
| VectorPlans.PlanIndex | packages/vector-index/src/vector_index/indexing.py:68-143 | A plan is made exactly when items lie inside the collections, are listed once and take over no record; by the fields of items and stored rows it lists exactly what to write, what to update and what to delete, and counts the rest |
| VectorPlans.Compare | packages/vector-index/src/vector_index/indexing.py:108-127 | The comparison loop refuses exactly when an item would take over another item's record |
| VectorPlans.VectorIndex.MakePlan | packages/vector-index/src/vector_index/indexing.py:275-290 | A plan is made exactly when the items can be planned, and is that of the manifest of the declared collections |
| VectorPlans.PlanUnique | packages/vector-index/src/vector_index/indexing.py:68-143 | Items and manifest determine the plan |
| VectorPlans.PlanLists | packages/vector-index/src/vector_index/indexing.py:68-143 | A plan lists exactly the items and rows that the fields of items and stored rows call for |
| VectorPlans.VectorIndex.Apply | packages/vector-index/src/vector_index/indexing.py:292-315 | A plan is applied whole exactly when planning again gives the same plan; else nothing changes |
| EmbeddingBatches.IterEmbeddingBatches | packages/vector-index/src/vector_index/indexing.py:171-207 | Limits that are not positive and repeated items are refused; batches hold each item once with its position and the estimate of its text, at least one, in order of estimates and positions, keep count times largest estimate within the budget, and are as few as possible |
| EmbeddingBatches.FewestBatches | packages/vector-index/src/vector_index/indexing.py:199-207 | The greedy split is minimal among all splits of the order into consecutive valid batches |
| EmbeddingBatches.StaysAhead | packages/vector-index/src/vector_index/indexing.py:199-207 | After k batches the greedy split has covered at least as many items as any other |
| EmbeddingBatches.Order | packages/vector-index/src/vector_index/indexing.py:191-195 | Every item once with the estimate of its text, at least one, ordered by estimate and, among equals, as listed |
| EmbeddingBatches.Split | packages/vector-index/src/vector_index/indexing.py:197-207 | Each batch is valid and could not have taken the next item |
| EmbeddingBatches.WriteBatches | src/vault_graph/indexing/vector_index_adapter.py:258-289 | Writing batch by batch with the tombstones on the first write only is one write of everything |
| EmbeddingBatches.BatchedWriteIsOne | src/vault_graph/indexing/vector_index_adapter.py:258-289 | It leaves the store of one delete-then-upsert in the original order |
| EmbeddingBatches.WriteOrderFree | src/vault_graph/indexing/vector_index_adapter.py:258-289 | The order of records at distinct places does not show |
| IndexServices.AlwaysClean | src/vault_graph/interface/composition/local_index_service_factory.py:549-559 | Over any sequence of runs, of any models and with any outcome, every published vector of every model points at a chunk of the metadata |
| IndexServices.StepKeeps | src/vault_graph/indexing/index_service.py:222-263 | One run keeps this, published or not |
| IndexServices.RefusedExactly | src/vault_graph/interface/composition/local_index_service_factory.py:549-559 | The audit before publication refuses a run, if and only if some removed chunk has a vector that the run does not drop |
| IndexServices.PublishedExactly | src/vault_graph/indexing/index_service.py:48-66 | Report and audit together publish a run exactly when nothing failed but a vector plan and no vector of a removed chunk is out of reach of the drop |
| IndexServices.ReportMeans | src/vault_graph/indexing/index_service.py:222-353 | Which stage the report names, and whether it can be published, by mode and weather |
| IndexServices.StagedHolds | src/vault_graph/indexing/index_service.py:222-353 | What a publishable run stages: the vectors of the indexed chunks after a full success, and otherwise the old ones less exactly those of removed chunks that the run drops |
| IndexServices.PublishedIsValid | src/vault_graph/interface/composition/local_index_service_factory.py:549-559 | Although the audit looks at the Vaults of the run only, what it lets through is clean everywhere |
| IndexServices.DropExactly | src/vault_graph/indexing/index_service.py:320-353 | Dropping removed chunks under one model passes the audit, if and only if no removed chunk has a vector of another model |
| IndexServices.DropEveryExactly | src/vault_graph/indexing/index_service.py:567-593 | Dropping the vectors of listed files passes the audit, if and only if no other file lost a chunk with a vector |
| IndexServices.OtherModelStops | src/vault_graph/indexing/index_service.py:335-353 | A chunk with a vector of the first model, removed while the second is in use: the run is refused, and under the first model it is not |
| IndexServices.UnlistedFileStops | src/vault_graph/indexing/index_service.py:265-300 | A file that is not listed loses its chunk: the run is refused, and with the file listed it is not |
| IndexServices.SuccessShows | src/vault_graph/indexing/index_service.py:248-256 | A successful vector run leaves, in the Vaults of the run, one vector of the model for each chunk but templates, made from its text, and no other row; elsewhere it changes nothing |
| IndexServices.ItemsArePlannable | src/vault_graph/indexing/vector_index_adapter.py:171-256 | The items made from the chunks are never refused by the plan |
| IndexServices.IndexService.RunApply | src/vault_graph/indexing/index_service.py:222-263 | By mode and weather only: a run is published exactly when the graph stage did not fail, no planned write failed, no drop that was due failed, and no removed chunk keeps a vector out of reach of the drop; the report names the stage that failed; the published vectors are those of the indexed chunks, or the old ones less those of removed chunks |
| IndexServices.IndexService.Stage | src/vault_graph/indexing/index_service.py:222-353 | For each mode and each failure the staged vectors are those of a full success, of the drop that mode makes, or of the copy |
| IndexServices.IndexService.ApplyVectors | src/vault_graph/indexing/vector_index_adapter.py:171-289 | Planning and writing in batches succeeds, and the vectors are those of the indexed chunks |
| IndexServices.IndexService.SwitchModel | src/vault_graph/indexing/index_service.py:374-385 | Another model may be taken into use at any time without an effect on what is published |
| RecallLayout.NoticesDoNotInterfere | src/vault_graph/context/pack/recall.py:774-794 | Two notice lists, all that usage history can change, give the same shown items, and the printed text is empty or within both limits |
| RecallLayout.ReserveDecides | src/vault_graph/context/pack/recall.py:774-794 | The items that fit beside the reserve are all shown, or nothing is printed; the last loop never leaves one out |
| RecallLayout.Arrange | src/vault_graph/context/pack/recall.py:721-794 | The printed text is the pins, the summary, the first items and the number of those left out, the leading notices and the last block; it shows as many items as leave the reserve of the notices free, then as many notices as have room, keeps both limits, and is empty only when the page does not fit without any item |
| RecallLayout.ArrangedMeans | src/vault_graph/context/pack/recall.py:721-794 | What the loops arrange prints the first items, the count of the rest and the leading notices, as many as there is room for |
| RecallLayout.RenderPrints | src/vault_graph/context/pack/recall.py:759-773 | The rendered page is pins, summary, item list, notice list and last block, one newline after each that is there, and the item list says how many items it leaves out |
| RecallLayout.ChooseNotices | src/vault_graph/context/pack/recall.py:751-757 | The longest run of leading notices that fits its block |
| RecallLayout.DropItems | src/vault_graph/context/pack/recall.py:785-786 | The largest number of items that fits, or none |
| RecallLayout.DropNotices | src/vault_graph/context/pack/recall.py:782-784 | The largest number of notices that fits, or none |
| RecallLayout.WithoutNotices | src/vault_graph/context/pack/recall.py:774-777 | A page that fits with notices fits without them |
| RecallLayout.JoinedSize | src/vault_graph/context/pack/recall.py:179-181 | Tokens of joined blocks add up, characters add up with one separator each |
| RecallLayout.BlockShare | src/vault_graph/context/pack/recall.py:168-176 | A block's share is at most its budget, is the whole budget under default limits, and within smaller limits |
| RecallLayout.L3Text | src/vault_graph/context/pack/recall.py:648-676 | The summary is the brief, the three lists under their titles and the number of pages left out; it leaves out as few as make it fit, and is empty exactly when there is nothing to show or it is too long without any page |
| RecallLayout.SummaryIs | src/vault_graph/context/pack/recall.py:656-667 | The text of the summary is the brief, each list that has pages under its title, and the number of pages left out |
| RecallLayout.Shorten | src/vault_graph/context/pack/recall.py:670-675 | No smaller number of dropped pages would fit, and dropping ends when the rest fits or no page is left |
| RecallLayout.Longest | src/vault_graph/context/pack/recall.py:672-672 | The list to shorten is the longest, the later one among equals |
| RecallLayout.DroppedUnique | src/vault_graph/context/pack/recall.py:671-675 | How many pages were dropped decides which ones |
| RecallLayout.DroppedIsEven | src/vault_graph/context/pack/recall.py:671-675 | Pages go from the ends of the lists, as many as counted, and shortened lists differ by at most one page |
| RecallLayout.CappedCounts | src/vault_graph/context/pack/recall.py:706-712 | Each category shows its entries up to its cap |
| RecallLayout.SelectItems | src/vault_graph/context/pack/recall.py:706-712 | Entries are taken in order until their category is full |
| RecallLayout.BlockBItems | src/vault_graph/context/pack/recall.py:689-712 | Listed items are current, unpinned and no navigation pages, newest first, at most ten decisions and eight of the others; one that is left out has a full share of its category, all no older, listed before it; usage is not read |
| RecallLayout.LeftOut | src/vault_graph/context/pack/recall.py:706-712 | Taking entries in order leaves out only what comes after a full share of its category |
| Sorting.SortIsStable | src/vault_graph/context/pack/recall.py:697-705 | Sorting by place and then by day, newest first, gives the order by day with ties by place |
| WindowPacking.PackExchangeWindows | src/vault_graph/indexing/ingestion/session_exchange_v2_chunker.py:265-333 | Windows hold the words of all lines in order; each has one to the maximum number of words, says how many and where it begins and ends, and its text is its pieces with one newline between them, or two where the group changes; a line that fits an empty window is never split, and a window is closed only when full or when the next line does not fit |
| WindowPacking.LaysOut | src/vault_graph/indexing/ingestion/session_exchange_v2_chunker.py:279-297 | The text of a window is its pieces at their places, with one newline between two of the same group and two otherwise |
| WindowPacking.WordsBetween | src/vault_graph/indexing/ingestion/session_exchange_v2_chunker.py:319-323 | The text from one word through another holds exactly the words between |
| WindowPacking.WordsByPosition | src/vault_graph/indexing/ingestion/session_exchange_v2_chunker.py:304-307 | The positions found in a text are those of its words |
| WindowPacking.PieceWords | src/vault_graph/indexing/ingestion/session_exchange_v2_chunker.py:319-330 | A piece of a cut line is a part of its text that begins and ends with a word and holds exactly the words it was cut for, at its place in the line |
| WindowPacking.Packer.Pack | src/vault_graph/indexing/ingestion/session_exchange_v2_chunker.py:304-331 | A line that fits an empty window goes in whole, into the open window if it fits there; a longer one fills the open window and goes on at word boundaries |
| WindowPacking.Packer.Split | src/vault_graph/indexing/ingestion/session_exchange_v2_chunker.py:313-331 | Cutting a long line conserves its words, closes full windows only, and terminates |
| WindowPacking.Packer.Flush | src/vault_graph/indexing/ingestion/session_exchange_v2_chunker.py:279-297 | Closing a window changes none of the packed fragments |
| WindowPacking.Packer.Add | src/vault_graph/indexing/ingestion/session_exchange_v2_chunker.py:299-302 | A fragment is appended and counted within the maximum |
| EvidenceSelection.SelectItems | src/vault_graph/context/pack/context_pack_builder.py:163-226 | Over the whole loop: each item has the status that the evidence kept before it gives it, kept evidence is exactly what kept items cite, used tokens are its sum and within budget, and kept plus omitted items are the planned ones |
| EvidenceSelection.TakeItem | src/vault_graph/context/pack/context_pack_builder.py:167-219 | From what was kept before it, one item is kept with all its resolvable references, or leaves no trace as over budget or as missing, and is counted once |
| EvidenceSelection.TakeRefs | src/vault_graph/context/pack/context_pack_builder.py:170-210 | The loop stops at a reference, if and only if it is new and either as many are cited or kept as allowed or its tokens exceed what is left; what is not found counts for neither |
| EvidenceSelection.ContextEvidenceSelection.FinishItem | src/vault_graph/context/pack/context_evidence_selection.py:54-62 | The item's evidence is taken over whole or dropped whole, and the status says which and why |
| EvidenceSelection.ContextEvidenceSelection.AddEvidence | src/vault_graph/context/pack/context_evidence_selection.py:44-52 | Evidence is added exactly when its tokens still fit |
| EvidenceSelection.ContextEvidenceSelection.CheckRef | src/vault_graph/context/pack/context_evidence_selection.py:34-42 | A known reference is reused; a new one is refused exactly when the evidence limit is reached |
| EvidenceSelection.ContextEvidenceSelection.BeginItem | src/vault_graph/context/pack/context_evidence_selection.py:28-32 | A new item starts with nothing pending |
| EvidenceSelection.TallyItem | src/vault_graph/context/pack/context_pack_builder.py:213-226 | One more finished item keeps the account of the whole loop |
| EvidenceSelection.SumUnion | src/vault_graph/context/pack/context_evidence_selection.py:54-62 | Tokens of disjoint evidence add up |
| ItemPages.FollowAll | packages/graph-document/src/graph_document/querying.py:122-174 | Following the cursors collects every node of a wanted kind that has the name or its normalized form once, in identifier order, and ends after as many pages as needed |
| ItemPages.RestAfter | packages/graph-document/src/graph_document/querying.py:148-161 | Continuing after the last item of a page gives exactly the rest |
| ItemPages.MatchesAre | packages/graph-document/src/graph_document/querying.py:148-160 | The listed nodes are exactly those after the cursor of a wanted kind whose key is the name or that have the normalized name, in order |
| ItemPages.FollowingPage | packages/graph-document/src/graph_document/querying.py:122-174 | A cursor that was handed out is accepted, its page is not empty and continues the list |
| ItemPages.CursorsDoNotMix | packages/graph-document/src/graph_document/querying.py:138-146 | A cursor is accepted only for the snapshot and query it was made for |

## Left out

What the members above do not capture:

- GraphStores.GraphStore.ApplyScopePlan: creation times, excerpts, stale counts and warnings are not modelled; parser and
  chunker versions are one value.
- GraphRuns.GraphIndexer.Apply: one scope per graph, and documents that can always be resolved; store and extractor
  errors that abort a run are not modelled.
- Extraction.DeterministicIsLawful: links are a field of the chunk and each target occurs in its text; the regular
  expression that finds them is not modelled. Relationships join entities of one chunk, as the shipped extractor makes
  them.
- ExtractionMeaning.EntitiesAreFound: an entity whose name would be empty, at which the extractor stops with an error, is
  an entity like any other.
- Extraction.FrontmatterShowsTarget: the text of the frontmatter is a value that holds each target, quoted or as it is;
  keys, order and nesting are those of `MissedLinks.DictText` where a concrete text is needed.
- Text.SurvivesExactly: white space, lower case and printability are modelled for the common characters only.
- DocumentStores.GraphDocument.UpdateDocuments: limits on UTF-8 sizes, the form of identifiers, busy databases and
  extractors that raise for other reasons than having no answer are not modelled.
- ShadowProtocol.RestoredWasSynced: the recorded inventory names occurrences by numbers; the graph built from recorded
  occurrences is that of `Restoration`, where nodes and edges are maps and their order is left out.
- DocumentAdapters.VaultGraphDocumentAdapter.Sync: reading and writing the manifest file is one step each; paths,
  links and file permissions are not modelled.
- MetadataRuns.KeysHoldChanges: that a file with the recorded size, time and index code did not change is assumed.
- MetadataRuns.UntouchedChunksAreFull: that an unchanged file reads as before, with the same times, is assumed.
- FamilyRuns.FamiliesExactly: runs over listed files with deletions are not covered.
- MetadataRuns.LoadedChunksAreFull: the files of the disk are readable.
- SessionGroups.ReprocessGroup: warnings are left out, times are numbers or unknown.
- VectorPlans.PlanIndex: a fingerprint stands for the vector; filling in missing metadata fingerprints is left out.
- EmbeddingBatches.WriteBatches: the metadata updates that follow the batches are the `updates` of the plan in
  `VectorPlans`, written in one step.
- IndexServices.IndexService.RunApply: the graph stage is a flag that says whether it failed, and of the audit before
  publication only the part about vectors is modelled.
- RecallLayout.Arrange: the pins, the project summary, block D and the lines of items and notices are given texts.
- EvidenceSelection.ContextEvidenceSelection.AddEvidence: evidence carries the reference it was resolved for.
- EvidenceSelection.SelectItems: warnings and excerpts are left out; unresolved references and references outside the
  scopes are the same case.
- ItemPages.FollowAll: name normalization is given, as a set of normalized names per node.

Not modelled at all:

- SQLite, Chroma, the file system and rustworkx; their effects are maps.
- SHA-256, JSON and base64; digests and cursors are injective.
- Embedding providers, similarity scores and ranking.
- Renderers, answer composition, memory projections, pins, usage logs and warnings.
- Removing and re-reading claim tables, and the readings of backlog and status.
