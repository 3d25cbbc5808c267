# PhenoTips: HGNC gene vocabulary, scored phenotype suggestions, gene-list controller

A Dafny model of three pieces of PhenoTips, as their unit tests pin them down.

- **HGNC gene nomenclature** (`hgnc_query.dfy`, `hgnc_vocabulary.dfy`). A symbol lookup builds the
  query `symbol:<k> OR prev_symbol:<k> OR alias_symbol:<k>`. In that query `<k>` is the symbol with
  every query-syntax character preceded by a backslash. The query is sent to the search index, and
  the first hit becomes the vocabulary term.
  - Reindexing replaces the whole index in a fixed order: delete everything with `*:*`, add the new
    batch, commit, then clear the term cache. It reports 0 on success.
  - Both distance queries return the placeholder -1.
  - The search index and the term cache are in-memory stand-ins held by the `GeneNomenclature` class.
    A ghost log records the calls made on them.
- **SuggestedPhenotype** (`suggested_phenotype.dfy`) is an immutable (id, name, score) value.
  - `equals` looks at the id only. It is true for the receiver itself, and otherwise needs the same
    non-null id.
  - `compareTo` looks at the score only, highest score first. It returns 0 against null.
  - The getters are the datatype's destructors.
- **GeneListController** (`gene_list_controller.dfy`).
  - `load` turns the patient document's gene objects into an ordered list of `{gene, comments}`
    entries. It returns null when the document cannot be read or has no gene objects.
  - `writeJSON` writes that list under `"genes"`. It writes nothing unless the `genes` field is
    selected and the data is non-empty. Comments are dropped unless `genes_comments` is selected.
    A null selection selects everything.
  - The controller reports its name, its JSON key, its properties, and no boolean or code fields.

`wrappers.dfy` holds the `Option` type used for Java's nullable references.

Where the tests and the written design of the system disagree, the model follows the tests:
- `compareTo` ranks the higher score first: 1.0 against 0.999 gives -1. The design describes
  ascending order.
- `reindex` returns 0 on success. The design describes a count of indexed terms.

The escaped characters are those of the escaping test plus the space, which the design adds.

## Model

| member | source | states |
|---|---|---|
| HgncQuery.Escape | components/vocabularies/hgnc/api/src/test/java/org/phenotips/vocabulary/internal/GeneHGNCNomenclatureTest.java:151-158 | Escaping only adds markers: every character of the result is a backslash or a character of the symbol, and the result is at least as long as the symbol and at most twice as long. EscapeUnescape states that no reserved character is left bare and that removing the markers gives the symbol back. UnescapeEscape states that every well-escaped string is such an escape |
| HgncQuery.TermQuery | components/vocabularies/hgnc/api/src/test/java/org/phenotips/vocabulary/internal/GeneHGNCNomenclatureTest.java:137-158 | The query built for any symbol parses back to exactly that symbol. So the three clauses carry the same escaped symbol, and different symbols give different queries (TermQueryInjective) |
| HgncQuery.EscapeUnescape | components/vocabularies/hgnc/api/src/test/java/org/phenotips/vocabulary/internal/GeneHGNCNomenclatureTest.java:151-158 | An escaped symbol leaves no reserved character unmarked, and removing the markers gives the symbol back |
| HgncQuery.UnescapeEscape | components/vocabularies/hgnc/api/src/test/java/org/phenotips/vocabulary/internal/GeneHGNCNomenclatureTest.java:151-158 | Every well-escaped fragment is the escape of the symbol it unescapes to |
| HgncQuery.EscapeInjective | components/vocabularies/hgnc/api/src/test/java/org/phenotips/vocabulary/internal/GeneHGNCNomenclatureTest.java:137-141 | Different symbols escape to different fragments |
| HgncQuery.EscapeConcat | components/vocabularies/hgnc/api/src/test/java/org/phenotips/vocabulary/internal/GeneHGNCNomenclatureTest.java:151-158 | Escaping works character by character: the escape of a concatenation is the concatenation of the escapes |
| HgncQuery.EscapePlain | components/vocabularies/hgnc/api/src/test/java/org/phenotips/vocabulary/internal/GeneHGNCNomenclatureTest.java:137-139 | A symbol without reserved characters is left unchanged |
| HgncQuery.EscapeAllReserved | components/vocabularies/hgnc/api/src/test/java/org/phenotips/vocabulary/internal/GeneHGNCNomenclatureTest.java:151-158 | A symbol made of reserved characters escapes to a backslash before each of them, in order |
| HgncQuery.ParseTermQuery | components/vocabularies/hgnc/api/src/test/java/org/phenotips/vocabulary/internal/GeneHGNCNomenclatureTest.java:154-156 | A query it accepts is exactly the three-clause query of the symbol it returns |
| HgncQuery.TermQueryInjective | components/vocabularies/hgnc/api/src/test/java/org/phenotips/vocabulary/internal/GeneHGNCNomenclatureTest.java:140-141 | Different symbols give different queries |
| HgncQuery.TermQueryPlain | components/vocabularies/hgnc/api/src/test/java/org/phenotips/vocabulary/internal/GeneHGNCNomenclatureTest.java:137-139 | A plain symbol appears verbatim in all three clauses |
| HgncQuery.A1bgQuery | components/vocabularies/hgnc/api/src/test/java/org/phenotips/vocabulary/internal/GeneHGNCNomenclatureTest.java:137-141 | The query for A1BG, which GetTerm sends, is "symbol:A1BG OR prev_symbol:A1BG OR alias_symbol:A1BG" and not the A1CF query |
| HgncQuery.SpecialSymbolQuery | components/vocabularies/hgnc/api/src/test/java/org/phenotips/vocabulary/internal/GeneHGNCNomenclatureTest.java:151-158 | The query for the symbol of the escaping test, which GetTerm sends, is exactly the asserted string: each clause with every character backslash-escaped |
| HgncVocabulary.FirstMatch | components/vocabularies/hgnc/api/src/test/java/org/phenotips/vocabulary/internal/GeneHGNCNomenclatureTest.java:220-232 | The index returned holds a document found by the symbol, and no earlier document is found by it; None means no document is found by it |
| HgncVocabulary.Lookup | components/vocabularies/hgnc/api/src/test/java/org/phenotips/vocabulary/internal/GeneHGNCNomenclatureTest.java:161-172 | A lookup is empty exactly when no document carries the symbol as its symbol, a previous symbol or an alias; otherwise it is the term of the first such document |
| HgncVocabulary.LookupAppend | components/vocabularies/hgnc/api/src/test/java/org/phenotips/vocabulary/internal/GeneHGNCNomenclatureTest.java:220-232 | When several documents match, the earlier-indexed batch wins |
| HgncVocabulary.StringDistance | components/vocabularies/hgnc/api/src/test/java/org/phenotips/vocabulary/internal/GeneHGNCNomenclatureTest.java:174-182 | The distance between any two symbols, null included, is -1 |
| HgncVocabulary.TermDistance | components/vocabularies/hgnc/api/src/test/java/org/phenotips/vocabulary/internal/GeneHGNCNomenclatureTest.java:184-192 | The distance between any two terms, null included, is -1 |
| HgncVocabulary.ReindexCallsOrder | components/vocabularies/hgnc/api/src/test/java/org/phenotips/vocabulary/internal/GeneHGNCNomenclatureTest.java:117-127 | A reindex always starts with the match-all delete. It adds the batch unless the delete failed, commits only after a successful add, and clears the cache exactly when everything succeeded. The test checks only that the four calls happen and that the result is 0; the order and the failure paths follow the written design |
| HgncVocabulary.GeneNomenclature.constructor | components/vocabularies/hgnc/api/src/test/java/org/phenotips/vocabulary/internal/GeneHGNCNomenclatureTest.java:97-114 | The vocabulary starts bound to the given index and cache, with no calls made |
| HgncVocabulary.GeneNomenclature.DeleteAll | components/vocabularies/hgnc/api/src/test/java/org/phenotips/vocabulary/internal/GeneHGNCNomenclatureTest.java:122 | deleteByQuery("*:*") empties the index when it succeeds and is logged either way |
| HgncVocabulary.GeneNomenclature.AddAll | components/vocabularies/hgnc/api/src/test/java/org/phenotips/vocabulary/internal/GeneHGNCNomenclatureTest.java:124 | A successful add appends the batch to the index; the call is logged either way |
| HgncVocabulary.GeneNomenclature.CommitIndex | components/vocabularies/hgnc/api/src/test/java/org/phenotips/vocabulary/internal/GeneHGNCNomenclatureTest.java:125 | A commit changes neither index nor cache and is logged |
| HgncVocabulary.GeneNomenclature.ClearCache | components/vocabularies/hgnc/api/src/test/java/org/phenotips/vocabulary/internal/GeneHGNCNomenclatureTest.java:123 | removeAll empties the cache, leaves the index alone, and is logged |
| HgncVocabulary.GeneNomenclature.Reindex | components/vocabularies/hgnc/api/src/test/java/org/phenotips/vocabulary/internal/GeneHGNCNomenclatureTest.java:117-127 | The call sequence is delete, add, commit, clear. The result is 0 exactly when nothing failed, and then the index holds exactly the new batch and the cache is empty. A failure reports a write error and leaves the cache as it was. An unreadable source changes nothing. The test checks only that the four calls happen and that the result is 0; the order and the failure paths follow the written design |
| HgncVocabulary.GeneNomenclature.Search | components/vocabularies/hgnc/api/src/test/java/org/phenotips/vocabulary/internal/GeneHGNCNomenclatureTest.java:208-235 | The index answers a symbol query with the first document, in index order, that the queried symbol finds; anything else gets no answer |
| HgncVocabulary.GeneNomenclature.GetTerm | components/vocabularies/hgnc/api/src/test/java/org/phenotips/vocabulary/internal/GeneHGNCNomenclatureTest.java:161-172 | Every lookup sends TermQuery(symbol) and logs it as its one call. Index and cache stay unchanged. When the query succeeds, the outcome is exactly the lookup of the symbol on the current index. When it fails, the outcome is a failure, distinct from "not found" |
| HgncVocabulary.ReindexThenLookup | components/vocabularies/hgnc/api/src/test/java/org/phenotips/vocabulary/internal/GeneHGNCNomenclatureTest.java:161-172 | After reindexing T and TAAR1, the lookup of TAAR1 returns HGNC:17734 "trace amine associated receptor 1" and the lookup of T returns HGNC:11515 "T, brachyury homolog (mouse)" |
| HgncVocabulary.SubstringAnswer | components/vocabularies/hgnc/api/src/test/java/org/phenotips/vocabulary/internal/GeneHGNCNomenclatureTest.java:219-234 | The test's index stand-in answers with at most one document. The answer is empty exactly when no indexed document has a field value occurring in the query text. Otherwise it is the first such document in index order |
| HgncVocabulary.QueryHoldsEscapedPrefixes | components/vocabularies/hgnc/api/src/test/java/org/phenotips/vocabulary/internal/GeneHGNCNomenclatureTest.java:224-226 | Every prefix of the escaped symbol occurs in the query text, so the stand-in accepts any document whose symbol is such a prefix |
| HgncVocabulary.SubstringAnswerMisattributes | components/vocabularies/hgnc/api/src/test/java/org/phenotips/vocabulary/internal/GeneHGNCNomenclatureTest.java:219-232 | With T indexed before TAAR1, the stand-in answers the TAAR1 query with T, while field matching returns TAAR1 |
| SuggestedPhenotypes.CompareTo | components/solr-access-service/api/src/test/java/org/phenotips/solr/SuggestedPhenotypeTest.java:47-59 | compareTo is 0 against null. Otherwise it is -1 exactly when this score is higher, +1 exactly when it is lower, and 0 on equal scores |
| SuggestedPhenotypes.CompareToExamples | components/solr-access-service/api/src/test/java/org/phenotips/solr/SuggestedPhenotypeTest.java:47-59 | Every comparison of the unit test gives the asserted 0, -1 or +1 |
| SuggestedPhenotypes.CompareAntisymmetric | components/solr-access-service/api/src/test/java/org/phenotips/solr/SuggestedPhenotypeTest.java:54-58 | Swapping the operands negates the comparison |
| SuggestedPhenotypes.CompareTransitive | components/solr-access-service/api/src/test/java/org/phenotips/solr/SuggestedPhenotypeTest.java:54-58 | "Ranks no later than" is transitive |
| SuggestedPhenotypes.CompareIgnoresIdAndName | components/solr-access-service/api/src/test/java/org/phenotips/solr/SuggestedPhenotypeTest.java:51-53 | Ids and names never affect the comparison |
| SuggestedPhenotypes.RankedIffDescending | components/solr-access-service/api/src/test/java/org/phenotips/solr/SuggestedPhenotypeTest.java:54-58 | A list is in compareTo order exactly when its scores never increase |
| SuggestedPhenotypes.Equals | components/solr-access-service/api/src/test/java/org/phenotips/solr/SuggestedPhenotypeTest.java:63-74 | equals is true for the receiver itself and false for null and for objects of another class. Between two suggestions it is true exactly when both ids are non-null and the same. Its consequences are EqualsIgnoresNameAndScore, EqualsIsConsistent and NullIdEqualsNoOther |
| SuggestedPhenotypes.EqualsIgnoresNameAndScore | components/solr-access-service/api/src/test/java/org/phenotips/solr/SuggestedPhenotypeTest.java:73 | Name and score never affect equality, on either side |
| SuggestedPhenotypes.EqualsIsConsistent | components/solr-access-service/api/src/test/java/org/phenotips/solr/SuggestedPhenotypeTest.java:65-66 | Equality is reflexive on the receiver, symmetric and transitive |
| SuggestedPhenotypes.NullIdEqualsNoOther | components/solr-access-service/api/src/test/java/org/phenotips/solr/SuggestedPhenotypeTest.java:69-71 | A suggestion with a null id equals no other suggestion, in either direction |
| SuggestedPhenotypes.EqualButOrdered | components/solr-access-service/api/src/test/java/org/phenotips/solr/SuggestedPhenotypeTest.java:54 | The same id with a lower score is equal, yet compares as -1: equality and ordering are independent |
| GeneListControllers.Name | components/patient-data/impl/src/test/java/org/phenotips/data/internal/controller/GeneListControllerTest.java:281-285 | The controller's name is "genes" |
| GeneListControllers.JsonPropertyName | components/patient-data/impl/src/test/java/org/phenotips/data/internal/controller/GeneListControllerTest.java:287-292 | The JSON key is the controller's name, "genes" |
| GeneListControllers.Properties | components/patient-data/impl/src/test/java/org/phenotips/data/internal/controller/GeneListControllerTest.java:294-303 | There are two properties, gene and comments |
| GeneListControllers.BooleanFields | components/patient-data/impl/src/test/java/org/phenotips/data/internal/controller/GeneListControllerTest.java:305-310 | There are no boolean fields |
| GeneListControllers.CodeFields | components/patient-data/impl/src/test/java/org/phenotips/data/internal/controller/GeneListControllerTest.java:312-316 | There are no vocabulary-code fields |
| GeneListControllers.EntryOf | components/patient-data/impl/src/test/java/org/phenotips/data/internal/controller/GeneListControllerTest.java:148-161 | An entry holds exactly the gene object's gene and comments fields, with their values |
| GeneListControllers.Load | components/patient-data/impl/src/test/java/org/phenotips/data/internal/controller/GeneListControllerTest.java:127-161 | Load is null when the document cannot be read or has no gene objects. Otherwise it has one entry per gene object, in document order |
| GeneListControllers.LoadedEntryFields | components/patient-data/impl/src/test/java/org/phenotips/data/internal/controller/GeneListControllerTest.java:153-160 | A gene object with both fields loads as exactly {gene, comments} with its values |
| GeneListControllers.JsonEntry | components/patient-data/impl/src/test/java/org/phenotips/data/internal/controller/GeneListControllerTest.java:249-277 | An exported entry keeps every field except comments, and drops comments exactly when genes_comments is not selected |
| GeneListControllers.GenesArray | components/patient-data/impl/src/test/java/org/phenotips/data/internal/controller/GeneListControllerTest.java:165-277 | Something is exported exactly when genes is selected and the data is non-null and non-empty. The export has one filtered entry per data entry, in order |
| GeneListControllers.WriteJSON | components/patient-data/impl/src/test/java/org/phenotips/data/internal/controller/GeneListControllerTest.java:165-277 | The JSON object is unchanged when nothing is exported. Otherwise only its "genes" member is set, to the export |
| GeneListControllers.NothingWritten | components/patient-data/impl/src/test/java/org/phenotips/data/internal/controller/GeneListControllerTest.java:165-215 | Null data, empty data and a selection without genes all export nothing |
| GeneListControllers.AllValuesWritten | components/patient-data/impl/src/test/java/org/phenotips/data/internal/controller/GeneListControllerTest.java:218-247 | With genes and genes_comments selected, the export is the data unchanged |
| GeneListControllers.CommentsRemoved | components/patient-data/impl/src/test/java/org/phenotips/data/internal/controller/GeneListControllerTest.java:249-277 | Without genes_comments, every exported entry keeps its gene and has no comments |
| GeneListControllers.LoadThenWrite | components/patient-data/impl/src/test/java/org/phenotips/data/internal/controller/GeneListControllerTest.java:148-247 | Loading then exporting with both fields selected carries every gene object's gene and comments values to the same position of the export |

## Left out

- HgncQuery.Escape: the reserved set is the test's characters plus the space. SolrJ's full list also escapes `;`, `/` and other whitespace, and the model does not.
- HgncVocabulary.GeneNomenclature.Reindex: fetching and parsing the HGNC data file are not modelled. The source is the already-parsed document list, and None stands for an unreadable source.
- HgncVocabulary.GeneNomenclature.Reindex: the failure statuses 1 (a backend write failed) and 2 (source unreadable) are this model's choice. The tests only fix 0 for success.
- HgncVocabulary.GeneNomenclature.Reindex: the result is 0 on success, not a count of indexed terms.
- HgncVocabulary.GeneNomenclature.GetTerm: the term cache is only cleared. Read-through and negative caching of lookups are not modelled, because no test asserts them.
- HgncVocabulary.GeneNomenclature.GetTerm: a null symbol is not modelled, because the tests never pass one.
- HgncVocabulary.GeneNomenclature.GetTerm: whether the index query fails is a parameter. Its causes and the failure's detail are not modelled.
- HgncVocabulary.GeneNomenclature.Search: relevance ranking, tokenisation and case handling of the real search engine are not modelled. Documents match by exact field value and rank in insertion order.
- Commit visibility is not modelled: added documents are searchable at once.
- Concurrency between reindexing and lookups is not modelled.
- SuggestedPhenotypes.CompareTo: scores are exact reals. Floating-point rounding, NaN and -0.0 are not modelled.
- SuggestedPhenotypes.Equals: `hashCode` is not modelled, because no test covers it.
- GeneListControllers.Load: document access, the XWiki object model and field types are not modelled. A gene object is the map of its string fields.
- GeneListControllers.WriteJSON: JSON serialisation is not modelled. The JSON object is the map of its members, and an existing "genes" member is overwritten.
- The wiring of components, mocks and reflection in the tests is not modelled.

## Findings

| source | as written | input that shows it | evidently intended | confidence | as-written member | corrected member |
|---|---|---|---|---|---|---|
| components/vocabularies/hgnc/api/src/test/java/org/phenotips/vocabulary/internal/GeneHGNCNomenclatureTest.java:219-232 | The lookup test's index stand-in accepts a document when its symbol, previous symbol or alias occurs anywhere in the query text, and it returns the first such document | Index T (HGNC:11515) before TAAR1 (HGNC:17734), then look up "TAAR1": "T" occurs in "symbol:TAAR1 OR ...", so the stand-in answers with T | A document is accepted only when one of its fields equals the queried symbol, so the TAAR1 lookup returns HGNC:17734 whatever the index order | medium: depends on the order of records in the sample data; not executed | HgncVocabulary.SubstringAnswerMisattributes | HgncVocabulary.GeneNomenclature.Search |
