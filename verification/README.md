# TF-IDF search, modelled in Dafny

A model of the `TFIDFSearch` class of `tfidf_search.py`, a small TF-IDF
search engine over a directory of text files. It covers:

- **Index building.** This is the counting part of `preProcessDocuments` plus `getidf` and `tfidf`.
  - A given corpus of `(file name, term list)` pairs yields a document-frequency table, an IDF table, and one length-normalized TF-IDF vector per document.
- **The three lookups.**
  - `get_weight`: the stored weight of a token in a named document.
  - `get_idf`: the IDF of a token, or the sentinel -1.
  - `get_weight_q`: the sublinear term frequency of a token inside the query.
- **`query`.** The query text is split on whitespace. Every document is scored by the dot product of the normalized query weights with its stored weights. The first document with the highest score is returned.

Modelling choices:

- **External functions are parameters.** The Porter stemmer, `math.log10` and `math.sqrt` are fields of a value `Ext` passed to every operation.
  - `Externals.Valid` is everything assumed of them:
    - `log10(1) = 0`;
    - `log10` is monotone on positive numbers;
    - `sqrt` is non-negative on non-negative numbers;
    - `sqrt(x) = 0` exactly when `x = 0`.
  - Nothing else is assumed, so every property below holds for any functions with those four traits.
  - Numbers are mathematical reals rather than IEEE doubles.
- **Python dicts become sequences or maps.**
  - `document_tf` and `normalized_tfidf` are sequences in insertion order.
  - `term_df` and `idf` are maps. Their iteration order never affects a result.
- **The query's failure is a result value.** When no document's score beats the initial total of -1, Python's `query` reaches `return doc, total` with `doc` never assigned and raises. The model returns `Err(NoDocumentChosen)` instead.

Results established about the source:

- **Unreachable branches.** For an index built from a corpus:
  - the `-1` branch of `getidf` is never taken;
  - the `else 0` branch of the raw weight in `tfidf` is never taken, because `tf >= 1`.
- **When `query` fails.** It fails exactly on an empty corpus. With at least one document every score is at least 0, which beats -1.
- **The divisor floor.** For an empty query the comprehension of tfidf_search.py:94 has no element, so `max(norm, 1)` is never evaluated. For a non-empty query every weight is at least 1 (`ScoringFacts.QueryWeightsAtLeastOne`), so the sum of squares is at least 1, and with an exact square root the norm is already at least 1. The floor therefore changes no result. The model keeps it exactly as written and does not rely on this.
- **Ties.** On ties, `query` keeps the first document in index order because it compares with a strict `>`. A deterministic tie-break by document name would be an alternative, but the code does not do that. The model follows the code.

## Model

| member | source | states |
|---|---|---|
| Vectors.Distinct | tfidf_search.py:57-60 | the keys of `Counter(tokens)`: every token exactly once (membership in both directions) and no repetitions |
| Vectors.Sum | tfidf_search.py:95-96 | definition only (Python's `sum`, also used at line 64); properties in `Vectors.SumNonNegative` and `Vectors.SumZero` |
| Vectors.SumSq | tfidf_search.py:64 | the squared norm is never negative and is zero when every weight is zero |
| Vectors.SumSqZero | tfidf_search.py:64 | the squared norm is zero only when every element is zero, the converse of `Vectors.SumSq`'s zero case |
| Vectors.Products | tfidf_search.py:95 | `zip` pairs the lists up to the shorter length |
| Vectors.DotNonNegative | tfidf_search.py:95-96 | the dot product of two non-negative weight lists is non-negative |
| Vectors.DotWithZeros | tfidf_search.py:95-96 | the dot product with an all-zero weight list is zero |
| Indexing.TermSet | tfidf_search.py:38 | definition only; properties in `Indexing.DocFrequencyCounts` and `Indexing.DocVector` |
| Indexing.DocFrequencyCounts | tfidf_search.py:36-39 | `term_df` holds exactly the observed terms, and each count is the number of documents containing the term; repeats inside one document add nothing |
| Indexing.DocFrequencyBounds | tfidf_search.py:36-39 | every document frequency lies between 1 and the number of documents |
| Indexing.CountOnce | tfidf_search.py:38-39 | definition only; properties in `Indexing.DocFrequencyCounts` |
| Indexing.DocFrequency | tfidf_search.py:36-39 | definition only; properties in `Indexing.DocFrequencyCounts` and `Indexing.DocFrequencyBounds` |
| Indexing.IdfValue | tfidf_search.py:51 | definition only; properties in `IndexFacts.IdfOfCounts` and `IndexFacts.IdfAntitone` |
| Indexing.ComputeIdf | tfidf_search.py:47-53 | the IDF table has exactly the keys of the document-frequency table |
| Indexing.Tf | tfidf_search.py:61 | definition only; properties in `IndexFacts.TfAtLeastOne` |
| Indexing.RawWeight | tfidf_search.py:62 | definition only; properties in `IndexFacts.TfAtLeastOne` and `IndexFacts.DocVectorNonNegative` |
| Indexing.RawWeights | tfidf_search.py:62-64 | definition only; properties in `IndexFacts.ZeroRawWeightsGiveZeroVector` and `IndexFacts.ZeroNormIffZeroRawWeights` |
| Indexing.NormFactor | tfidf_search.py:64 | definition only; properties in `IndexFacts.ZeroRawWeightsGiveZeroVector` and `Indexing.DocVector` |
| Indexing.DocVector | tfidf_search.py:57-66 | a document's normalized vector is keyed by exactly its distinct terms, and is all zero (without dividing) when the norm factor is zero |
| Indexing.ComputeTfidf | tfidf_search.py:55-66 | one vector per document, in document order, under the document's name, keyed by the document's distinct terms |
| Indexing.Build | tfidf_search.py:36-66 | the built index keeps the corpus, keys both tables by the vocabulary, and holds one correctly named and keyed vector per document |
| IndexFacts.BuiltDocumentFrequency | tfidf_search.py:36-39 | in a built index `term_df[t]` counts the documents containing `t` and lies in `1..N` |
| IndexFacts.IdfOfCounts | tfidf_search.py:49-51 | with counts in `1..N` every IDF is `log10(N / df)` and non-negative |
| IndexFacts.BuiltIdf | tfidf_search.py:47-53 | every IDF of a built index is `log10(N / df)` with `df > 0`, and non-negative, so the -1 branch is never taken |
| IndexFacts.IdfAntitone | tfidf_search.py:47-53 | a term found in more documents never has a larger IDF |
| IndexFacts.TfAtLeastOne | tfidf_search.py:60-62 | a term present in the document has `tf >= 1`, so the raw weight's `else 0` branch is dead |
| IndexFacts.RawWeightNonNegative | tfidf_search.py:60-62 | a term of the document whose IDF is non-negative has a non-negative raw weight, since `tf >= 1` |
| IndexFacts.DocVectorNonNegative | tfidf_search.py:60-65 | with non-negative IDFs every normalized weight is non-negative |
| IndexFacts.BuiltWeightsNonNegative | tfidf_search.py:55-66 | every weight stored for every document of a built index is non-negative |
| IndexFacts.ZeroRawWeightsGiveZeroVector | tfidf_search.py:64-65 | when every raw weight is zero the norm factor is zero and every normalized weight is exactly zero |
| IndexFacts.ZeroNormIffZeroRawWeights | tfidf_search.py:62-65 | the norm factor is zero exactly when every raw weight of the document is zero, so the `else 0` of the normalization is taken only for an all-zero document |
| IndexFacts.SingleDocumentIdf | tfidf_search.py:47-53 | with one document every IDF is `log10(1) = 0` |
| IndexFacts.ZeroIdfGivesZeroVector | tfidf_search.py:60-65 | under an all-zero IDF table every normalized weight is zero |
| IndexFacts.SingleDocument | tfidf_search.py:47-66 | with one document every stored weight is exactly zero |
| Lookup.Find | tfidf_search.py:70-71 | the lookup by file name fails exactly when no vector has that name, and otherwise answers with the vector of the first one that does |
| Lookup.FindOwnName | tfidf_search.py:70-71 | with distinct names, a document's own name finds exactly its own vector |
| Lookup.Weight | tfidf_search.py:68-76 | `get_weight` is 0 for a file name the index does not know |
| Lookup.GetIdf | tfidf_search.py:78-81 | definition only; properties in `LookupFacts.BuiltGetIdf` and `Lookup.StemSymmetry` |
| Lookup.StemAll | tfidf_search.py:102 | stemming the query keeps its length |
| Lookup.WeightQ | tfidf_search.py:101-108 | definition only; properties in `Lookup.WeightQCases` and `Lookup.WeightQOwnToken` |
| Lookup.WeightQCases | tfidf_search.py:101-108 | the query weight is 0 exactly when no query token has the term's stem, and at least 1 otherwise |
| Lookup.WeightQOwnToken | tfidf_search.py:89-90 | each query token weighs at least 1 in its own query |
| Lookup.StemSymmetry | tfidf_search.py:69 | tokens with the same stem get the same weight, IDF and query weight |
| LookupFacts.BuiltGetIdf | tfidf_search.py:78-81 | `get_idf` is -1 exactly for a stem outside the vocabulary; otherwise it is `log10(N / df)`, which is non-negative |
| LookupFacts.BuiltWeight | tfidf_search.py:68-76 | `get_weight` on an indexed document reads that document's own vector: the stored weight for a stem it contains, 0 otherwise, never negative |
| Tokens.IsSpace | tfidf_search.py:85 | definition only; properties in `Tokens.Split` and `Tokens.SplitKeepsContent` |
| Tokens.SkipSpaces | tfidf_search.py:85 | what remains after leading whitespace is a suffix that starts with a non-space character |
| Tokens.Word | tfidf_search.py:85 | the first word is the longest whitespace-free prefix |
| Tokens.Split | tfidf_search.py:85 | `str.split()` yields only non-empty, whitespace-free words |
| Tokens.SplitKeepsContent | tfidf_search.py:85 | the words, concatenated, are exactly the non-whitespace characters of the text in order |
| Tokens.SplitJoin | tfidf_search.py:85 | splitting the space-joined words gives back the same words |
| Tokens.SplitBlank | tfidf_search.py:85 | a text of whitespace only splits into no words |
| Scoring.QueryWeights | tfidf_search.py:89-91 | one query weight per query token |
| Scoring.DocWeights | tfidf_search.py:89-93 | one document weight per query token |
| Scoring.Divisor | tfidf_search.py:94 | the query-normalization divisor is at least 1, so never zero |
| Scoring.Normalize | tfidf_search.py:94 | normalization keeps the length and leaves an all-zero query vector all zero |
| Scoring.Score | tfidf_search.py:95-96 | definition only; properties in `ScoringFacts.BuiltScoreNonNegative` and `ScoringFacts.BuiltScoreWithoutSharedStems` |
| Scoring.Scores | tfidf_search.py:86-96 | one score per indexed document, in index order |
| Scoring.PickFirstMax | tfidf_search.py:84-98 | the strict-`>` scan from -1 picks nothing exactly when no score beats -1, and otherwise picks the first position of maximal score, whose score beats -1 |
| Scoring.Query | tfidf_search.py:83-99 | `query` fails exactly when no score beats -1, and otherwise returns the name and score of the first document of maximal score |
| Scoring.FirstMaxUnique | tfidf_search.py:96-98 | the first maximum is unique, so `query`'s answer is determined |
| ScoringFacts.QueryWeightsAtLeastOne | tfidf_search.py:89-91 | every entry of `q_weight` is at least 1 |
| ScoringFacts.NormalizeNonNegative | tfidf_search.py:94 | normalizing non-negative query weights keeps them non-negative |
| ScoringFacts.BuiltScoreNonNegative | tfidf_search.py:86-96 | every document of a built index scores at least 0 for every query |
| ScoringFacts.BuiltScoreWithoutSharedStems | tfidf_search.py:92-96 | a document containing none of the query's stems scores exactly 0 |
| ScoringFacts.BuiltNoChoiceIffEmpty | tfidf_search.py:84-99 | on a built index `query` fails exactly when the corpus is empty |
| ScoringFacts.BlankQueryPicksFirst | tfidf_search.py:85-98 | a blank query scores every document 0, so the first document wins |

## Left out

- Reading the corpus is not modelled: the directory listing, the `.txt` filter, the windows-1252 decoding and the lower-casing of the text (tfidf_search.py:27-31). The corpus is given as a sequence of documents with distinct file names, as one directory listing yields.
- The `OSError` exit and the logged-and-skipped `Exception` path (tfidf_search.py:41-45) are I/O error handling and are not modelled.
- The NLTK tokenizer, the stop-word list and the Porter stemmer (tfidf_search.py:5-8, 13, 24-25, 33-34) are library code.
  - A document's terms are taken as already tokenized, filtered and stemmed.
  - The stemmer is the abstract function `stem`.
- The prints in `get_weight` and `get_idf` (tfidf_search.py:75, 80) are output only.
- The unused `total_terms` (tfidf_search.py:58) has no effect and is not modelled.
- Floating-point rounding is not modelled: `log10` and `sqrt` are abstract real functions.
  - The resulting unit length of each stored vector is not stated, because it depends on `sqrt` being an exact square root.
  - The bound of scores by 1 is not stated, for the same reason.
- Python's mix of the integer `-1` and `0` with floats is modelled with reals throughout; the values compare the same.
- `query` rebuilds the query weights for every document (tfidf_search.py:87-94). The model computes them once per document score, which gives the same values.
- The module-level script that builds a global index and prints sample results (tfidf_search.py:110-144) is glue and output.
