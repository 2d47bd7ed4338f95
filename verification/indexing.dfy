/** The index builder of TFIDFSearch: the document table, the document
    frequencies, the IDF table and one normalized TF-IDF vector per document,
    derived in the program's three stages (preprocess, IDF, TF-IDF). */
module Indexing {

  import opened Externals
  import opened Vectors

  /** One entry of `document_tf`: a file name and its normalized term list
      (tokenized, stop words removed, stemmed), duplicates kept. */
  datatype Doc = Doc(name: Name, terms: seq<Term>)

  /** One entry of `normalized_tfidf`: a file name and its sparse vector. */
  datatype Vector = Vector(name: Name, weights: map<Term, real>)

  /** The state of a TFIDFSearch object once all three stages have run.
      `docs` and `vectors` keep the insertion order of the Python dicts. */
  datatype Index = Index(
    docs: seq<Doc>,
    df: map<Term, nat>,
    idf: map<Term, real>,
    vectors: seq<Vector>)

  /** File names come from one directory listing, so they are distinct. */
  predicate DistinctNames(docs: seq<Doc>) {
    forall i, j :: 0 <= i < j < |docs| ==> docs[i].name != docs[j].name
  }

  /** `set(terms)`. */
  function TermSet(terms: seq<Term>): set<Term> {
    set t | t in terms
  }

  /** The positions of the documents whose term list contains `t`. */
  ghost function Containing(docs: seq<Doc>, t: Term): set<int> {
    set i | 0 <= i < |docs| && t in docs[i].terms
  }

  /** Every term that occurs in at least one document. */
  ghost function Vocabulary(docs: seq<Doc>): set<Term> {
    set i, t | 0 <= i < |docs| && t in docs[i].terms :: t
  }

  // ---------------------------------------------------------------------
  // Stage 1: document frequencies (preProcessDocuments, counting part)
  // ---------------------------------------------------------------------

  /** `term_df.update(unique_terms)`: each term of the set gains exactly one. */
  function CountOnce(df: map<Term, nat>, terms: set<Term>): map<Term, nat> {
    map t | t in df.Keys + terms :: (if t in df then df[t] else 0) + (if t in terms then 1 else 0)
  }

  /** `term_df` after the documents have been processed in order. */
  function DocFrequency(docs: seq<Doc>): map<Term, nat> {
    if |docs| == 0 then map[]
    else CountOnce(DocFrequency(docs[..|docs| - 1]), TermSet(docs[|docs| - 1].terms))
  }

  /** Adding a document adds its terms to the vocabulary. */
  lemma VocabularySnoc(docs: seq<Doc>)
    requires |docs| > 0
    ensures Vocabulary(docs) == Vocabulary(docs[..|docs| - 1]) + TermSet(docs[|docs| - 1].terms)
  {
    var n := |docs| - 1;
    var prefix := docs[..n];
    forall t | t in Vocabulary(docs)
      ensures t in Vocabulary(prefix) || t in docs[n].terms
    {
      var i :| 0 <= i < |docs| && t in docs[i].terms;
      if i < n {
        assert prefix[i] == docs[i];
      }
    }
    forall t | t in Vocabulary(prefix)
      ensures t in Vocabulary(docs)
    {
      var i :| 0 <= i < |prefix| && t in prefix[i].terms;
      assert docs[i] == prefix[i];
    }
  }

  /** Adding a document adds its position to the documents containing each
      of its terms, and only to those. */
  lemma ContainingSnoc(docs: seq<Doc>, t: Term)
    requires |docs| > 0
    ensures var n := |docs| - 1;
      && n !in Containing(docs[..n], t)
      && Containing(docs, t) == Containing(docs[..n], t) + (if t in docs[n].terms then {n} else {})
  {
  }

  /** A term outside the vocabulary is contained in no document. */
  lemma ContainingUnseen(docs: seq<Doc>, t: Term)
    ensures t !in Vocabulary(docs) ==> Containing(docs, t) == {}
  {
    forall i | i in Containing(docs, t)
      ensures t in Vocabulary(docs)
    {
      assert t in docs[i].terms;
    }
  }

  /** The document frequency of a term is the number of documents that
      contain it, however often each one repeats it, and the table holds
      exactly the observed terms. */
  lemma {:induction false} DocFrequencyCounts(docs: seq<Doc>)
    ensures DocFrequency(docs).Keys == Vocabulary(docs)
    ensures forall t :: t in DocFrequency(docs) ==> DocFrequency(docs)[t] == |Containing(docs, t)|
  {
    if |docs| == 0 {
      assert Vocabulary(docs) == {};
    } else {
      var n := |docs| - 1;
      var prefix := docs[..n];
      DocFrequencyCounts(prefix);
      VocabularySnoc(docs);
      forall t | t in DocFrequency(docs)
        ensures DocFrequency(docs)[t] == |Containing(docs, t)|
      {
        ContainingSnoc(docs, t);
        ContainingUnseen(prefix, t);
      }
    }
  }

  /** Every document frequency lies between 1 and the number of documents. */
  lemma {:induction false} DocFrequencyBounds(docs: seq<Doc>)
    ensures forall t :: t in DocFrequency(docs) ==> 1 <= DocFrequency(docs)[t] <= |docs|
  {
    if |docs| > 0 {
      DocFrequencyBounds(docs[..|docs| - 1]);
    }
  }

  // ---------------------------------------------------------------------
  // Stage 2: the IDF table (getidf)
  // ---------------------------------------------------------------------

  /** `log10(total_documents / df)`, with Python's true division. */
  function IdfValue(e: Ext, n: nat, df: nat): real
    requires df > 0
  {
    e.log10(n as real / df as real)
  }

  /** `idf[t] = log10(n / df[t])`, or -1 for a zero count. */
  function ComputeIdf(e: Ext, n: nat, df: map<Term, nat>): (idf: map<Term, real>)
    ensures idf.Keys == df.Keys
  {
    map t | t in df :: if df[t] > 0 then IdfValue(e, n, df[t]) else -1.0
  }

  // ---------------------------------------------------------------------
  // Stage 3: per-document normalized TF-IDF vectors (tfidf)
  // ---------------------------------------------------------------------

  /** `1 + log10(freq)`, with `freq` the number of occurrences of `t`. */
  function Tf(e: Ext, tokens: seq<Term>, t: Term): real {
    1.0 + e.log10(multiset(tokens)[t] as real)
  }

  /** The weight of `t` in one document before normalization. */
  function RawWeight(e: Ext, idf: map<Term, real>, tokens: seq<Term>, t: Term): real
    requires t in idf
  {
    var tf := Tf(e, tokens, t);
    if tf > 0.0 then tf * idf[t] else 0.0
  }

  /** The raw weights of `terms`, in order. */
  function RawWeights(e: Ext, idf: map<Term, real>, tokens: seq<Term>, terms: seq<Term>): seq<real>
    requires forall t :: t in terms ==> t in idf
  {
    seq(|terms|, i requires 0 <= i < |terms| => RawWeight(e, idf, tokens, terms[i]))
  }

  /** The Euclidean norm of the raw weights, over the distinct terms in
      Counter order. */
  function NormFactor(e: Ext, idf: map<Term, real>, tokens: seq<Term>): real
    requires forall t :: t in tokens ==> t in idf
  {
    e.sqrt(SumSq(RawWeights(e, idf, tokens, Distinct(tokens))))
  }

  /** The normalized TF-IDF vector of one document: keyed by exactly its
      distinct terms, and all zero (no division) when the norm is zero. */
  function DocVector(e: Ext, idf: map<Term, real>, tokens: seq<Term>): (v: map<Term, real>)
    requires forall t :: t in tokens ==> t in idf
    ensures v.Keys == TermSet(tokens)
    ensures NormFactor(e, idf, tokens) == 0.0 ==> forall t :: t in v ==> v[t] == 0.0
  {
    var nf := NormFactor(e, idf, tokens);
    map t | t in Distinct(tokens) :: if nf != 0.0 then RawWeight(e, idf, tokens, t) / nf else 0.0
  }

  /** One vector per document, in document order, under the same name. */
  function ComputeTfidf(e: Ext, idf: map<Term, real>, docs: seq<Doc>): (vs: seq<Vector>)
    requires forall i, t :: 0 <= i < |docs| && t in docs[i].terms ==> t in idf
    ensures |vs| == |docs|
    ensures forall i :: 0 <= i < |docs| ==>
      vs[i].name == docs[i].name && vs[i].weights.Keys == TermSet(docs[i].terms)
  {
    seq(|docs|, i requires 0 <= i < |docs| => Vector(docs[i].name, DocVector(e, idf, docs[i].terms)))
  }

  // ---------------------------------------------------------------------
  // The whole pipeline
  // ---------------------------------------------------------------------

  /** preProcessDocuments, then getidf, then tfidf, over a given corpus. */
  function Build(e: Ext, corpus: seq<Doc>): (ix: Index)
    requires DistinctNames(corpus)
    ensures ix.docs == corpus
    ensures ix.df.Keys == Vocabulary(corpus)
    ensures ix.idf.Keys == Vocabulary(corpus)
    ensures |ix.vectors| == |corpus|
    ensures forall i :: 0 <= i < |corpus| ==>
      ix.vectors[i].name == corpus[i].name && ix.vectors[i].weights.Keys == TermSet(corpus[i].terms)
  {
    var df := DocFrequency(corpus);
    DocFrequencyCounts(corpus);
    var idf := ComputeIdf(e, |corpus|, df);
    assert forall i, t :: 0 <= i < |corpus| && t in corpus[i].terms ==> t in idf by {
      forall i, t | 0 <= i < |corpus| && t in corpus[i].terms
        ensures t in Vocabulary(corpus)
      {
      }
    }
    Index(corpus, df, idf, ComputeTfidf(e, idf, corpus))
  }
}
