/** What the three indexing stages promise about an index built from a
    corpus: document frequencies count documents, the IDF table is keyed by
    the observed terms and never takes its -1 branch, and the stored vectors
    are keyed by each document's distinct terms with non-negative weights. */
module IndexFacts {

  import opened Externals
  import opened Vectors
  import opened Arith
  import opened Indexing

  /** `term_df[t]` is the number of documents containing `t` (repeats inside
      one document add nothing), and lies between 1 and N. */
  lemma BuiltDocumentFrequency(e: Ext, corpus: seq<Doc>)
    requires DistinctNames(corpus)
    ensures var ix := Build(e, corpus);
      forall t :: t in ix.df ==>
        && ix.df[t] == |Containing(corpus, t)|
        && 1 <= ix.df[t] <= |corpus|
  {
    DocFrequencyCounts(corpus);
    DocFrequencyBounds(corpus);
  }

  /** With counts between 1 and n, every IDF entry is `log10(n / df)` and
      non-negative. */
  lemma IdfOfCounts(e: Ext, n: nat, df: map<Term, nat>)
    requires Valid(e)
    requires forall t :: t in df ==> 1 <= df[t] <= n
    ensures forall t :: t in ComputeIdf(e, n, df) ==>
      && ComputeIdf(e, n, df)[t] == IdfValue(e, n, df[t])
      && 0.0 <= ComputeIdf(e, n, df)[t]
  {
    forall t | t in df
      ensures 0.0 <= IdfValue(e, n, df[t])
    {
      QuotientAtLeastOne(n as real, df[t] as real);
      LogNonNegative(e, n as real / df[t] as real);
    }
  }

  /** Every IDF entry of a built index is `log10(N / df)` and non-negative:
      the -1 branch of the IDF stage is never taken. */
  lemma BuiltIdf(e: Ext, corpus: seq<Doc>)
    requires Valid(e)
    requires DistinctNames(corpus)
    ensures var ix := Build(e, corpus);
      forall t :: t in ix.idf ==>
        && t in ix.df
        && ix.df[t] > 0
        && ix.idf[t] == IdfValue(e, |corpus|, ix.df[t])
        && 0.0 <= ix.idf[t]
  {
    var ix := Build(e, corpus);
    assert ix.df == DocFrequency(corpus);
    assert ix.idf == ComputeIdf(e, |corpus|, ix.df);
    DocFrequencyBounds(corpus);
    IdfOfCounts(e, |corpus|, ix.df);
  }

  /** A term found in more documents never has a larger IDF. */
  lemma IdfAntitone(e: Ext, corpus: seq<Doc>, t1: Term, t2: Term)
    requires Valid(e)
    requires DistinctNames(corpus)
    requires t1 in Build(e, corpus).df && t2 in Build(e, corpus).df
    requires Build(e, corpus).df[t1] <= Build(e, corpus).df[t2]
    ensures Build(e, corpus).idf[t2] <= Build(e, corpus).idf[t1]
  {
    var ix := Build(e, corpus);
    var n := |corpus| as real;
    DocFrequencyBounds(corpus);
    QuotientAntitone(n, ix.df[t1] as real, ix.df[t2] as real);
    QuotientAtLeastOne(n, ix.df[t2] as real);
  }

  /** A term of the document has term frequency at least 1, so the
      `else 0` branch of the raw weight is never taken for it. */
  lemma TfAtLeastOne(e: Ext, tokens: seq<Term>, t: Term)
    requires Valid(e)
    requires t in tokens
    ensures 1.0 <= Tf(e, tokens, t)
  {
    assert multiset(tokens)[t] >= 1;
    LogNonNegative(e, multiset(tokens)[t] as real);
  }

  /** With non-negative IDF entries, every stored weight is non-negative. */
  lemma DocVectorNonNegative(e: Ext, idf: map<Term, real>, tokens: seq<Term>)
    requires Valid(e)
    requires forall t :: t in tokens ==> t in idf && 0.0 <= idf[t]
    ensures forall t :: t in DocVector(e, idf, tokens) ==> 0.0 <= DocVector(e, idf, tokens)[t]
  {
    var v := DocVector(e, idf, tokens);
    var nf := NormFactor(e, idf, tokens);
    assert 0.0 <= nf;
    forall t | t in v
      ensures 0.0 <= v[t]
    {
      assert t in tokens;
      RawWeightNonNegative(e, idf, tokens, t);
      if nf != 0.0 {
        QuotientNonNegative(RawWeight(e, idf, tokens, t), nf);
      }
    }
  }

  /** A term of the document with a non-negative IDF has a non-negative raw
      weight. */
  lemma RawWeightNonNegative(e: Ext, idf: map<Term, real>, tokens: seq<Term>, t: Term)
    requires Valid(e)
    requires t in tokens && t in idf && 0.0 <= idf[t]
    ensures 0.0 <= RawWeight(e, idf, tokens, t)
  {
    TfAtLeastOne(e, tokens, t);
    ProductNonNegative(Tf(e, tokens, t), idf[t]);
  }

  /** Every weight stored for every document is non-negative. */
  lemma BuiltWeightsNonNegative(e: Ext, corpus: seq<Doc>)
    requires Valid(e)
    requires DistinctNames(corpus)
    ensures var ix := Build(e, corpus);
      forall i, t :: 0 <= i < |ix.vectors| && t in ix.vectors[i].weights ==>
        0.0 <= ix.vectors[i].weights[t]
  {
    var ix := Build(e, corpus);
    BuiltIdf(e, corpus);
    forall i | 0 <= i < |ix.vectors|
      ensures forall t :: t in ix.vectors[i].weights ==> 0.0 <= ix.vectors[i].weights[t]
    {
      assert forall t :: t in corpus[i].terms ==> t in Vocabulary(corpus);
      DocVectorNonNegative(e, ix.idf, corpus[i].terms);
    }
  }

  /** When every raw weight is zero the norm is zero and so is every
      normalized weight. */
  lemma ZeroRawWeightsGiveZeroVector(e: Ext, idf: map<Term, real>, tokens: seq<Term>)
    requires Valid(e)
    requires forall t :: t in tokens ==> t in idf
    requires forall t :: t in tokens ==> RawWeight(e, idf, tokens, t) == 0.0
    ensures NormFactor(e, idf, tokens) == 0.0
    ensures forall t :: t in DocVector(e, idf, tokens) ==> DocVector(e, idf, tokens)[t] == 0.0
  {
    var raw := RawWeights(e, idf, tokens, Distinct(tokens));
    assert forall i :: 0 <= i < |raw| ==> raw[i] == 0.0;
    assert SumSq(raw) == 0.0;
  }

  /** The norm factor is zero exactly when every raw weight of the document
      is zero; only then does `tfidf` skip the division. */
  lemma ZeroNormIffZeroRawWeights(e: Ext, idf: map<Term, real>, tokens: seq<Term>)
    requires Valid(e)
    requires forall t :: t in tokens ==> t in idf
    ensures NormFactor(e, idf, tokens) == 0.0 <==> forall t :: t in tokens ==> RawWeight(e, idf, tokens, t) == 0.0
  {
    var terms := Distinct(tokens);
    var raw := RawWeights(e, idf, tokens, terms);
    if NormFactor(e, idf, tokens) == 0.0 {
      assert SumSq(raw) == 0.0;
      SumSqZero(raw);
      forall t | t in tokens
        ensures RawWeight(e, idf, tokens, t) == 0.0
      {
        var i :| 0 <= i < |terms| && terms[i] == t;
        assert raw[i] == RawWeight(e, idf, tokens, t);
      }
    } else if forall t :: t in tokens ==> RawWeight(e, idf, tokens, t) == 0.0 {
      ZeroRawWeightsGiveZeroVector(e, idf, tokens);
    }
  }

  /** With a single document every IDF is log10(1 / 1) = 0. */
  lemma SingleDocumentIdf(e: Ext, corpus: seq<Doc>)
    requires Valid(e)
    requires |corpus| == 1
    ensures DistinctNames(corpus)
    ensures forall t :: t in Build(e, corpus).idf ==> Build(e, corpus).idf[t] == 0.0
  {
    var ix := Build(e, corpus);
    BuiltIdf(e, corpus);
    BuiltDocumentFrequency(e, corpus);
    QuotientSelf(1.0);
    assert IdfValue(e, 1, 1) == 0.0;
    forall t | t in ix.idf
      ensures ix.idf[t] == 0.0
    {
      assert ix.df[t] == 1;
    }
  }

  /** Under an all-zero IDF table every term of the document has raw
      weight zero, and so does every normalized weight. */
  lemma ZeroIdfGivesZeroVector(e: Ext, idf: map<Term, real>, tokens: seq<Term>)
    requires Valid(e)
    requires forall t :: t in tokens ==> t in idf && idf[t] == 0.0
    ensures forall t :: t in DocVector(e, idf, tokens) ==> DocVector(e, idf, tokens)[t] == 0.0
  {
    forall t | t in tokens
      ensures RawWeight(e, idf, tokens, t) == 0.0
    {
      ProductWithZero(Tf(e, tokens, t), idf[t]);
    }
    ZeroRawWeightsGiveZeroVector(e, idf, tokens);
  }

  /** With a single document every stored weight is exactly 0: the only
      document matches no query better than any other. */
  lemma SingleDocument(e: Ext, corpus: seq<Doc>)
    requires Valid(e)
    requires |corpus| == 1
    ensures DistinctNames(corpus)
    ensures var ix := Build(e, corpus);
      forall t :: t in ix.vectors[0].weights ==> ix.vectors[0].weights[t] == 0.0
  {
    var ix := Build(e, corpus);
    SingleDocumentIdf(e, corpus);
    assert forall t :: t in corpus[0].terms ==> t in Vocabulary(corpus);
    ZeroIdfGivesZeroVector(e, ix.idf, corpus[0].terms);
  }
}
