/** What query promises on an index built from a corpus: scores are never
    negative, so query fails exactly on an empty corpus; a document sharing
    no stem with the query scores 0; and a blank query scores every document
    0 and so picks the first one. */
module ScoringFacts {

  import opened Externals
  import opened Arith
  import opened Vectors
  import opened Indexing
  import opened Lookup
  import opened LookupFacts
  import opened Tokens
  import opened Scoring

  /** Every query token weighs at least 1 in its own query. */
  lemma QueryWeightsAtLeastOne(e: Ext, tokens: seq<Term>)
    requires Valid(e)
    ensures forall i :: 0 <= i < |tokens| ==> 1.0 <= QueryWeights(e, tokens)[i]
  {
    forall i | 0 <= i < |tokens|
      ensures 1.0 <= QueryWeights(e, tokens)[i]
    {
      WeightQOwnToken(e, tokens, i);
    }
  }

  /** Dividing by the floored norm keeps non-negative weights non-negative. */
  lemma NormalizeNonNegative(e: Ext, w: seq<real>)
    requires forall i :: 0 <= i < |w| ==> 0.0 <= w[i]
    ensures forall i :: 0 <= i < |w| ==> 0.0 <= Normalize(e, w)[i]
  {
    var d := Divisor(e, w);
    forall i | 0 <= i < |w|
      ensures 0.0 <= Normalize(e, w)[i]
    {
      QuotientNonNegative(w[i], d);
    }
  }

  /** Every indexed document scores at least 0 for every query. */
  lemma BuiltScoreNonNegative(e: Ext, corpus: seq<Doc>, i: int, tokens: seq<Term>)
    requires Valid(e)
    requires DistinctNames(corpus)
    requires 0 <= i < |corpus|
    ensures 0.0 <= Score(e, Build(e, corpus), corpus[i].name, tokens)
  {
    var ix := Build(e, corpus);
    var q := QueryWeights(e, tokens);
    var d := DocWeights(e, ix, corpus[i].name, tokens);
    QueryWeightsAtLeastOne(e, tokens);
    NormalizeNonNegative(e, q);
    forall k | 0 <= k < |tokens|
      ensures 0.0 <= d[k]
    {
      BuiltWeight(e, corpus, i, tokens[k]);
    }
    DotNonNegative(Normalize(e, q), d);
  }

  /** A document containing none of the query's stems scores exactly 0. */
  lemma BuiltScoreWithoutSharedStems(e: Ext, corpus: seq<Doc>, i: int, tokens: seq<Term>)
    requires Valid(e)
    requires DistinctNames(corpus)
    requires 0 <= i < |corpus|
    requires forall k :: 0 <= k < |tokens| ==> e.stem(tokens[k]) !in corpus[i].terms
    ensures Score(e, Build(e, corpus), corpus[i].name, tokens) == 0.0
  {
    var ix := Build(e, corpus);
    var q := Normalize(e, QueryWeights(e, tokens));
    var d := DocWeights(e, ix, corpus[i].name, tokens);
    forall k | 0 <= k < |d|
      ensures d[k] == 0.0
    {
      BuiltWeight(e, corpus, i, tokens[k]);
    }
    DotWithZeros(q, d);
  }

  /** query raises instead of answering exactly when the corpus is empty:
      with at least one document some score is at least 0 > -1. */
  lemma BuiltNoChoiceIffEmpty(e: Ext, corpus: seq<Doc>, text: string)
    requires Valid(e)
    requires DistinctNames(corpus)
    ensures NoneAboveStart(Scores(e, Build(e, corpus), Split(text))) <==> |corpus| == 0
  {
    if |corpus| > 0 {
      BuiltScoreNonNegative(e, corpus, 0, Split(text));
      assert Scores(e, Build(e, corpus), Split(text))[0] == Score(e, Build(e, corpus), corpus[0].name, Split(text));
    }
  }

  /** A blank query scores every document 0, so query answers with the
      first document of the index and the score 0. */
  lemma BlankQueryPicksFirst(e: Ext, ix: Index, text: string)
    requires forall i :: 0 <= i < |text| ==> IsSpace(text[i])
    ensures forall i :: 0 <= i < |ix.vectors| ==> Scores(e, ix, Split(text))[i] == 0.0
    ensures |ix.vectors| > 0 ==> IsFirstMax(Scores(e, ix, Split(text)), 0)
  {
    SplitBlank(text);
    var s := Scores(e, ix, []);
    forall i | 0 <= i < |ix.vectors|
      ensures s[i] == 0.0
    {
      var q := Normalize(e, QueryWeights(e, []));
      var d := DocWeights(e, ix, ix.vectors[i].name, []);
      assert Products(q, d) == [];
    }
  }
}
