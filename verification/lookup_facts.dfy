/** What the lookups return on an index built from a corpus: get_idf's -1
    is exactly the answer for an unseen stem, and get_weight reads the
    document's own vector, 0 for a stem the document lacks. */
module LookupFacts {

  import opened Externals
  import opened Indexing
  import opened IndexFacts
  import opened Lookup

  /** get_idf answers -1 exactly for a stem no document contains; for
      every other stem it answers `log10(N / df)`, which is never negative. */
  lemma BuiltGetIdf(e: Ext, corpus: seq<Doc>, token: Term)
    requires Valid(e)
    requires DistinctNames(corpus)
    ensures var ix := Build(e, corpus); var t := e.stem(token); var r := GetIdf(e, ix, token);
      && (r == -1.0 <==> t !in Vocabulary(corpus))
      && (t in Vocabulary(corpus) ==>
            && 0.0 <= r
            && ix.df[t] > 0
            && r == IdfValue(e, |corpus|, ix.df[t]))
  {
    BuiltIdf(e, corpus);
  }

  /** get_weight on an indexed document reads that document's own vector:
      the stored weight of a stem the document contains, 0 for any other,
      and never a negative number. */
  lemma BuiltWeight(e: Ext, corpus: seq<Doc>, i: int, token: Term)
    requires Valid(e)
    requires DistinctNames(corpus)
    requires 0 <= i < |corpus|
    ensures var ix := Build(e, corpus); var t := e.stem(token); var w := Weight(e, ix, corpus[i].name, token);
      && 0.0 <= w
      && (t in corpus[i].terms ==> t in ix.vectors[i].weights && w == ix.vectors[i].weights[t])
      && (t !in corpus[i].terms ==> w == 0.0)
  {
    var ix := Build(e, corpus);
    FindOwnName(ix.vectors, i);
    BuiltWeightsNonNegative(e, corpus);
  }
}
