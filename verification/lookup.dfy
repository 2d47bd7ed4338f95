/** The three lookups a query is built from: the stored weight of a token
    in a named document (get_weight), the IDF of a token (get_idf) and the
    sublinear term frequency of a token in the query itself (get_weight_q).
    Each stems its token before looking it up. */
module Lookup {

  import opened Wrappers
  import opened Externals
  import opened Indexing

  /** `i` is the first position holding a vector called `name`. */
  predicate FirstNamed(vs: seq<Vector>, name: Name, i: int) {
    && 0 <= i < |vs|
    && vs[i].name == name
    && forall j :: 0 <= j < i ==> vs[j].name != name
  }

  /** `normalized_tfidf.get(name)`: the vector stored under `name`. The
      first entry with that name answers, as a dictionary key would. */
  function Find(vs: seq<Vector>, name: Name): (r: Option<map<Term, real>>)
    ensures r.None? <==> forall i :: 0 <= i < |vs| ==> vs[i].name != name
    ensures r.Some? ==> exists i :: FirstNamed(vs, name, i) && vs[i].weights == r.value
  {
    if |vs| == 0 then None
    else if vs[0].name == name then Some(vs[0].weights)
    else
      var r := Find(vs[1..], name);
      assert forall i :: 1 <= i < |vs| ==> vs[i] == vs[1..][i - 1];
      r
  }

  /** get_weight: the normalized weight of the stemmed token in the named
      document, 0 when the document has no such term, and 0 for a file name
      the index does not know. */
  function Weight(e: Ext, ix: Index, filename: Name, token: Term): (w: real)
    ensures (forall i :: 0 <= i < |ix.vectors| ==> ix.vectors[i].name != filename) ==> w == 0.0
  {
    match Find(ix.vectors, filename)
    case None => 0.0
    case Some(v) => var t := e.stem(token); if t in v then v[t] else 0.0
  }

  /** get_idf: the IDF of the stemmed token, or the sentinel -1 when it was
      never seen. */
  function GetIdf(e: Ext, ix: Index, token: Term): real {
    var t := e.stem(token);
    if t in ix.idf then ix.idf[t] else -1.0
  }

  /** `[porter.stem(token) for token in query]`. */
  function StemAll(e: Ext, query: seq<Term>): (r: seq<Term>)
    ensures |r| == |query|
  {
    seq(|query|, i requires 0 <= i < |query| => e.stem(query[i]))
  }

  /** get_weight_q: `1 + log10(count)` where `count` is the number of query
      tokens with the same stem as `term`, and 0 when there are none. */
  function WeightQ(e: Ext, query: seq<Term>, term: Term): real {
    var count := multiset(StemAll(e, query))[e.stem(term)];
    if count > 0 then 1.0 + e.log10(count as real) else 0.0
  }

  /** With distinct names, looking a document's own name up finds exactly
      that document's vector. */
  lemma FindOwnName(vs: seq<Vector>, i: int)
    requires 0 <= i < |vs|
    requires forall j, k :: 0 <= j < k < |vs| ==> vs[j].name != vs[k].name
    ensures Find(vs, vs[i].name) == Some(vs[i].weights)
  {
  }

  /** The query weight is 0 exactly when no query token shares the term's
      stem, and at least 1 otherwise. */
  lemma WeightQCases(e: Ext, query: seq<Term>, term: Term)
    requires Valid(e)
    ensures WeightQ(e, query, term) == 0.0 <==> forall i :: 0 <= i < |query| ==> e.stem(query[i]) != e.stem(term)
    ensures WeightQ(e, query, term) != 0.0 ==> 1.0 <= WeightQ(e, query, term)
  {
    var stems := StemAll(e, query);
    var count := multiset(stems)[e.stem(term)];
    if count > 0 {
      LogNonNegative(e, count as real);
      assert e.stem(term) in stems;
      var i :| 0 <= i < |stems| && stems[i] == e.stem(term);
      assert e.stem(query[i]) == e.stem(term);
    } else {
      forall i | 0 <= i < |query|
        ensures e.stem(query[i]) != e.stem(term)
      {
        assert stems[i] in multiset(stems);
      }
    }
  }

  /** Every token of the query weighs at least 1 in it. */
  lemma WeightQOwnToken(e: Ext, query: seq<Term>, i: int)
    requires Valid(e)
    requires 0 <= i < |query|
    ensures 1.0 <= WeightQ(e, query, query[i])
  {
    WeightQCases(e, query, query[i]);
  }

  /** Tokens that stem alike are indistinguishable to every lookup. */
  lemma StemSymmetry(e: Ext, ix: Index, filename: Name, query: seq<Term>, a: Term, b: Term)
    requires e.stem(a) == e.stem(b)
    ensures Weight(e, ix, filename, a) == Weight(e, ix, filename, b)
    ensures GetIdf(e, ix, a) == GetIdf(e, ix, b)
    ensures WeightQ(e, query, a) == WeightQ(e, query, b)
  {
  }
}
