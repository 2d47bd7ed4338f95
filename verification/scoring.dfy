/** The query: the text is split on whitespace, every document is scored by
    the dot product of the normalized query weights with the document's
    stored weights, and the first document with the highest score above -1
    is returned with its score. */
module Scoring {

  import opened Wrappers
  import opened Externals
  import opened Vectors
  import opened Indexing
  import opened Lookup
  import opened Tokens

  /** `q_weight`: the query weight of every query token, in query order. */
  function QueryWeights(e: Ext, tokens: seq<Term>): (w: seq<real>)
    ensures |w| == |tokens|
  {
    seq(|tokens|, i requires 0 <= i < |tokens| => WeightQ(e, tokens, tokens[i]))
  }

  /** `d_weight`: the stored weight of every query token in one document. */
  function DocWeights(e: Ext, ix: Index, name: Name, tokens: seq<Term>): (w: seq<real>)
    ensures |w| == |tokens|
  {
    seq(|tokens|, i requires 0 <= i < |tokens| => Weight(e, ix, name, tokens[i]))
  }

  /** `max(sqrt(sum(x**2 for x in w)), 1)`: the query norm, floored at 1 so
      that the division below never divides by zero. */
  function Divisor(e: Ext, w: seq<real>): (d: real)
    ensures 1.0 <= d
  {
    var n := e.sqrt(SumSq(w));
    if 1.0 > n then 1.0 else n
  }

  /** `q_norm`: the query weights divided by the floored norm; an all-zero
      list stays all-zero. */
  function Normalize(e: Ext, w: seq<real>): (r: seq<real>)
    ensures |r| == |w|
    ensures (forall i :: 0 <= i < |w| ==> w[i] == 0.0) ==> forall i :: 0 <= i < |r| ==> r[i] == 0.0
  {
    var d := Divisor(e, w);
    seq(|w|, i requires 0 <= i < |w| => w[i] / d)
  }

  /** `sum(value)`: the score of the named document for the query tokens. */
  function Score(e: Ext, ix: Index, name: Name, tokens: seq<Term>): real {
    Sum(Products(Normalize(e, QueryWeights(e, tokens)), DocWeights(e, ix, name, tokens)))
  }

  /** The score of every indexed document, in index order. */
  function Scores(e: Ext, ix: Index, tokens: seq<Term>): (s: seq<real>)
    ensures |s| == |ix.vectors|
  {
    seq(|ix.vectors|, i requires 0 <= i < |ix.vectors| => Score(e, ix, ix.vectors[i].name, tokens))
  }

  /** Position `k` holds the largest score, and no earlier position ties
      with it: the winner of a scan that only replaces on a strict `>`. */
  predicate IsFirstMax(s: seq<real>, k: int) {
    && 0 <= k < |s|
    && (forall j :: 0 <= j < |s| ==> s[j] <= s[k])
    && (forall j :: 0 <= j < k ==> s[j] < s[k])
  }

  /** No score beats query's starting total of -1. */
  predicate NoneAboveStart(s: seq<real>) {
    forall i :: 0 <= i < |s| ==> s[i] <= -1.0
  }

  /** The `(doc, total)` pair query returns. */
  datatype Match = Match(name: Name, score: real)

  /** No score exceeded the initial total of -1, so `doc` was never bound
      and query raises instead of returning. */
  datatype QueryError = NoDocumentChosen

  /** The scan of query's loop over the scores, in index order: `total`
      starts at -1 and a position replaces the current choice only when its
      score is strictly greater. */
  method PickFirstMax(s: seq<real>) returns (k: Option<nat>)
    ensures k.None? <==> NoneAboveStart(s)
    ensures k.Some? ==> IsFirstMax(s, k.value) && -1.0 < s[k.value]
  {
    var total := -1.0;
    k := None;
    for i := 0 to |s|
      invariant k.None? <==> forall j :: 0 <= j < i ==> s[j] <= -1.0
      invariant k.None? ==> total == -1.0
      invariant k.Some? ==>
        && k.value < i
        && total == s[k.value]
        && -1.0 < total
        && (forall j :: 0 <= j < i ==> s[j] <= total)
        && (forall j :: 0 <= j < k.value ==> s[j] < total)
    {
      if s[i] > total {
        total := s[i];
        k := Some(i);
      }
    }
  }

  /** query: the first document of highest score, with that score; an
      error exactly when no score exceeds -1. */
  method Query(e: Ext, ix: Index, text: string) returns (r: Result<Match, QueryError>)
    ensures var s := Scores(e, ix, Split(text));
      && (r.Err? <==> NoneAboveStart(s))
      && (r.Ok? ==> exists k :: IsFirstMax(s, k) && r.value == Match(ix.vectors[k].name, s[k]))
  {
    var s := Scores(e, ix, Split(text));
    var k := PickFirstMax(s);
    match k
    case None =>
      r := Err(NoDocumentChosen);
    case Some(best) =>
      r := Ok(Match(ix.vectors[best].name, s[best]));
  }

  /** At most one position is the first maximum, so the answer is unique. */
  lemma FirstMaxUnique(s: seq<real>, k1: int, k2: int)
    requires IsFirstMax(s, k1) && IsFirstMax(s, k2)
    ensures k1 == k2
  {
    assert s[k1] <= s[k2] && s[k2] <= s[k1];
  }
}
