/** The collaborators the TF-IDF index relies on but does not define: the
    Porter stemmer applied to every looked-up token, and the floating-point
    routines math.log10 and math.sqrt, which this model treats as real-valued
    functions of which only a few facts are relied on. */
module Externals {


  /** A term: a stemmed token, or a raw query token before stemming. */
  type Term = string

  /** A document identifier: the file name the document was read from. */
  type Name = string

  /** The external capabilities, passed explicitly instead of being global. */
  datatype Ext = Ext(stem: Term -> Term, log10: real -> real, sqrt: real -> real)

  /** Everything the model relies on about log10 and sqrt. */
  ghost predicate Valid(e: Ext) {
    && e.log10(1.0) == 0.0
    && (forall x, y :: 0.0 < x <= y ==> e.log10(x) <= e.log10(y))
    && (forall x :: 0.0 <= x ==> 0.0 <= e.sqrt(x))
    && (forall x :: 0.0 <= x ==> (e.sqrt(x) == 0.0 <==> x == 0.0))
  }

  /** log10 is non-negative from 1 upwards. */
  lemma LogNonNegative(e: Ext, x: real)
    requires Valid(e)
    requires 1.0 <= x
    ensures 0.0 <= e.log10(x)
  {
    assert e.log10(1.0) <= e.log10(x);
  }
}
