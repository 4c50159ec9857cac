/** Cosine similarity (`EmbeddingSearcher.cosine_similarity`). The division of
    the dot product by the product of the norms is floating-point arithmetic
    done by numpy; its value is passed in as `ratio`. What is modelled exactly
    are the two guards that return 0.0: an empty vector, and a vector whose
    Euclidean norm is zero, which is the case exactly when every component is
    zero. */
module Similarity {

  /** The Euclidean norm of `v` is zero. */
  predicate ZeroNorm(v: seq<real>)
  {
    forall i :: 0 <= i < |v| ==> v[i] == 0.0
  }

  /** `cosine_similarity(a, b)`: 0.0 when either vector is empty or has norm
      zero, otherwise the quotient `ratio(a, b)`. */
  function CosineSimilarity(a: seq<real>, b: seq<real>, ratio: (seq<real>, seq<real>) -> real): (r: real)
    ensures |a| == 0 || |b| == 0 ==> r == 0.0
    ensures ZeroNorm(a) || ZeroNorm(b) ==> r == 0.0
    ensures r != 0.0 ==> r == ratio(a, b)
    ensures |a| > 0 && |b| > 0 && !ZeroNorm(a) && !ZeroNorm(b) ==> r == ratio(a, b)
  {
    if |a| == 0 || |b| == 0 then 0.0
    else if ZeroNorm(a) || ZeroNorm(b) then 0.0
    else ratio(a, b)
  }
}
