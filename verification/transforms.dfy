/** The matrices of the scene graph, kept symbolic.  A matrix is a product of
    factors, written left to right; the product of two matrices is the
    concatenation of their factor lists and the identity is the empty
    product.  Any statement proved about these words holds for the real 4x4
    matrices too, because every assignment of matrices to factors extends to
    a monoid homomorphism. */
module Transforms {
  import opened Linear

  datatype Factor =
    | Given(id: nat)          // a matrix handed in by a caller, e.g. a model matrix
    | Translate(offset: Vec3) // glm::translate(mat4(1), offset)
    | RotateY(degrees: real)  // glm::rotate(mat4(1), radians(degrees), (0,1,0))
    | Uniform(factor: real)   // glm::scale(mat4(1), vec3(factor))

  type Mat = seq<Factor>

  /** glm::mat4(1). */
  const Identity: Mat := []

  function Mul(a: Mat, b: Mat): Mat { a + b }

  /** `a` is a left factor of `m`: m = a * x for some x. */
  predicate LeftFactor(a: Mat, m: Mat)
  {
    |a| <= |m| && m[..|a|] == a
  }

  lemma MulAssoc(a: Mat, b: Mat, c: Mat)
    ensures Mul(Mul(a, b), c) == Mul(a, Mul(b, c))
  {
  }

  lemma MulIdentity(a: Mat)
    ensures Mul(Identity, a) == a && Mul(a, Identity) == a
  {
  }

  lemma LeftFactorMul(a: Mat, b: Mat, c: Mat)
    requires LeftFactor(a, b)
    ensures LeftFactor(a, Mul(b, c))
  {
    assert Mul(b, c)[..|a|] == b[..|a|];
  }

  lemma LeftFactorOfProduct(a: Mat, b: Mat)
    ensures LeftFactor(a, Mul(a, b))
  {
    assert Mul(a, b)[..|a|] == a;
  }

  lemma LeftFactorTrans(a: Mat, b: Mat, c: Mat)
    requires LeftFactor(a, b) && LeftFactor(b, c)
    ensures LeftFactor(a, c)
  {
    assert c[..|a|] == c[..|b|][..|a|];
  }
}
