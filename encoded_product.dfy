/** The composite-id codec: a (product id, variant id) pair folded into one integer by
    the Cantor pairing function, and unfolded again. Variant id 0 means the bare
    product. Decoding uses an exact integer square root where the source computes a
    floating-point one. */
module EncodedProduct {
  import opened Wrappers
  import opened Models

  /** The n-th triangular number 0 + 1 + ... + n, the first code on diagonal n. */
  function Tri(n: nat): nat {
    if n == 0 then 0 else Tri(n - 1) + n
  }

  lemma {:induction false} TriFormula(n: nat)
    ensures n * (n + 1) == 2 * Tri(n)
    ensures n * (n + 1) / 2 == Tri(n)
  {
    if n > 0 {
      TriFormula(n - 1);
      assert n * (n + 1) == (n - 1) * n + 2 * n;
    }
  }

  /** Later diagonals start strictly after earlier ones end. */
  lemma {:induction false} TriStrictlyIncreasing(a: nat, b: nat)
    requires a < b
    ensures Tri(a) + a < Tri(b)
    decreases b - a
  {
    if a + 1 < b {
      TriStrictlyIncreasing(a + 1, b);
    }
  }

  /** `Encode(variableId, variationId)`: the code of the pair, as the source computes it;
      non-negative ids give a code no smaller than the variation id. */
  function Encode(variableId: int, variationId: int): (code: int)
    ensures variableId >= 0 && variationId >= 0 ==> code >= variationId
  {
    ((variableId + variationId) * (variableId + variationId + 1)) / 2 + variationId
  }

  /** On non-negative ids the code is the variation id's offset into diagonal
      variableId + variationId, so it lies between Tri(a + b) and Tri(a + b + 1). */
  lemma EncodeOnDiagonal(a: int, b: int)
    requires a >= 0 && b >= 0
    ensures Encode(a, b) == Tri(a + b) + b
    ensures Tri(a + b) <= Encode(a, b) < Tri(a + b + 1)
  {
    TriFormula(a + b);
  }

  /** The exact floor square root that the source approximates with `Math.Sqrt`. */
  function Isqrt(n: nat): (r: nat)
    ensures r * r <= n < (r + 1) * (r + 1)
  {
    if n == 0 then 0
    else
      var s := Isqrt(n - 1);
      assert (s + 2) * (s + 2) == (s + 1) * (s + 1) + 2 * s + 3;
      if (s + 1) * (s + 1) <= n then s + 1 else s
  }

  /** The diagonal a code lies on: floor((sqrt(8z + 1) - 1) / 2), computed exactly. */
  function Diagonal(z: nat): nat {
    var s := Isqrt(8 * z + 1);
    (s - 1) / 2
  }

  /** `Decode(z)`: the pair whose code is z, as the source computes it with an exact
      square root; both ids it gives back are non-negative. */
  function Decode(z: nat): (pair: (int, int))
    ensures pair.0 >= 0 && pair.1 >= 0
  {
    var w := Diagonal(z);
    var t := (w * (w + 1)) / 2;
    var variationId := z - t;
    var variableId := w - variationId;
    DiagonalBand(z);
    TriFormula(w);
    (variableId, variationId)
  }

  /** An odd square is one more than eight times a triangular number. */
  lemma OddSquare(w: nat)
    ensures (2 * w + 1) * (2 * w + 1) == 8 * Tri(w) + 1
  {
    TriFormula(w);
    assert (2 * w + 1) * (2 * w + 1) == 4 * (w * (w + 1)) + 1;
  }

  /** If s is the floor square root of x, the odd numbers around s bracket x. */
  lemma RootBand(x: nat, s: nat)
    requires s >= 1 && s * s <= x < (s + 1) * (s + 1)
    ensures (2 * ((s - 1) / 2) + 1) * (2 * ((s - 1) / 2) + 1) <= x
    ensures x < (2 * ((s - 1) / 2) + 3) * (2 * ((s - 1) / 2) + 3)
  {
    var w := (s - 1) / 2;
    if s == 2 * w + 1 {
      assert (2 * w + 3) * (2 * w + 3) == (s + 1) * (s + 1) + 4 * w + 5;
    } else {
      assert s == 2 * w + 2;
      assert s * s == (2 * w + 1) * (2 * w + 1) + 4 * w + 3;
    }
  }

  /** The diagonal of z is the w with Tri(w) <= z < Tri(w + 1). */
  lemma DiagonalBand(z: nat)
    ensures Tri(Diagonal(z)) <= z < Tri(Diagonal(z) + 1)
  {
    var s := Isqrt(8 * z + 1);
    assert s >= 1;
    RootBand(8 * z + 1, s);
    var w := Diagonal(z);
    assert w == (s - 1) / 2;
    OddSquare(w);
    OddSquare(w + 1);
    assert 2 * (w + 1) + 1 == 2 * w + 3;
  }

  /** Two diagonals that both contain z are the same diagonal. */
  lemma BandUnique(z: int, v: nat, w: nat)
    requires Tri(v) <= z < Tri(v + 1)
    requires Tri(w) <= z < Tri(w + 1)
    ensures v == w
  {
    if v < w { TriStrictlyIncreasing(v, w); }
    if w < v { TriStrictlyIncreasing(w, v); }
  }

  /** Decoding a code on diagonal w gives back its offset into the diagonal and the rest of w. */
  lemma DecodeOnDiagonal(z: nat, w: nat)
    requires Tri(w) <= z < Tri(w + 1)
    ensures Decode(z).1 == z - Tri(w) && Decode(z).0 == w - (z - Tri(w))
  {
    DiagonalBand(z);
    BandUnique(z, w, Diagonal(z));
    TriFormula(w);
  }

  /** Offset b into diagonal w decodes to (w - b, b). */
  lemma DecodeDiagonalOffset(z: nat, a: nat, b: nat)
    requires z == Tri(a + b) + b
    ensures Decode(z) == (a, b)
  {
    assert Tri(a + b + 1) == Tri(a + b) + a + b + 1;
    DecodeOnDiagonal(z, a + b);
  }

  /** Decoding inverts encoding on non-negative pairs. */
  lemma DecodeEncode(a: int, b: int)
    requires a >= 0 && b >= 0
    ensures Decode(Encode(a, b)) == (a, b)
  {
    EncodeOnDiagonal(a, b);
    DecodeDiagonalOffset(Encode(a, b), a, b);
  }

  /** Every code is the encoding of what it decodes to. */
  lemma EncodeDecode(z: nat)
    ensures Encode(Decode(z).0, Decode(z).1) == z
  {
    var w := Diagonal(z);
    DiagonalBand(z);
    DecodeOnDiagonal(z, w);
    EncodeOnDiagonal(Decode(z).0, Decode(z).1);
  }

  /** No two distinct non-negative pairs share a code. */
  lemma EncodeInjective(a: int, b: int, c: int, d: int)
    requires a >= 0 && b >= 0 && c >= 0 && d >= 0
    requires Encode(a, b) == Encode(c, d)
    ensures a == c && b == d
  {
    DecodeEncode(a, b);
    DecodeEncode(c, d);
  }

  /** The bare-product code of a is the a-th triangular number a * (a + 1) / 2. */
  lemma BareProductCode(a: nat)
    ensures Encode(a, 0) == Tri(a)
  {
    EncodeOnDiagonal(a, 0);
  }

  /** Code 0 decodes to product 0 without a variant (and `BareProductCode(0)` gives
      the converse, Encode(0, 0) == Tri(0) == 0). */
  lemma ZeroCode()
    ensures Decode(0) == (0, 0)
  {
    assert Tri(1) == 1;
    DecodeOnDiagonal(0, 0);
    var p := Decode(0);
    assert p.0 == 0 && p.1 == 0;
  }

  /** Bare-product codes are strictly increasing in the product id. */
  lemma BareProductCodeIncreasing(a: int, b: int)
    requires 0 <= a < b
    ensures Encode(a, 0) < Encode(b, 0)
  {
    EncodeOnDiagonal(a, 0);
    EncodeOnDiagonal(b, 0);
    TriStrictlyIncreasing(a, b);
  }

  /** `EncodedId`: the code of the bare product. */
  function EncodedId(product: MxProduct): (code: int)
    ensures product.id >= 0 ==> code >= 0 && Decode(code) == (product.id, 0)
  {
    if product.id >= 0 then
      EncodeOnDiagonal(product.id, 0);
      DecodeEncode(product.id, 0);
      Encode(product.id, 0)
    else Encode(product.id, 0)
  }

  /** `EncodedVariants`: each variant, in list order, paired with the code of
      (product id, variant id); empty when the product has no variant list. */
  function EncodedVariants(product: MxProduct): (pairs: seq<(MxVariant, int)>)
    ensures product.variants.None? ==> pairs == []
    ensures product.variants.Some? ==> |pairs| == |product.variants.value|
    ensures product.variants.Some? ==> forall i :: 0 <= i < |pairs| ==>
      pairs[i] == (product.variants.value[i], Encode(product.id, product.variants.value[i].id))
  {
    match product.variants
    case None => []
    case Some(vs) => seq(|vs|, i requires 0 <= i < |vs| => (vs[i], Encode(product.id, vs[i].id)))
  }

  /** Every code in `EncodedVariants` decodes back to (product id, that variant's id). */
  lemma EncodedVariantsDecode(product: MxProduct, i: int)
    requires product.variants.Some? && 0 <= i < |product.variants.value|
    requires product.id >= 0 && product.variants.value[i].id >= 0
    ensures Decode(EncodedVariants(product)[i].1) == (product.id, product.variants.value[i].id)
  {
    EncodeOnDiagonal(product.id, product.variants.value[i].id);
    DecodeEncode(product.id, product.variants.value[i].id);
  }
}
