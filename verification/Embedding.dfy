/** The feature-hashing vectorizer and cosine similarity of internal/embed/embed.go, in exact
    arithmetic. The two FNV hashes and the square root are parameters. */
module Embedding {
  type Vector = seq<real>

  // ---- products ----

  function Times(x: real, y: real): real { x * y }

  lemma Positive(x: real, y: real)
    requires x > 0.0 && y > 0.0
    ensures Times(x, y) > 0.0
  {
  }

  lemma Square(x: real)
    ensures Times(x, x) >= 0.0 && (Times(x, x) == 0.0 <==> x == 0.0)
  {
    if x > 0.0 {
      Positive(x, x);
    } else if x < 0.0 {
      Positive(-x, -x);
      assert Times(-x, -x) == Times(x, x);
    }
  }

  lemma SquareLess(x: real, y: real)
    requires 0.0 <= x < y
    ensures Times(x, x) < Times(y, y)
  {
    Positive(y - x, y + x);
    assert Times(y - x, y + x) == Times(y, y) - Times(x, x);
  }

  lemma SameSquare(x: real, y: real)
    requires x >= 0.0 && y >= 0.0 && Times(x, x) == Times(y, y)
    ensures x == y
  {
    if x < y {
      SquareLess(x, y);
    }
    if y < x {
      SquareLess(y, x);
    }
  }

  lemma RootAtMost(d: real, s: real)
    requires s > 0.0 && Times(d, d) <= Times(s, s)
    ensures -s <= d <= s
  {
    assert Times(-d, -d) == Times(d, d);
    if d > s {
      SquareLess(s, d);
    }
    if -d > s {
      SquareLess(s, -d);
    }
  }

  // ---- cosine ----

  function Dot(a: Vector, b: Vector): real
    requires |a| == |b|
  {
    if a == [] then 0.0 else Dot(a[..|a| - 1], b[..|b| - 1]) + Times(a[|a| - 1], b[|b| - 1])
  }

  type Root = real -> real

  /** The law of math.Sqrt, exactly. */
  ghost predicate IsRoot(sqrt: Root) {
    forall x: real :: x >= 0.0 ==> sqrt(x) >= 0.0 && Times(sqrt(x), sqrt(x)) == x
  }

  lemma {:induction false} DotSelf(a: Vector)
    ensures Dot(a, a) >= 0.0
  {
    if a != [] {
      DotSelf(a[..|a| - 1]);
      Square(a[|a| - 1]);
    }
  }

  /** A vector has length zero exactly when it is zero everywhere. */
  lemma {:induction false} DotSelfZero(a: Vector)
    ensures Dot(a, a) == 0.0 <==> forall i | 0 <= i < |a| :: a[i] == 0.0
  {
    if a != [] {
      var n := |a| - 1;
      DotSelf(a[..n]);
      DotSelfZero(a[..n]);
      Square(a[n]);
      assert forall i | 0 <= i < n :: a[..n][i] == a[i];
    }
  }

  /** The square behind Cauchy-Schwarz: |d*a - e*b|^2, expanded. */
  function Gap(d: real, e: real, aa: real, ab: real, bb: real): real {
    d * d * aa - 2.0 * d * e * ab + e * e * bb
  }

  lemma {:induction false} GapNonNegative(a: Vector, b: Vector, d: real, e: real)
    requires |a| == |b|
    ensures Gap(d, e, Dot(a, a), Dot(a, b), Dot(b, b)) >= 0.0
  {
    if a != [] {
      var n := |a| - 1;
      var x, y := a[n], b[n];
      GapNonNegative(a[..n], b[..n], d, e);
      GapOfPair(x, y, d, e);
      GapAdds(d, e, Dot(a[..n], a[..n]), Dot(a[..n], b[..n]), Dot(b[..n], b[..n]), Times(x, x), Times(x, y), Times(y, y));
    }
  }

  lemma GapOfPair(x: real, y: real, d: real, e: real)
    ensures Gap(d, e, Times(x, x), Times(x, y), Times(y, y)) >= 0.0
  {
    var z := d * x - e * y;
    Square(z);
    assert Times(z, z) == Gap(d, e, Times(x, x), Times(x, y), Times(y, y));
  }

  lemma GapAdds(d: real, e: real, aa: real, ab: real, bb: real, xx: real, xy: real, yy: real)
    ensures Gap(d, e, aa + xx, ab + xy, bb + yy) == Gap(d, e, aa, ab, bb) + Gap(d, e, xx, xy, yy)
  {
  }

  /** Cauchy-Schwarz, for vectors of any length. */
  lemma {:induction false} CauchySchwarz(a: Vector, b: Vector)
    requires |a| == |b|
    ensures Times(Dot(a, b), Dot(a, b)) <= Times(Dot(a, a), Dot(b, b))
  {
    var ab, aa, bb := Dot(a, b), Dot(a, a), Dot(b, b);
    DotSelf(a);
    if aa > 0.0 {
      GapNonNegative(a, b, ab, aa);
      var slack := Times(aa, bb) - Times(ab, ab);
      assert Gap(ab, aa, aa, ab, bb) == Times(aa, slack);
      assert Times(aa, -slack) == -Times(aa, slack);
      if slack < 0.0 {
        Positive(aa, -slack);
      }
    } else {
      ZeroDot(a, b);
    }
  }

  lemma {:induction false} ZeroDot(a: Vector, b: Vector)
    requires |a| == |b| && Dot(a, a) == 0.0
    ensures Dot(a, b) == 0.0
  {
    if a != [] {
      var n := |a| - 1;
      DotSelf(a[..n]);
      Square(a[n]);
      ZeroDot(a[..n], b[..n]);
      assert Times(a[n], b[n]) == 0.0;
    }
  }

  /** The three sums of Cosine, computed in one pass. */
  method Sums(a: Vector, b: Vector) returns (dot: real, na: real, nb: real)
    requires |a| == |b|
    ensures dot == Dot(a, b) && na == Dot(a, a) && nb == Dot(b, b)
  {
    dot, na, nb := 0.0, 0.0, 0.0;
    for i := 0 to |a|
      invariant dot == Dot(a[..i], b[..i]) && na == Dot(a[..i], a[..i]) && nb == Dot(b[..i], b[..i])
    {
      assert a[..i + 1][..i] == a[..i] && b[..i + 1][..i] == b[..i];
      dot := dot + Times(a[i], b[i]);
      na := na + Times(a[i], a[i]);
      nb := nb + Times(b[i], b[i]);
    }
    assert a[..|a|] == a && b[..|b|] == b;
  }

  function Ratio(d: real, x: real, y: real): real
    requires x > 0.0 && y > 0.0
  {
    Positive(x, y);
    d / Times(x, y)
  }

  function Similarity(a: Vector, b: Vector, sqrt: Root): real
    requires IsRoot(sqrt)
  {
    if |a| != |b| || a == [] || Dot(a, a) == 0.0 || Dot(b, b) == 0.0 then 0.0
    else
      RootPositive(a, sqrt);
      RootPositive(b, sqrt);
      Ratio(Dot(a, b), sqrt(Dot(a, a)), sqrt(Dot(b, b)))
  }

  lemma RootPositive(a: Vector, sqrt: Root)
    requires IsRoot(sqrt) && Dot(a, a) != 0.0
    ensures Dot(a, a) > 0.0 && sqrt(Dot(a, a)) > 0.0
  {
    DotSelf(a);
    Square(sqrt(Dot(a, a)));
  }

  /** Cosine */
  method Cosine(a: Vector, b: Vector, sqrt: Root) returns (r: real)
    requires IsRoot(sqrt)
    ensures r == Similarity(a, b, sqrt)
  {
    if |a| != |b| || |a| == 0 {
      return 0.0;
    }
    var dot, na, nb := Sums(a, b);
    if na == 0.0 || nb == 0.0 {
      return 0.0;
    }
    RootPositive(a, sqrt);
    RootPositive(b, sqrt);
    return Ratio(dot, sqrt(na), sqrt(nb));
  }

  lemma Quotient(d: real, s: real)
    requires s > 0.0
    ensures -s <= d <= s ==> -1.0 <= d / s <= 1.0
    ensures d == s ==> d / s == 1.0
  {
  }

  /** What the similarity is: zero without a direction to compare, and otherwise the inner product divided by
      the product of the two lengths. */
  lemma {:induction false} SimilarityMeaning(a: Vector, b: Vector, sqrt: Root)
    requires IsRoot(sqrt)
    ensures |a| != |b| || Dot(a, a) == 0.0 || Dot(b, b) == 0.0 ==> Similarity(a, b, sqrt) == 0.0
    ensures |a| == |b| && Dot(a, a) != 0.0 && Dot(b, b) != 0.0 ==>
              Times(Similarity(a, b, sqrt), Times(sqrt(Dot(a, a)), sqrt(Dot(b, b)))) == Dot(a, b)
  {
    if |a| == |b| && Dot(a, a) != 0.0 && Dot(b, b) != 0.0 {
      RootPositive(a, sqrt);
      RootPositive(b, sqrt);
      Positive(sqrt(Dot(a, a)), sqrt(Dot(b, b)));
    }
  }

  /** The similarity of any two vectors lies between -1 and 1. */
  lemma {:induction false} SimilarityBounded(a: Vector, b: Vector, sqrt: Root)
    requires IsRoot(sqrt)
    ensures -1.0 <= Similarity(a, b, sqrt) <= 1.0
  {
    if |a| == |b| && a != [] && Dot(a, a) != 0.0 && Dot(b, b) != 0.0 {
      RootPositive(a, sqrt);
      RootPositive(b, sqrt);
      var x, y := sqrt(Dot(a, a)), sqrt(Dot(b, b));
      var s := Times(x, y);
      Positive(x, y);
      CauchySchwarz(a, b);
      assert Times(s, s) == Times(Times(x, x), Times(y, y));
      RootAtMost(Dot(a, b), s);
      Quotient(Dot(a, b), s);
    }
  }

  /** A vector other than zero is fully similar to itself. */
  lemma {:induction false} SelfSimilarity(a: Vector, sqrt: Root)
    requires IsRoot(sqrt) && Dot(a, a) != 0.0
    ensures Similarity(a, a, sqrt) == 1.0
  {
    RootPositive(a, sqrt);
    var x := sqrt(Dot(a, a));
    Positive(x, x);
    Quotient(Dot(a, a), Times(x, x));
  }

  function Scaled(a: Vector, c: real): (r: Vector)
    ensures |r| == |a| && forall i | 0 <= i < |a| :: r[i] == Times(c, a[i])
  {
    seq(|a|, i requires 0 <= i < |a| => Times(c, a[i]))
  }

  lemma {:induction false} DotScaled(a: Vector, b: Vector, c: real)
    requires |a| == |b|
    ensures Dot(Scaled(a, c), b) == Times(c, Dot(a, b))
    ensures Dot(Scaled(a, c), Scaled(a, c)) == Times(Times(c, c), Dot(a, a))
  {
    var s := Scaled(a, c);
    if a != [] {
      var n := |a| - 1;
      DotScaled(a[..n], b[..n], c);
      assert s[..n] == Scaled(a[..n], c);
      ScaleStep(Dot(a[..n], b[..n]), Dot(a[..n], a[..n]), a[n], b[n], c);
    }
  }

  lemma ScaleStep(d: real, e: real, x: real, y: real, c: real)
    ensures Times(c, d) + Times(Times(c, x), y) == Times(c, d + Times(x, y))
    ensures Times(Times(c, c), e) + Times(Times(c, x), Times(c, x)) == Times(Times(c, c), e + Times(x, x))
  {
  }

  lemma {:induction false} RootScaled(v: real, c: real, sqrt: Root)
    requires IsRoot(sqrt) && v > 0.0 && c > 0.0
    ensures Times(Times(c, c), v) > 0.0 && sqrt(Times(Times(c, c), v)) == Times(c, sqrt(v))
  {
    Positive(c, c);
    Positive(Times(c, c), v);
    var w, r := Times(Times(c, c), v), sqrt(v);
    assert Times(Times(c, r), Times(c, r)) == Times(Times(c, c), Times(r, r));
    assert Times(c, r) >= 0.0;
    SameSquare(sqrt(w), Times(c, r));
  }

  lemma CancelFactor(c: real, d: real, x: real, y: real)
    requires c > 0.0 && x > 0.0 && y > 0.0
    ensures Times(c, x) > 0.0 && Ratio(Times(c, d), Times(c, x), y) == Ratio(d, x, y)
  {
    Positive(c, x);
    Positive(x, y);
    var s := Times(x, y);
    Positive(c, s);
    var q := d / s;
    assert Times(q, s) == d;
    assert Times(Times(c, x), y) == Times(c, s);
    assert Times(q, Times(c, s)) == Times(c, d);
  }

  /** Similarity does not depend on a vector's length: scaling by a positive factor changes nothing. */
  lemma {:induction false} ScalingInvariant(a: Vector, b: Vector, c: real, sqrt: Root)
    requires IsRoot(sqrt) && c > 0.0
    ensures Similarity(Scaled(a, c), b, sqrt) == Similarity(a, b, sqrt)
  {
    if |a| == |b| && a != [] {
      DotScaled(a, b, c);
      if Dot(a, a) == 0.0 {
        assert Times(Times(c, c), Dot(a, a)) == 0.0;
      } else if Dot(b, b) != 0.0 {
        RootPositive(a, sqrt);
        RootPositive(b, sqrt);
        RootScaled(Dot(a, a), c, sqrt);
        CancelFactor(c, Dot(a, b), sqrt(Dot(a, a)), sqrt(Dot(b, b)));
      }
    }
  }

  // ---- embedding ----

  /** The bucket hash (reduced modulo the dimension) and the sign bit of a token. */
  datatype Hashes = Hashes(bucket: string -> nat, sign: string -> bool)

  function Slot(h: Hashes, dim: nat, token: string): nat
    requires dim > 0
  {
    h.bucket(token) % dim
  }

  function Unit(h: Hashes, token: string): real { if h.sign(token) then 1.0 else -1.0 }

  function Bump(h: Hashes, v: Vector, token: string): Vector
    requires |v| > 0
  {
    v[Slot(h, |v|, token) := v[Slot(h, |v|, token)] + Unit(h, token)]
  }

  /** Signed token counts per bucket. */
  function Counts(h: Hashes, dim: nat, tokens: seq<string>): (v: Vector)
    requires dim > 0
    ensures |v| == dim
  {
    if tokens == [] then seq(dim, i => 0.0) else Bump(h, Counts(h, dim, tokens[..|tokens| - 1]), tokens[|tokens| - 1])
  }

  function Normalized(v: Vector, sqrt: Root): (r: Vector)
    requires IsRoot(sqrt)
    ensures |r| == |v|
  {
    if Dot(v, v) == 0.0 then v
    else
      RootPositive(v, sqrt);
      Scaled(v, 1.0 / sqrt(Dot(v, v)))
  }

  function Embedded(h: Hashes, dim: nat, tokens: seq<string>, sqrt: Root): (v: Vector)
    requires dim > 0 && IsRoot(sqrt)
    ensures |v| == dim
  {
    Normalized(Counts(h, dim, tokens), sqrt)
  }

  /** normalize, in place. */
  method Normalize(vec: array<real>, sqrt: Root)
    requires IsRoot(sqrt)
    modifies vec
    ensures vec[..] == Normalized(old(vec[..]), sqrt)
  {
    ghost var before := vec[..];
    var norm := 0.0;
    for i := 0 to vec.Length
      invariant vec[..] == before
      invariant norm == Dot(before[..i], before[..i])
    {
      assert before[..i + 1][..i] == before[..i];
      norm := norm + Times(vec[i], vec[i]);
    }
    assert before[..vec.Length] == before;
    if norm == 0.0 {
      return;
    }
    RootPositive(before, sqrt);
    var inv := 1.0 / sqrt(norm);
    for i := 0 to vec.Length
      invariant forall k | 0 <= k < i :: vec[k] == Times(inv, before[k])
      invariant forall k | i <= k < vec.Length :: vec[k] == before[k]
    {
      vec[i] := Times(inv, vec[i]);
    }
    assert vec[..] == Scaled(before, inv);
  }

  /** HashEmbedder.Embed on the tokens of a text; a dimension that is not positive becomes 256. */
  method Embed(h: Hashes, dim: int, tokens: seq<string>, sqrt: Root) returns (vec: array<real>)
    requires IsRoot(sqrt)
    ensures fresh(vec) && vec[..] == Embedded(h, if dim <= 0 then 256 else dim, tokens, sqrt)
  {
    var size: nat := if dim <= 0 then 256 else dim;
    vec := new real[size](i => 0.0);
    assert vec[..] == Counts(h, size, []);
    for n := 0 to |tokens|
      invariant vec[..] == Counts(h, size, tokens[..n])
    {
      var idx := Slot(h, size, tokens[n]);
      assert tokens[..n + 1][..n] == tokens[..n];
      ghost var before := vec[..];
      if h.sign(tokens[n]) {
        vec[idx] := vec[idx] + 1.0;
      } else {
        vec[idx] := vec[idx] - 1.0;
      }
      assert vec[..] == Bump(h, before, tokens[n]);
    }
    assert tokens[..|tokens|] == tokens;
    Normalize(vec, sqrt);
  }

  lemma {:induction false} BumpsCommute(h: Hashes, v: Vector, x: string, y: string)
    requires |v| > 0
    ensures Bump(h, Bump(h, v, x), y) == Bump(h, Bump(h, v, y), x)
  {
  }

  lemma {:induction false} MoveToEnd(h: Hashes, dim: nat, tokens: seq<string>, j: nat)
    requires dim > 0 && j < |tokens|
    ensures Counts(h, dim, tokens) == Bump(h, Counts(h, dim, tokens[..j] + tokens[j + 1..]), tokens[j])
    decreases |tokens|
  {
    var n := |tokens| - 1;
    var init := tokens[..n];
    var without := tokens[..j] + tokens[j + 1..];
    if j == n {
      assert without == init;
    } else {
      MoveToEnd(h, dim, init, j);
      assert init[..j] + init[j + 1..] == without[..n - 1];
      assert without[n - 1] == tokens[n];
      var v := Counts(h, dim, without[..n - 1]);
      BumpsCommute(h, v, tokens[j], tokens[n]);
    }
  }

  /** Only how often each token occurs matters, not the order. */
  lemma {:induction false} CountsUnordered(h: Hashes, dim: nat, s: seq<string>, t: seq<string>)
    requires dim > 0 && multiset(s) == multiset(t)
    ensures Counts(h, dim, s) == Counts(h, dim, t)
    decreases |s|
  {
    assert |s| == |multiset(s)| == |t|;
    if s != [] {
      var n := |s| - 1;
      var x, init := s[n], s[..n];
      assert s == init + [x];
      assert x in multiset(t);
      var j :| 0 <= j < |t| && t[j] == x;
      var rest := t[..j] + t[j + 1..];
      assert t == t[..j] + [x] + t[j + 1..];
      assert multiset(rest) == multiset(t) - multiset{x};
      assert multiset(init) == multiset(s) - multiset{x};
      CountsUnordered(h, dim, init, rest);
      MoveToEnd(h, dim, t, j);
    }
  }

  /** So the embedding depends on the tokens as a multiset only. */
  lemma {:induction false} OrderIrrelevant(h: Hashes, dim: nat, s: seq<string>, t: seq<string>, sqrt: Root)
    requires dim > 0 && IsRoot(sqrt) && multiset(s) == multiset(t)
    ensures Embedded(h, dim, s, sqrt) == Embedded(h, dim, t, sqrt)
  {
    CountsUnordered(h, dim, s, t);
  }

  /** An embedded text is a unit vector, unless its signed counts cancel to zero everywhere. */
  lemma {:induction false} EmbeddedUnit(v: Vector, sqrt: Root)
    requires IsRoot(sqrt)
    ensures Dot(Normalized(v, sqrt), Normalized(v, sqrt)) == if Dot(v, v) == 0.0 then 0.0 else 1.0
  {
    if Dot(v, v) != 0.0 {
      RootPositive(v, sqrt);
      var r := sqrt(Dot(v, v));
      DotScaled(v, v, 1.0 / r);
      Inverse(r);
    }
  }

  /** And it points where the counts point. */
  lemma {:induction false} NormalizedSameDirection(v: Vector, sqrt: Root) returns (c: real)
    requires IsRoot(sqrt)
    ensures c > 0.0 && Normalized(v, sqrt) == Scaled(v, c)
  {
    if Dot(v, v) == 0.0 {
      c := 1.0;
    } else {
      RootPositive(v, sqrt);
      c := 1.0 / sqrt(Dot(v, v));
    }
  }

  predicate FallsInto(h: Hashes, dim: nat, token: string, i: nat, sign: bool)
    requires dim > 0
  {
    h.bucket(token) % dim == i && h.sign(token) == sign
  }

  /** How many tokens fall into bucket `i` with the given sign. */
  function Falls(h: Hashes, dim: nat, tokens: seq<string>, i: nat, sign: bool): nat
    requires dim > 0
  {
    if tokens == [] then 0
    else (if FallsInto(h, dim, tokens[|tokens| - 1], i, sign) then 1 else 0) + Falls(h, dim, tokens[..|tokens| - 1], i, sign)
  }

  /** What is counted: in each bucket, the tokens that add minus the tokens that subtract. */
  lemma {:induction false} CountsMeaning(h: Hashes, dim: nat, tokens: seq<string>, i: nat)
    requires i < dim
    ensures Counts(h, dim, tokens)[i] == Falls(h, dim, tokens, i, true) as real - Falls(h, dim, tokens, i, false) as real
  {
    if tokens != [] {
      CountsMeaning(h, dim, tokens[..|tokens| - 1], i);
    }
  }

  lemma Inverse(r: real)
    requires r > 0.0
    ensures Times(Times(1.0 / r, 1.0 / r), Times(r, r)) == 1.0
  {
    var q := 1.0 / r;
    assert Times(q, r) == 1.0;
    assert Times(Times(q, q), Times(r, r)) == Times(Times(q, r), Times(q, r));
  }
}
