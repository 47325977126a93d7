/** Where a piece of text stands inside a longer one: its characters, its slices,
    and the two halves of a concatenation. */
module Text {

  /** `w` stands in `f` at position `p`. */
  ghost predicate At(f: string, p: nat, w: string) {
    p + |w| <= |f| && f[p..p + |w|] == w
  }

  lemma AtChar(f: string, p: nat, w: string, i: nat)
    requires At(f, p, w) && i < |w|
    ensures p + i < |f| && f[p + i] == w[i]
  {
    assert f[p..p + |w|][i] == w[i];
  }

  lemma AtSlice(f: string, p: nat, w: string, i: nat, j: nat)
    requires At(f, p, w) && i <= j <= |w|
    ensures At(f, p + i, w[i..j])
  {
    var a, b := f[p + i..p + j], w[i..j];
    assert forall k | 0 <= k < |b| :: a[k] == f[p + i + k] == f[p..p + |w|][i + k] == b[k];
  }

  /** A concatenation stands where its two halves stand one after the other. */
  lemma AtAppend(f: string, p: nat, a: string, b: string)
    ensures At(f, p, a + b) <==> At(f, p, a) && At(f, p + |a|, b)
  {
    if At(f, p, a + b) {
      AtSlice(f, p, a + b, 0, |a|);
      AtSlice(f, p, a + b, |a|, |a + b|);
      assert (a + b)[0..|a|] == a && (a + b)[|a|..|a + b|] == b;
    }
    if At(f, p, a) && At(f, p + |a|, b) {
      assert f[p..p + |a + b|] == f[p..p + |a|] + f[p + |a|..p + |a| + |b|];
    }
  }

  lemma AtThree(f: string, p: nat, a: string, b: string, c: string)
    requires At(f, p, a + b + c)
    ensures At(f, p, a) && At(f, p + |a|, b) && At(f, p + |a| + |b|, c)
  {
    hide At;
    AtAppend(f, p, a + b, c);
    AtAppend(f, p, a, b);
  }

  lemma AtFour(f: string, p: nat, a: string, b: string, c: string, d: string)
    requires At(f, p, a + b + c + d)
    ensures At(f, p, a) && At(f, p + |a|, b) && At(f, p + |a| + |b|, c) && At(f, p + |a| + |b| + |c|, d)
  {
    hide At;
    AtAppend(f, p, a + b + c, d);
    AtThree(f, p, a, b, c);
  }

  /** Text keeps its place when more is added before or after it. */
  lemma AtFramed(before: string, w: string, after: string)
    ensures At(before + w + after, |before|, w)
  {
    assert (before + w + after)[|before|..|before| + |w|] == w;
  }

  lemma AtWhole(f: string)
    ensures At(f, 0, f)
  {
    assert f[0..|f|] == f;
  }

  lemma AtFits(f: string, p: nat, w: string)
    requires At(f, p, w)
    ensures p + |w| <= |f|
  {
  }

  /** `w` is what `f` has from position `p` on. */
  ghost predicate ToEnd(f: string, p: nat, w: string) {
    At(f, p, w) && p + |w| == |f|
  }

  lemma ToEndSplit(f: string, p: nat, a: string, b: string)
    ensures ToEnd(f, p, a + b) <==> At(f, p, a) && ToEnd(f, p + |a|, b)
  {
    hide At;
    AtAppend(f, p, a, b);
  }

  lemma ToEndFirst(f: string, p: nat, w: string)
    requires ToEnd(f, p, w) && w != ""
    ensures p < |f| && f[p] == w[0]
  {
    AtChar(f, p, w, 0);
  }

  lemma ToEndFromStart(f: string, w: string)
    ensures ToEnd(f, 0, w) <==> w == f
  {
    assert f[0..|f|] == f;
  }
}
