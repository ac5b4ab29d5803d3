/** The test that refuses a secret made of one repeated block. */
module RepeatedBlock {
  newtype byte = x: int | 0 <= x < 256

  type Bytes = seq<byte>

  function Repeat(block: Bytes, k: nat): Bytes { if k == 0 then [] else block + Repeat(block, k - 1) }

  predicate Copies(value: Bytes, block: Bytes, k: nat) { block != [] && k >= 2 && value == Repeat(block, k) }

  /** Two or more copies of a shorter block. */
  ghost predicate IsRepeated(value: Bytes) { exists block, k: nat :: Copies(value, block, k) }

  // What the inner loop establishes for one pattern length.
  predicate HasPattern(value: Bytes, p: nat) {
    0 < p <= |value| / 2 && |value| % p == 0 && forall i | p <= i < |value| :: value[i] == value[i % p]
  }

  // ----- copies and periods --------------------------------------------------------------------------

  lemma {:induction false} RepeatLength(block: Bytes, k: nat)
    ensures |Repeat(block, k)| == k * |block|
  {
    if k > 0 {
      RepeatLength(block, k - 1);
      assert k * |block| == |block| + (k - 1) * |block|;
    }
  }

  lemma {:induction false} RepeatAt(block: Bytes, k: nat, i: nat)
    requires block != [] && i < |Repeat(block, k)|
    ensures Repeat(block, k)[i] == block[i % |block|]
  {
    if i >= |block| {
      RepeatAt(block, k - 1, i - |block|);
      ModStep(i, |block|);
    } else {
      DivModUnique(i, |block|, 0, i);
    }
  }

  lemma ModStep(i: int, p: nat)
    requires p > 0
    ensures i % p == (i - p) % p
  {
    assert i - p == p * (i / p - 1) + i % p;
    DivModUnique(i - p, p, i / p - 1, i % p);
  }

  lemma DivModUnique(x: int, p: int, q: int, r: int)
    requires p > 0 && 0 <= r < p && x == p * q + r
    ensures x % p == r
  {
    var d := x / p - q;
    assert p * d == r - x % p by { assert p * d == p * (x / p) - p * q; }
    assert d >= 1 ==> p * d >= p;
    assert d <= -1 ==> p * d <= -p;
  }

  lemma PatternIsCopies(value: Bytes, p: nat)
    requires HasPattern(value, p)
    ensures Copies(value, value[..p], |value| / p)
  {
    var block, k := value[..p], |value| / p;
    RepeatLength(block, k);
    assert k * p == |value|;
    assert k < 2 ==> k * p <= p;
    forall i | 0 <= i < |value| ensures value[i] == Repeat(block, k)[i] {
      RepeatAt(block, k, i);
      if i < p { DivModUnique(i, p, 0, i); }
    }
    assert value == Repeat(block, k);
  }

  lemma CopiesHavePattern(value: Bytes, block: Bytes, k: nat)
    requires Copies(value, block, k)
    ensures HasPattern(value, |block|)
  {
    RepeatLength(block, k);
    var p := |block|;
    assert k * p >= 2 * p;
    DivModUnique(k * p, p, k, 0);
    forall i | p <= i < |value| ensures value[i] == value[i % p] {
      RepeatAt(block, k, i);
      RepeatAt(block, k, i % p);
      DivModUnique(i % p, p, 0, i % p);
    }
  }

  // ----- the loops -----------------------------------------------------------------------------------

  method IsRepeatedBytePattern(value: Bytes) returns (r: bool)
    ensures r <==> IsRepeated(value)
  {
    var length := 1;
    while length <= |value| / 2
      invariant length >= 1 && forall p | 0 < p < length :: !HasPattern(value, p)
    {
      if |value| % length != 0 {
        length := length + 1;
        continue;
      }
      var repeated := true;
      var i := length;
      while i < |value|
        invariant length <= i <= |value|
        invariant repeated && forall j | length <= j < i :: value[j] == value[j % length]
      {
        if value[i] != value[i % length] {
          repeated := false;
          break;
        }
        i := i + 1;
      }
      if repeated {
        PatternIsCopies(value, length);
        return true;
      }
      length := length + 1;
    }
    if IsRepeated(value) {
      ghost var block, k: nat :| Copies(value, block, k);
      CopiesHavePattern(value, block, k);
    }
    return false;
  }

  // ----- rotations -----------------------------------------------------------------------------------

  predicate RotatesOntoItself(value: Bytes, r: nat) { 0 < r < |value| && value[r..] + value[..r] == value }

  lemma {:induction false} RepeatAdds(block: Bytes, i: nat, j: nat)
    ensures Repeat(block, i) + Repeat(block, j) == Repeat(block, i + j)
  {
    if i > 0 { RepeatAdds(block, i - 1, j); }
  }

  // Words that commute are copies of one word.
  lemma {:induction false} CommutingWords(u: Bytes, w: Bytes) returns (z: Bytes, i: nat, j: nat)
    requires u != [] && w != [] && u + w == w + u
    ensures z != [] && i >= 1 && j >= 1 && u == Repeat(z, i) && w == Repeat(z, j)
    decreases |u| + |w|, |u|
  {
    if |u| > |w| {
      z, j, i := CommutingWords(w, u);
    } else {
      assert (u + w)[..|u|] == u && (w + u)[..|u|] == w[..|u|];
      var rest := w[|u|..];
      assert w == u + rest;
      if rest == [] {
        z, i, j := u, 1, 1;
        assert Repeat(u, 1) == u + Repeat(u, 0) == u;
      } else {
        assert u + rest == rest + u by { assert (u + w)[|u|..] == w && (w + u)[|u|..] == rest + u; }
        var n: nat;
        z, i, n := CommutingWords(u, rest);
        RepeatAdds(z, i, n);
        j := i + n;
      }
    }
  }

  lemma CopiesRotate(value: Bytes, block: Bytes, k: nat)
    requires Copies(value, block, k)
    ensures RotatesOntoItself(value, |block|)
  {
    var rest := Repeat(block, k - 1);
    assert value == block + rest;
    RepeatAdds(block, k - 1, 1);
    assert Repeat(block, 1) == block + Repeat(block, 0) == block;
    assert rest == block + Repeat(block, k - 2);
    assert value[|block|..] == rest && value[..|block|] == block;
  }

  lemma RotationHasCopies(value: Bytes, r: nat)
    requires RotatesOntoItself(value, r)
    ensures IsRepeated(value)
  {
    var u, w := value[..r], value[r..];
    assert u + w == value;
    var z, i, j := CommutingWords(u, w);
    RepeatAdds(z, i, j);
    assert Copies(value, z, i + j);
  }

  /** A value is made of copies exactly when some proper rotation leaves it unchanged. */
  lemma RepeatedIffARotationFixesIt(value: Bytes)
    ensures IsRepeated(value) <==> exists r: nat :: RotatesOntoItself(value, r)
  {
    if IsRepeated(value) {
      var block, k: nat :| Copies(value, block, k);
      CopiesRotate(value, block, k);
    }
    if exists r: nat :: RotatesOntoItself(value, r) {
      var r: nat :| RotatesOntoItself(value, r);
      RotationHasCopies(value, r);
    }
  }
}
