/**
 Why generated passwords are unbiased and always acceptable: rejection sampling gives every index
 the same number of words, choice vectors and permutations correspond one to one, and shuffling
 keeps the characters of the four groups.
 */
module PasswordsProofs {
  import opened Wrappers
  import opened Passwords

  // ----- rejection sampling --------------------------------------------------------------------------

  // The 32-bit words that are accepted and give index r.
  function Accepted(size: nat, r: nat): set<nat>
    requires size > 0
  { set x: nat | x < Bound(size) && x % size == r }

  function Below(size: nat, blocks: nat, r: nat): set<nat>
    requires size > 0
  { set x: nat | x < blocks * size && x % size == r }

  lemma {:induction false} OnePerBlock(size: nat, blocks: nat, r: nat)
    requires r < size
    ensures |Below(size, blocks, r)| == blocks
  {
    if blocks > 0 {
      OnePerBlock(size, blocks - 1, r);
      var here := (blocks - 1) * size + r;
      assert blocks * size == (blocks - 1) * size + size;
      Quotient(here, size, blocks - 1, r);
      forall x: nat | (blocks - 1) * size <= x < blocks * size && x % size == r ensures x == here {
        Quotient(x, size, blocks - 1, x - (blocks - 1) * size);
      }
      assert Below(size, blocks, r) == Below(size, blocks - 1, r) + {here};
    }
  }

  lemma Quotient(x: int, size: int, q: int, r: int)
    requires 0 <= r < size && x == q * size + r
    ensures x % size == r && x / size == q
  {
    var d := x / size - q;
    assert d * size == r - x % size by {
      assert x == x / size * size + x % size;
      assert d * size == x / size * size - q * size;
    }
    assert d >= 1 ==> d * size >= size;
    assert d <= -1 ==> d * size <= -size;
  }

  /** Every index is given by the same number of words. */
  lemma EveryIndexIsEquallyLikely(size: nat, r: nat)
    requires r < size
    ensures |Accepted(size, r)| == TWO_32 / size
  {
    OnePerBlock(size, TWO_32 / size, r);
    assert Accepted(size, r) == Below(size, TWO_32 / size, r);
  }

  /** Fewer than half of all words are rejected. */
  lemma FewerThanHalfAreRejected(size: nat)
    requires 0 < size <= TWO_32
    ensures 0 <= TWO_32 - Bound(size) < TWO_32 / 2
  {
    assert TWO_32 - Bound(size) == TWO_32 % size;
    if size > TWO_32 / 2 { Quotient(TWO_32, size, 1, TWO_32 - size); }
  }

  // ----- shuffling is a bijection --------------------------------------------------------------------

  ghost predicate Distinct<T>(s: seq<T>) { forall i, j | 0 <= i < j < |s| :: s[i] != s[j] }

  lemma SwapKeeps<T>(s: seq<T>, i: nat, j: nat)
    requires i < |s| && j < |s|
    ensures multiset(Swap(s, i, j)) == multiset(s)
  {
  }

  lemma SplitLast<T>(s: seq<T>)
    requires s != []
    ensures multiset(s) == multiset(s[..|s| - 1]) + multiset{s[|s| - 1]}
  {
    assert s == s[..|s| - 1] + [s[|s| - 1]];
  }

  lemma {:induction false} ShuffleKeeps<T>(s: seq<T>, c: seq<nat>)
    requires Choices(|s|, c)
    ensures multiset(Shuffle(s, c)) == multiset(s)
    decreases |s|
  {
    if |s| > 1 {
      var n := |s| - 1;
      var t := Swap(s, n, c[0]);
      SwapKeeps(s, n, c[0]);
      ShuffleKeeps(t[..n], c[1..]);
      SplitLast(t);
    }
  }

  /** Different choices give different orders. */
  lemma {:induction false} ShuffleIsInjective<T>(s: seq<T>, c: seq<nat>, d: seq<nat>)
    requires Choices(|s|, c) && Choices(|s|, d) && Distinct(s) && Shuffle(s, c) == Shuffle(s, d)
    ensures c == d
    decreases |s|
  {
    if |s| > 1 {
      var n := |s| - 1;
      var t, u := Swap(s, n, c[0]), Swap(s, n, d[0]);
      assert Shuffle(s, c)[n] == t[n] == s[c[0]] && Shuffle(s, d)[n] == u[n] == s[d[0]];
      assert c[0] == d[0];
      assert Shuffle(s, c)[..n] == Shuffle(t[..n], c[1..]) && Shuffle(s, d)[..n] == Shuffle(t[..n], d[1..]);
      ShuffleIsInjective(t[..n], c[1..], d[1..]);
      assert c == [c[0]] + c[1..] && d == [d[0]] + d[1..];
    }
  }

  lemma FrontsMatch<T>(t: seq<T>, goal: seq<T>)
    requires multiset(t) == multiset(goal) && t != [] && goal != [] && t[|t| - 1] == goal[|goal| - 1]
    ensures multiset(t[..|t| - 1]) == multiset(goal[..|goal| - 1])
  {
    var x := multiset{t[|t| - 1]};
    SplitLast(t);
    SplitLast(goal);
    assert multiset(t[..|t| - 1]) == multiset(t) - x;
    assert multiset(goal[..|goal| - 1]) == multiset(goal) - x;
  }

  lemma Find<T>(s: seq<T>, goal: seq<T>, k: nat) returns (j: nat)
    requires multiset(s) == multiset(goal) && k < |goal|
    ensures j < |s| && s[j] == goal[k]
  {
    assert goal[k] in multiset(goal);
    assert goal[k] in s;
    j :| 0 <= j < |s| && s[j] == goal[k];
  }

  // The choice that puts the goal's last element in place.
  lemma ChooseLast<T>(s: seq<T>, goal: seq<T>) returns (j: nat)
    requires multiset(s) == multiset(goal) && |s| >= 2 && |goal| == |s|
    ensures j < |s|
    ensures var n, t := |s| - 1, Swap(s, |s| - 1, j); t[n] == goal[n] && multiset(t[..n]) == multiset(goal[..n])
  {
    j := Find(s, goal, |s| - 1);
    SwapKeeps(s, |s| - 1, j);
    FrontsMatch(Swap(s, |s| - 1, j), goal);
  }

  lemma SameLength<T>(s: seq<T>, goal: seq<T>)
    requires multiset(s) == multiset(goal)
    ensures |s| == |goal| && (|s| <= 1 ==> s == goal)
  {
    assert |s| == |multiset(s)| == |goal|;
    if |s| == 1 {
      assert goal[0] in multiset(goal);
      assert goal[0] in s;
    }
  }

  /** Every order of the elements is reached by some choices. */
  lemma {:induction false} ShuffleIsSurjective<T>(s: seq<T>, goal: seq<T>) returns (c: seq<nat>)
    requires multiset(s) == multiset(goal)
    ensures Choices(|s|, c) && Shuffle(s, c) == goal
    decreases |s|
  {
    SameLength(s, goal);
    if |s| <= 1 {
      c := [];
    } else {
      var n := |s| - 1;
      var j := ChooseLast(s, goal);
      var t := Swap(s, n, j);
      var rest := ShuffleIsSurjective(t[..n], goal[..n]);
      c := [j] + rest;
      assert c[1..] == rest;
      assert goal == goal[..n] + [goal[n]];
    }
  }

  // ----- generated passwords are accepted ------------------------------------------------------------

  predicate Printable(s: string) { forall k | 0 <= k < |s| :: '!' <= s[k] <= '~' }

  lemma GroupsArePrintable()
    ensures Printable(UPPER) && Printable(LOWER) && Printable(DIGITS) && Printable(SYMBOLS)
    ensures (forall k | 0 <= k < |UPPER| :: IsLetter(UPPER[k])) && (forall k | 0 <= k < |DIGITS| :: IsDigit(DIGITS[k]))
  {
  }

  lemma SourcesArePrintable(k: nat)
    ensures Printable(Source(k))
  {
    GroupsArePrintable();
  }

  // The rule depends only on which characters there are, not on their order.
  lemma OrderDoesNotMatter(s: string, t: string)
    requires multiset(s) == multiset(t) && Acceptable(s)
    ensures Acceptable(t)
  {
    assert |s| == |multiset(s)| == |t|;
    forall k | 0 <= k < |t| ensures '!' <= t[k] <= '~' {
      assert t[k] in multiset(t);
      assert t[k] in s;
    }
    var l :| 0 <= l < |s| && IsLetter(s[l]);
    var d :| 0 <= d < |s| && IsDigit(s[d]);
    assert s[l] in multiset(s) && s[d] in multiset(s);
    assert s[l] in t && s[d] in t;
  }

  lemma PickedIsAcceptable(c: seq<nat>)
    requires |c| == LENGTH && forall k | 0 <= k < |c| :: c[k] < |Source(k)|
    ensures Acceptable(Picked(c))
  {
    var s := Picked(c);
    GroupsArePrintable();
    forall k | 0 <= k < |s| ensures '!' <= s[k] <= '~' { SourcesArePrintable(k); }
    assert s[0] == UPPER[c[0]] && s[2] == DIGITS[c[2]];
    assert IsLetter(s[0]) && IsDigit(s[2]);
  }

  // A generated password consists of the characters picked, in some order.
  lemma GeneratedIsShuffled(draws: seq<nat>) returns (c: seq<nat>)
    requires Password(draws).Some?
    ensures |c| == LENGTH && forall k | 0 <= k < |c| :: c[k] < |Source(k)|
    ensures multiset(Picked(c)) == multiset(Password(draws).value)
  {
    var d := DrawAll(draws, 0, Sizes(LENGTH));
    DrawnAreBelow(draws, 0, Sizes(LENGTH));
    c := d.values;
    var s := Picked(c);
    ShuffleDrawsChoices(draws, d.next, LENGTH);
    var order := DrawAll(draws, d.next, ShuffleSizes(LENGTH)).values;
    ShuffleKeeps(s, order);
    assert Password(draws).value == Shuffle(s, order) + "" == Shuffle(s, order);
  }

  /** Whatever is drawn, the backend accepts a generated password. */
  lemma GeneratedPasswordsAreAccepted(draws: seq<nat>)
    requires Password(draws).Some?
    ensures Acceptable(Password(draws).value)
  {
    var c := GeneratedIsShuffled(draws);
    PickedIsAcceptable(c);
    OrderDoesNotMatter(Picked(c), Password(draws).value);
  }

  lemma SameCharacters(s: string, t: string, c: char)
    requires multiset(s) == multiset(t)
    ensures c in s <==> c in t
  {
    assert c in s <==> c in multiset(s);
    assert c in t <==> c in multiset(t);
  }

  predicate HasOneOf(s: string, group: string) { exists c | c in group :: c in s }

  /**
   A generated password has 20 characters: at least one upper-case letter, one lower-case letter, one digit
   and one symbol, and none but these; letters and digits that look alike are left out.
   */
  lemma GeneratedPasswordsMixTheGroups(draws: seq<nat>)
    requires Password(draws).Some?
    ensures var s := Password(draws).value;
      && |s| == 20
      && HasOneOf(s, "ABCDEFGHJKLMNPQRSTUVWXYZ") && HasOneOf(s, "abcdefghijkmnopqrstuvwxyz")
      && HasOneOf(s, "23456789") && HasOneOf(s, "!@#$%&*+-=?")
      && (forall c | c in s ::
            c in "ABCDEFGHJKLMNPQRSTUVWXYZ" + "abcdefghijkmnopqrstuvwxyz" + "23456789" + "!@#$%&*+-=?")
  {
    var c := GeneratedIsShuffled(draws);
    var p, s := Picked(c), Password(draws).value;
    assert |s| == |multiset(s)| == |multiset(p)| == |p| == 20;
    SameCharacters(p, s, p[0]);
    SameCharacters(p, s, p[1]);
    SameCharacters(p, s, p[2]);
    SameCharacters(p, s, p[3]);
    assert p[0] == UPPER[c[0]] && p[1] == LOWER[c[1]] && p[2] == DIGITS[c[2]] && p[3] == SYMBOLS[c[3]];
    assert p[0] in UPPER && p[1] in LOWER && p[2] in DIGITS && p[3] in SYMBOLS;
    forall x | x in s ensures x in Alphabet() {
      SameCharacters(p, s, x);
      var k :| 0 <= k < |p| && p[k] == x;
      InAlphabet(k, c[k]);
    }
  }

  lemma InAlphabet(k: nat, i: nat)
    requires i < |Source(k)|
    ensures Source(k)[i] in Alphabet()
  {
    var all, at := Alphabet(), if k == 1 then 24 else if k == 2 then 49 else if k == 3 then 57 else 0;
    assert all[at + i] == Source(k)[i];
  }

  // ----- enough draws give a password ----------------------------------------------------------------

  // 2 to the 32 less the size of the alphabet: accepted for every size in use.
  const SAFE := 4_294_967_228

  predicate AllSafe(draws: seq<nat>) { forall k | 0 <= k < |draws| :: draws[k] < SAFE }

  lemma SafeIsAccepted(size: nat)
    requires 0 < size <= 68
    ensures SAFE <= Bound(size)
  {
    assert TWO_32 - Bound(size) == TWO_32 % size;
  }

  lemma {:induction false} SafeDraws(draws: seq<nat>, at: nat, sizes: seq<nat>)
    requires AllSafe(draws) && at + |sizes| <= |draws| && Positive(sizes)
    requires forall k | 0 <= k < |sizes| :: sizes[k] <= 68
    ensures DrawAll(draws, at, sizes).Drawn? && DrawAll(draws, at, sizes).next == at + |sizes|
    decreases |sizes|
  {
    if sizes != [] {
      SafeIsAccepted(sizes[0]);
      SafeDraws(draws, at + 1, sizes[1..]);
    }
  }

  lemma {:induction false} SmallSizes(n: nat)
    requires n <= 20
    ensures forall k | 0 <= k < |ShuffleSizes(n)| :: ShuffleSizes(n)[k] <= 20
    ensures |ShuffleSizes(n)| == if n == 0 then 0 else n - 1
  {
    if n > 1 { SmallSizes(n - 1); }
  }

  /** 39 draws are enough, if none of them is among the highest 68 words. */
  lemma EnoughDrawsGiveAPassword(draws: seq<nat>)
    requires |draws| >= 39 && AllSafe(draws)
    ensures Password(draws).Some?
  {
    assert |Alphabet()| == 68;
    SafeDraws(draws, 0, Sizes(LENGTH));
    SmallSizes(LENGTH);
    SafeDraws(draws, 20, ShuffleSizes(LENGTH));
    DrawnAreBelow(draws, 0, Sizes(LENGTH));
  }
}
