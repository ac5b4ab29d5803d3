/**
 Generated passwords: rejection sampling, Fisher-Yates and the backend's password rule.

 The random source is a sequence of 32-bit draws; a computation that needs more draws than there are
 is `Exhausted`, where the code would go on drawing.
 */
module Passwords {
  import opened Sequences
  import opened Wrappers

  const TWO_32 := 0x1_0000_0000

  // ----- one index -----------------------------------------------------------------------------------

  function Bound(size: nat): nat
    requires size > 0
  { TWO_32 / size * size }

  datatype Drawn = Exhausted | Drawn(values: seq<nat>, next: nat)

  // The first draw from position `at` on that is not rejected.
  function Draw(draws: seq<nat>, at: nat, size: nat): Drawn
    requires size > 0
    decreases |draws| - at
  {
    if at >= |draws| then Exhausted
    else if draws[at] >= Bound(size) then Draw(draws, at + 1, size)
    else Drawn([draws[at] % size], at + 1)
  }

  predicate Positive(sizes: seq<nat>) { forall k | 0 <= k < |sizes| :: sizes[k] > 0 }

  function DrawAll(draws: seq<nat>, at: nat, sizes: seq<nat>): Drawn
    requires Positive(sizes)
    decreases |sizes|
  {
    if sizes == [] then Drawn([], at)
    else
      match Draw(draws, at, sizes[0])
      case Exhausted => Exhausted
      case Drawn(x, next) =>
        match DrawAll(draws, next, sizes[1..])
        case Exhausted => Exhausted
        case Drawn(xs, end) => Drawn(x + xs, end)
  }

  method RandomIndex(draws: seq<nat>, at: nat, size: nat) returns (r: Option<nat>, next: nat)
    requires size > 0 && at <= |draws|
    ensures next <= |draws|
    ensures Draw(draws, at, size) == if r.Some? then Drawn([r.value], next) else Exhausted
  {
    var bound := TWO_32 / size * size;
    next := at;
    while next < |draws|
      invariant at <= next <= |draws| && Draw(draws, next, size) == Draw(draws, at, size)
    {
      var word := draws[next];
      next := next + 1;
      if word < bound { return Some(word % size), next; }
    }
    return None, next;
  }

  // ----- shuffling -----------------------------------------------------------------------------------

  predicate Choices(n: nat, c: seq<nat>) {
    |c| == (if n == 0 then 0 else n - 1) && forall k | 0 <= k < |c| :: c[k] < n - k
  }

  function Swap<T>(s: seq<T>, i: nat, j: nat): seq<T>
    requires i < |s| && j < |s|
  { s[i := s[j]][j := s[i]] }

  // The last place takes the chosen element, then the rest is shuffled.
  function Shuffle<T>(s: seq<T>, c: seq<nat>): (r: seq<T>)
    requires Choices(|s|, c)
    ensures |r| == |s|
    decreases |s|
  {
    if |s| <= 1 then s
    else
      var n := |s| - 1;
      var t := Swap(s, n, c[0]);
      Shuffle(t[..n], c[1..]) + [t[n]]
  }

  function ShuffleSizes(n: nat): (sizes: seq<nat>)
    ensures Positive(sizes)
  { if n <= 1 then [] else [n] + ShuffleSizes(n - 1) }

  lemma {:induction false} DrawnIsBelow(draws: seq<nat>, at: nat, size: nat)
    requires size > 0 && Draw(draws, at, size).Drawn?
    ensures |Draw(draws, at, size).values| == 1 && Draw(draws, at, size).values[0] < size
    decreases |draws| - at
  {
    if draws[at] >= Bound(size) { DrawnIsBelow(draws, at + 1, size); }
  }

  lemma {:induction false} DrawnAreBelow(draws: seq<nat>, at: nat, sizes: seq<nat>)
    requires Positive(sizes) && DrawAll(draws, at, sizes).Drawn?
    ensures var c := DrawAll(draws, at, sizes).values; |c| == |sizes| && forall k | 0 <= k < |c| :: c[k] < sizes[k]
    decreases |sizes|
  {
    if sizes != [] {
      DrawnIsBelow(draws, at, sizes[0]);
      DrawnAreBelow(draws, Draw(draws, at, sizes[0]).next, sizes[1..]);
    }
  }

  lemma {:induction false} SizesCountDown(n: nat)
    ensures |ShuffleSizes(n)| == (if n == 0 then 0 else n - 1)
    ensures forall k | 0 <= k < |ShuffleSizes(n)| :: ShuffleSizes(n)[k] == n - k
  {
    if n > 1 { SizesCountDown(n - 1); }
  }

  lemma ShuffleDrawsChoices(draws: seq<nat>, at: nat, n: nat)
    requires DrawAll(draws, at, ShuffleSizes(n)).Drawn?
    ensures Choices(n, DrawAll(draws, at, ShuffleSizes(n)).values)
  {
    DrawnAreBelow(draws, at, ShuffleSizes(n));
    SizesCountDown(n);
  }

  // What shuffling s with the draws from `at` on gives, in front of what is in place already.
  function Outcome(draws: seq<nat>, at: nat, s: string, done: string): Option<(string, nat)> {
    match DrawAll(draws, at, ShuffleSizes(|s|))
    case Exhausted => None
    case Drawn(c, next) =>
      ShuffleDrawsChoices(draws, at, |s|);
      Some((Shuffle(s, c) + done, next))
  }

  // The first choice moves one element to its place.
  lemma ShuffleStep(s: string, x: seq<nat>, xs: seq<nat>)
    requires |s| >= 2 && |x| == 1 && x[0] < |s| && Choices(|s| - 1, xs)
    ensures var n, t := |s| - 1, Swap(s, |s| - 1, x[0]);
      Choices(|s|, x + xs) && Shuffle(s, x + xs) == Shuffle(t[..n], xs) + [t[n]]
  {
    assert (x + xs)[1..] == xs;
  }

  lemma OutcomeStep(draws: seq<nat>, at: nat, s: string, done: string)
    requires |s| >= 2
    ensures var n := |s| - 1;
      match Draw(draws, at, n + 1)
      case Exhausted => Outcome(draws, at, s, done) == None
      case Drawn(x, next) =>
        |x| == 1 && x[0] <= n &&
        var t := Swap(s, n, x[0]);
        Outcome(draws, at, s, done) == Outcome(draws, next, t[..n], [t[n]] + done)
  {
    var n := |s| - 1;
    assert ShuffleSizes(|s|)[1..] == ShuffleSizes(n);
    var first := Draw(draws, at, n + 1);
    if first.Drawn? {
      DrawnIsBelow(draws, at, n + 1);
      var rest, t := DrawAll(draws, first.next, ShuffleSizes(n)), Swap(s, n, first.values[0]);
      if rest.Drawn? {
        ShuffleDrawsChoices(draws, first.next, n);
        ShuffleStep(s, first.values, rest.values);
        Regroup(Shuffle(t[..n], rest.values), [t[n]], done);
      }
    }
  }

  lemma OutcomeEnds(draws: seq<nat>, at: nat, s: string, done: string)
    requires |s| <= 1
    ensures Outcome(draws, at, s, done) == Some((s + done, at))
  {
  }

  // One swap: the element at i changes places with one that is drawn from those up to i.
  method SwapWithRandom(a: array<char>, i: nat, draws: seq<nat>, at: nat) returns (ok: bool, next: nat)
    requires 0 < i < a.Length && at <= |draws|
    modifies a
    ensures next <= |draws|
    ensures ok ==> Outcome(draws, next, a[..i], a[i..]) == Outcome(draws, at, old(a[..i + 1]), old(a[i + 1..]))
    ensures !ok ==> Outcome(draws, at, old(a[..i + 1]), old(a[i + 1..])) == None
  {
    ghost var s, done := a[..i + 1], a[i + 1..];
    OutcomeStep(draws, at, s, done);
    var j;
    j, next := RandomIndex(draws, at, i + 1);
    if j.None? { return false, next; }
    a[i], a[j.value] := a[j.value], a[i];
    ghost var t := Swap(s, i, j.value);
    assert a[..i] == t[..i] && a[i..] == [t[i]] + done;
    return true, next;
  }

  /** for (let i = length - 1; i > 0; i--) swap with a random index up to i. */
  method ShuffleInPlace(a: array<char>, draws: seq<nat>, at: nat) returns (r: Option<nat>)
    requires at <= |draws|
    modifies a
    ensures r.Some? ==> Outcome(draws, at, old(a[..]), "") == Some((a[..], r.value))
    ensures r.None? ==> Outcome(draws, at, old(a[..]), "") == None
  {
    ghost var goal := Outcome(draws, at, a[..], "");
    var next: nat, i := at, a.Length - 1;
    assert a.Length > 0 ==> a[..i + 1] == a[..] && a[i + 1..] == "";
    while i > 0
      invariant i < a.Length && next <= |draws|
      invariant a.Length == 0 ==> next == at && a[..] == old(a[..])
      invariant a.Length == 0 || (0 <= i && Outcome(draws, next, a[..i + 1], a[i + 1..]) == goal)
    {
      var ok;
      ok, next := SwapWithRandom(a, i, draws, next);
      if !ok { return None; }
      i := i - 1;
    }
    if a.Length > 0 {
      OutcomeEnds(draws, next, a[..1], a[1..]);
      assert a[..] == a[..1] + a[1..];
    } else {
      OutcomeEnds(draws, at, a[..], "");
      assert a[..] + "" == a[..] == old(a[..]) && next == at;
    }
    return Some(next);
  }

  // ----- the password --------------------------------------------------------------------------------

  const UPPER := "ABCDEFGHJKLMNPQRSTUVWXYZ"
  const LOWER := "abcdefghijkmnopqrstuvwxyz"
  const DIGITS := "23456789"
  const SYMBOLS := "!@#$%&*+-=?"
  const LENGTH := 20

  function Groups(): seq<string> { [UPPER, LOWER, DIGITS, SYMBOLS] }

  function Alphabet(): string { UPPER + LOWER + DIGITS + SYMBOLS }

  // What the k-th character is picked from, before shuffling.
  function Source(k: nat): string { if k < 4 then Groups()[k] else Alphabet() }

  function Sizes(n: nat): (sizes: seq<nat>)
    ensures |sizes| == n && Positive(sizes) && forall k | 0 <= k < n :: sizes[k] == |Source(k)|
  { seq(n, k requires 0 <= k => |Source(k)|) }

  function Picked(c: seq<nat>): string
    requires forall k | 0 <= k < |c| :: c[k] < |Source(k)|
  { seq(|c|, k requires 0 <= k < |c| => Source(k)[c[k]]) }

  // Characters from their groups first, then shuffled.
  function Password(draws: seq<nat>): Option<string> {
    match DrawAll(draws, 0, Sizes(LENGTH))
    case Exhausted => None
    case Drawn(c, next) =>
      DrawnAreBelow(draws, 0, Sizes(LENGTH));
      match Outcome(draws, next, Picked(c), "")
      case None => None
      case Some((s, _)) => Some(s)
  }

  lemma {:induction false} DrawOneMore(draws: seq<nat>, at: nat, sizes: seq<nat>, size: nat)
    requires Positive(sizes) && size > 0
    ensures Positive(sizes + [size])
    ensures DrawAll(draws, at, sizes + [size]) ==
      match DrawAll(draws, at, sizes)
      case Exhausted => Exhausted
      case Drawn(c, mid) =>
        match Draw(draws, mid, size)
        case Exhausted => Exhausted
        case Drawn(x, end) => Drawn(c + x, end)
    decreases |sizes|
  {
    if sizes == [] {
      assert [] + [size] == [size] && [size][1..] == [];
      if Draw(draws, at, size).Drawn? {
        var x := Draw(draws, at, size).values;
        assert x + [] == x && [] + x == x;
      }
    } else {
      assert (sizes + [size])[1..] == sizes[1..] + [size] && (sizes + [size])[0] == sizes[0];
      var first := Draw(draws, at, sizes[0]);
      if first.Drawn? {
        DrawOneMore(draws, first.next, sizes[1..], size);
        var rest := DrawAll(draws, first.next, sizes[1..]);
        if rest.Drawn? && Draw(draws, rest.next, size).Drawn? {
          var x := Draw(draws, rest.next, size).values;
          assert first.values + (rest.values + x) == first.values + rest.values + x;
        }
      }
    }
  }

  // Once the draws run out they stay so.
  lemma {:induction false} ExhaustedStays(draws: seq<nat>, n: nat, m: nat)
    requires n <= m && DrawAll(draws, 0, Sizes(n)).Exhausted?
    ensures DrawAll(draws, 0, Sizes(m)).Exhausted?
    decreases m
  {
    if n < m {
      ExhaustedStays(draws, n, m - 1);
      assert Sizes(m) == Sizes(m - 1) + [|Source(m - 1)|];
      DrawOneMore(draws, 0, Sizes(m - 1), |Source(m - 1)|);
    }
  }

  // The characters picked so far and where the next draw is taken.
  predicate PickedSoFar(draws: seq<nat>, result: string, next: nat) {
    var d := DrawAll(draws, 0, Sizes(|result|));
    && d.Drawn? && d.next == next && |d.values| == |result|
    && (forall k | 0 <= k < |result| :: d.values[k] < |Source(k)| && result[k] == Source(k)[d.values[k]])
  }

  lemma SizesGrow(n: nat)
    ensures Sizes(n + 1) == Sizes(n) + [|Source(n)|]
  {
  }

  // One more character picked.
  lemma PickOne(draws: seq<nat>, result: string, next: nat, x: nat, end: nat)
    requires PickedSoFar(draws, result, next) && Draw(draws, next, |Source(|result|)|) == Drawn([x], end)
    requires x < |Source(|result|)|
    ensures PickedSoFar(draws, result + [Source(|result|)[x]], end)
  {
    var n := |result|;
    var before, longer := DrawAll(draws, 0, Sizes(n)).values, result + [Source(n)[x]];
    SizesGrow(n);
    DrawOneMore(draws, 0, Sizes(n), |Source(n)|);
    assert |longer| == n + 1 && DrawAll(draws, 0, Sizes(n + 1)) == Drawn(before + [x], end);
  }

  lemma PickMore(draws: seq<nat>, result: string, next: nat)
    requires PickedSoFar(draws, result, next) && |result| < LENGTH
    ensures var group := Source(|result|);
      match Draw(draws, next, |group|)
      case Exhausted => Password(draws) == None
      case Drawn(x, end) => |x| == 1 && x[0] < |group| && PickedSoFar(draws, result + [group[x[0]]], end)
  {
    var n, group := |result|, Source(|result|);
    var one := Draw(draws, next, |group|);
    if one.Exhausted? {
      SizesGrow(n);
      DrawOneMore(draws, 0, Sizes(n), |group|);
      ExhaustedStays(draws, n + 1, LENGTH);
    } else {
      DrawnIsBelow(draws, next, |group|);
      assert one.values == [one.values[0]];
      PickOne(draws, result, next, one.values[0], one.next);
    }
  }

  method GeneratePassword(draws: seq<nat>) returns (r: Option<string>)
    ensures r == Password(draws)
  {
    var groups := Groups();
    var alphabet := Alphabet();
    var result, next: nat := "", 0;
    while |result| < 4
      invariant |result| <= 4 && next <= |draws| && PickedSoFar(draws, result, next)
      decreases 4 - |result|
    {
      var group, k := groups[|result|], None;
      PickMore(draws, result, next);
      k, next := RandomIndex(draws, next, |group|);
      if k.None? { return None; }
      result := result + [group[k.value]];
    }
    while |result| < LENGTH
      invariant 4 <= |result| <= LENGTH && next <= |draws| && PickedSoFar(draws, result, next)
      decreases LENGTH - |result|
    {
      var k;
      PickMore(draws, result, next);
      k, next := RandomIndex(draws, next, |alphabet|);
      if k.None? { return None; }
      result := result + [alphabet[k.value]];
    }
    var a := new char[LENGTH](i requires 0 <= i < LENGTH => result[i]);
    assert a[..] == result == Picked(DrawAll(draws, 0, Sizes(LENGTH)).values);
    var shuffled := ShuffleInPlace(a, draws, next);
    return if shuffled.None? then None else Some(a[..]);
  }

  // ----- the rule of the backend ---------------------------------------------------------------------

  predicate IsLetter(c: char) { 'A' <= c <= 'Z' || 'a' <= c <= 'z' }

  predicate IsDigit(c: char) { '0' <= c <= '9' }

  /** 12 to 72 printable ASCII characters without space, among them a letter and a digit. */
  predicate Acceptable(s: string) {
    && 12 <= |s| <= 72
    && (forall k | 0 <= k < |s| :: '!' <= s[k] <= '~')
    && (exists k | 0 <= k < |s| :: IsLetter(s[k]))
    && (exists k | 0 <= k < |s| :: IsDigit(s[k]))
  }

  method ValidPassword(password: string) returns (r: bool)
    ensures r <==> Acceptable(password)
  {
    if |password| < 12 || |password| > 72 { return false; }
    var letter, digit := false, false;
    for i := 0 to |password|
      invariant letter <==> exists k | 0 <= k < i :: IsLetter(password[k])
      invariant digit <==> exists k | 0 <= k < i :: IsDigit(password[k])
      invariant forall k | 0 <= k < i :: '!' <= password[k] <= '~'
    {
      var c := password[i];
      if 'A' <= c <= 'Z' {
        letter := true;
      } else if 'a' <= c <= 'z' {
        letter := true;
      } else if '0' <= c <= '9' {
        digit := true;
      } else if !(33 as char <= c <= 126 as char) {
        return false;
      }
    }
    return letter && digit;
  }
}
