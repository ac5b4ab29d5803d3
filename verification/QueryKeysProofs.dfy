/**
 Two valid keys print alike exactly when they are equal up to the order of object keys.
 */
module QueryKeysProofs {
  import opened Sequences
  import opened Wrappers
  import opened QueryKeys

  // ----- sorting -----------------------------------------------------------------------------------

  lemma {:induction false} BeforeIsOrder(a: string, b: string)
    ensures a != b ==> Before(a, b) || Before(b, a)
    ensures !(Before(a, b) && Before(b, a)) && !Before(a, a)
    decreases |a| + |b|
  {
    if a != "" {
      BeforeSelf(a[1..]);
      if b != "" {
        BeforeIsOrder(a[1..], b[1..]);
        assert a == [a[0]] + a[1..] && b == [b[0]] + b[1..];
      }
    }
  }

  lemma {:induction false} BeforeSelf(a: string)
    ensures !Before(a, a)
  {
    if a != "" { BeforeSelf(a[1..]); }
  }

  lemma {:induction false} BeforeTransitive(a: string, b: string, c: string)
    requires Before(a, b) && Before(b, c)
    ensures Before(a, c)
    decreases |a|
  {
    if a != "" && a[0] == b[0] == c[0] { BeforeTransitive(a[1..], b[1..], c[1..]); }
  }

  predicate Sorted(keys: seq<string>) { forall i, j | 0 <= i < j < |keys| :: Before(keys[i], keys[j]) }

  lemma {:induction false} InsertSorted(key: string, keys: seq<string>)
    requires Sorted(keys) && key !in keys
    ensures Sorted(Insert(key, keys))
  {
    if keys != [] {
      BeforeIsOrder(keys[0], key);
      if Before(keys[0], key) {
        InsertSorted(key, keys[1..]);
        forall x | x in Insert(key, keys[1..]) ensures Before(keys[0], x) {
          InsertHas(key, keys[1..], x);
        }
      } else {
        forall k | 0 <= k < |keys| ensures Before(key, keys[k]) {
          if k > 0 { BeforeTransitive(key, keys[0], keys[k]); }
        }
      }
    }
  }

  lemma {:induction false} KeysSorted(fields: seq<Field>)
    requires DistinctKeys(fields)
    ensures Sorted(SortedKeys(fields))
  {
    if fields != [] {
      KeysSorted(fields[1..]);
      SortedKeysHave(fields[1..], fields[0].key);
      InsertSorted(fields[0].key, SortedKeys(fields[1..]));
    }
  }

  lemma {:induction false} SortedIsUnique(a: seq<string>, b: seq<string>)
    requires Sorted(a) && Sorted(b) && forall x :: x in a <==> x in b
    ensures a == b
  {
    assert b != [] ==> b[0] in b;
    if a != [] {
      assert a[0] in b && b != [] && b[0] in a;
      BeforeIsOrder(a[0], b[0]);
      forall x ensures x in a[1..] <==> x in b[1..] {
        BeforeIsOrder(x, x);
        assert x in a <==> x == a[0] || x in a[1..];
        assert x in b <==> x == b[0] || x in b[1..];
      }
      SortedIsUnique(a[1..], b[1..]);
    }
  }

  // ----- what the first characters tell ------------------------------------------------------------

  lemma Cancel(a: string, r: string, s: string)
    requires a + r == a + s
    ensures r == s
  {
    assert (a + r)[|a|..] == r && (a + s)[|a|..] == s;
  }

  predicate Control(c: char) { |EscapeChar(c)| == 6 }

  // The length of an escape is told by its first two characters.
  lemma EscapeShape(c: char)
    ensures var x := EscapeChar(c);
      && (x[0] != '\\' ==> x == [c])
      && (x[0] == '\\' ==> |x| > 1 && (x[1] == 'u' <==> Control(c)) && (x[1] != 'u' ==> |x| == 2))
  {
  }

  lemma ShortEscapesDiffer(c: char, d: char)
    requires |EscapeChar(c)| == 2 && EscapeChar(c) == EscapeChar(d)
    ensures c == d
  {
  }

  lemma HexDiffers(i: int, j: int)
    requires 0 <= i < 16 && 0 <= j < 16 && HEX[i] == HEX[j]
    ensures i == j
  {
  }

  lemma ControlEscapesDiffer(c: char, d: char)
    requires Control(c) && EscapeChar(c) == EscapeChar(d)
    ensures c == d
  {
    var x, y := EscapeChar(c), EscapeChar(d);
    assert x[4] == HEX[c as int / 16] && y[4] == HEX[d as int / 16];
    assert x[5] == HEX[c as int % 16] && y[5] == HEX[d as int % 16];
    HexDiffers(c as int / 16, d as int / 16);
    HexDiffers(c as int % 16, d as int % 16);
  }

  lemma EscapeCharUnique(c: char, r: string, d: char, s: string)
    requires EscapeChar(c) + r == EscapeChar(d) + s
    ensures c == d && r == s
  {
    var x, y := EscapeChar(c), EscapeChar(d);
    EscapeShape(c);
    EscapeShape(d);
    assert (x + r)[0] == x[0] && (y + s)[0] == y[0];
    assert |x| > 1 && |y| > 1 ==> (x + r)[1] == x[1] && (y + s)[1] == y[1];
    assert |x| == |y|;
    assert x == (x + r)[..|x|] == y;
    if |x| == 2 { ShortEscapesDiffer(c, d); }
    if |x| == 6 { ControlEscapesDiffer(c, d); }
    Cancel(x, r, s);
  }

  // What follows an opening quote.
  function Quoted(s: string, r: string): string { Escape(s) + ("\"" + r) }

  lemma QuotedOpens(s: string, r: string)
    ensures s == "" ==> Quoted(s, r) == "\"" + r
    ensures s != "" ==> Quoted(s, r) == EscapeChar(s[0]) + Quoted(s[1..], r) && Quoted(s, r)[0] != '"'
  {
  }

  lemma {:induction false} QuoteUnique(a: string, r: string, b: string, s: string)
    requires Quoted(a, r) == Quoted(b, s)
    ensures a == b && r == s
  {
    QuotedOpens(a, r);
    QuotedOpens(b, s);
    if a != "" && b != "" {
      EscapeCharUnique(a[0], Quoted(a[1..], r), b[0], Quoted(b[1..], s));
      QuoteUnique(a[1..], r, b[1..], s);
      assert a == [a[0]] + a[1..] && b == [b[0]] + b[1..];
    } else {
      Cancel("\"", r, s);
    }
  }

  // What may follow a value.
  predicate Stops(r: string) { r == "" || r[0] in ",]}" }

  lemma NumberEnds(a: string, r: string)
    requires NumberText(a) && Stops(r)
    ensures forall k | 0 <= k < |a| :: (a + r)[k] !in ",]}"
    ensures |a + r| > |a| ==> (a + r)[|a|] in ",]}"
  {
  }

  lemma NumberUnique(a: string, r: string, b: string, s: string)
    requires NumberText(a) && NumberText(b) && Stops(r) && Stops(s) && a + r == b + s
    ensures a == b && r == s
  {
    NumberEnds(a, r);
    NumberEnds(b, s);
    assert |a| == |b|;
    assert a == (a + r)[..|a|] && b == (b + s)[..|b|];
    Cancel(a, r, s);
  }

  // The kinds of value, told apart by the first character.
  function Kind(v: Json): nat {
    match v
    case Undefined => 0
    case Null => 1
    case Bool(b) => if b then 2 else 3
    case Num(_) => 4
    case Str(_) => 5
    case Arr(_) => 6
    case Obj(_) => 7
  }

  function KindOfChar(c: char): nat {
    if c in ",]}u" then 0 else if c == 'n' then 1 else if c == 't' then 2 else if c == 'f' then 3
    else if c in "0123456789+-.eE" then 4 else if c == '"' then 5 else if c == '[' then 6 else 7
  }

  predicate Hole(hole: string) { hole == "" || hole == "undefined" }

  lemma PrintStart(v: Json)
    requires Valid(v) && !v.Undefined?
    ensures Print(v) != "" && KindOfChar(Print(v)[0]) == Kind(v)
  {
    KindsOfStarts();
    match v
    case Null => assert Print(v) == "null";
    case Bool(b) => assert Print(v) == if b then "true" else "false";
    case Num(text) => KindOfDigit(text[0]);
    case Str(_) => assert Print(v)[0] == '"';
    case Arr(_) => assert Print(v)[0] == '[';
    case Obj(_) => assert Print(v)[0] == '{';
  }

  lemma KindsOfStarts()
    ensures KindOfChar('n') == 1 && KindOfChar('t') == 2 && KindOfChar('f') == 3
    ensures KindOfChar('"') == 5 && KindOfChar('[') == 6 && KindOfChar('{') == 7
  {
  }

  lemma KindOfDigit(c: char)
    requires c in "0123456789+-.eE"
    ensures KindOfChar(c) == 4
  {
  }

  lemma FirstChar(v: Json, hole: string, r: string)
    requires Valid(v) && Hole(hole) && Stops(r)
    ensures var t := Text(v, hole) + r;
      if t == "" then v.Undefined? && hole == "" else KindOfChar(t[0]) == Kind(v)
  {
    if v.Undefined? {
      assert hole == "" ==> Text(v, hole) + r == r;
    } else {
      PrintStart(v);
      assert (Print(v) + r)[0] == Print(v)[0];
    }
  }

  // ----- texts followed by a rest ------------------------------------------------------------------

  function ItemsThen(x: seq<Json>, r: string): string { PrintItems(x) + ("]" + r) }

  function FieldsThen(x: seq<Field>, keys: seq<string>, r: string): string
    requires KeysOf(x, keys)
  { PrintFields(x, keys) + ("}" + r) }

  function AfterItem(x: seq<Json>, r: string): string
    requires x != []
  { if |x| == 1 then "]" + r else "," + ItemsThen(x[1..], r) }

  function AfterField(x: seq<Field>, keys: seq<string>, r: string): string
    requires KeysOf(x, keys) && keys != []
  { if |keys| == 1 then "}" + r else "," + FieldsThen(x, keys[1..], r) }

  lemma PrintsAsItems(x: seq<Json>)
    ensures PrintItems(Items(x)) == PrintItems(x)
  {
    if x == [Undefined] { assert x[0] == Undefined && PrintItems(x) == Text(x[0], "") + ""; }
  }

  lemma ArrayOpens(a: Json, r: string)
    requires a.Arr?
    ensures Print(a) + r == "[" + ItemsThen(a.items, r) && ItemsThen([], r) == "]" + r
  {
  }

  lemma ItemsOpen(x: seq<Json>, r: string)
    requires x != []
    ensures ItemsThen(x, r) == Text(x[0], "") + AfterItem(x, r) && Stops(AfterItem(x, r))
  {
  }

  lemma ObjectOpens(a: Json, r: string)
    requires a.Obj?
    ensures KeysOf(a.fields, SortedKeys(a.fields))
    ensures Print(a) + r == "{" + FieldsThen(a.fields, SortedKeys(a.fields), r)
  {
    SortedKeysAreKeys(a.fields);
  }

  lemma FieldsOpen(x: seq<Field>, keys: seq<string>, r: string)
    requires KeysOf(x, keys)
    ensures keys == [] ==> FieldsThen(x, keys, r) == "}" + r
    ensures keys != [] ==>
              FieldsThen(x, keys, r) == PrintField(x, keys[0]) + AfterField(x, keys, r) && Stops(AfterField(x, keys, r))
    ensures keys != [] ==> FieldsThen(x, keys, r)[0] == '"'
  {
    if keys != [] {
      var field, tail := PrintField(x, keys[0]), if |keys| == 1 then "" else "," + PrintFields(x, keys[1..]);
      Regroup(field, tail, "}" + r);
      assert tail + ("}" + r) == AfterField(x, keys, r);
      assert field[0] == '"';
    }
  }

  lemma QuoteThen(k: string, r: string)
    ensures Quote(k) + r == "\"" + Quoted(k, r)
  {
    Regroup("\"" + Escape(k), "\"", r);
    Regroup("\"", Escape(k), "\"" + r);
  }

  lemma FieldOpens(x: seq<Field>, k: string, r: string)
    requires HasKey(x, k)
    ensures PrintField(x, k) + r == "\"" + Quoted(k, ":" + (Text(Lookup(x, k), "undefined") + r))
  {
    var t := Text(Lookup(x, k), "undefined");
    Regroup(Quote(k) + ":", t, r);
    Regroup(Quote(k), ":", t + r);
    QuoteThen(k, ":" + (t + r));
  }

  // ----- texts determine values --------------------------------------------------------------------

  lemma {:induction false} TextUnique(a: Json, r: string, b: Json, s: string, hole: string)
    requires Valid(a) && Valid(b) && Hole(hole) && Stops(r) && Stops(s)
    requires Text(a, hole) + r == Text(b, hole) + s
    ensures Same(a, b) && r == s
    decreases a, 2
  {
    FirstChar(a, hole, r);
    FirstChar(b, hole, s);
    assert Kind(a) == Kind(b);
    match a
    case Num(_) => NumberUnique(a.text, r, b.text, s);
    case Str(_) =>
      StringUnique(a.chars, r, b.chars, s);
    case Arr(_) => ArrayUnique(a, r, b, s);
    case Obj(_) => ObjectUnique(a, r, b, s);
    case _ => Cancel(Text(a, hole), r, s);
  }

  lemma StringUnique(a: string, r: string, b: string, s: string)
    requires Quote(a) + r == Quote(b) + s
    ensures a == b && r == s
  {
    QuoteThen(a, r);
    QuoteThen(b, s);
    Cancel("\"", Quoted(a, r), Quoted(b, s));
    QuoteUnique(a, r, b, s);
  }

  lemma {:induction false} ArrayUnique(a: Json, r: string, b: Json, s: string)
    requires a.Arr? && b.Arr? && Valid(a) && Valid(b) && Print(a) + r == Print(b) + s
    ensures Same(a, b) && r == s
    decreases a, 1
  {
    var x, y := Items(a.items), Items(b.items);
    ArrayOpens(a, r);
    ArrayOpens(b, s);
    Cancel("[", ItemsThen(a.items, r), ItemsThen(b.items, s));
    PrintsAsItems(a.items);
    PrintsAsItems(b.items);
    if x != [] && y != [] {
      ItemsUnique(x, r, y, s);
    } else {
      if x != [] { ItemsStart(x, r); }
      if y != [] { ItemsStart(y, s); }
      Cancel("]", r, s);
    }
  }

  // The items of an array, other than a single undefined, do not begin with the closing bracket.
  lemma ItemsStart(x: seq<Json>, r: string)
    requires x != [] && x != [Undefined] && forall k | 0 <= k < |x| :: Valid(x[k])
    ensures ItemsThen(x, r)[0] != ']'
  {
    ItemsOpen(x, r);
    FirstChar(x[0], "", AfterItem(x, r));
    assert |x| == 1 ==> x == [x[0]];
  }

  lemma {:induction false} ItemsUnique(x: seq<Json>, r: string, y: seq<Json>, s: string)
    requires x != [] && y != [] && ItemsThen(x, r) == ItemsThen(y, s)
    requires (forall k | 0 <= k < |x| :: Valid(x[k])) && (forall k | 0 <= k < |y| :: Valid(y[k]))
    ensures |x| == |y| && (forall k | 0 <= k < |x| :: Same(x[k], y[k])) && r == s
    decreases x
  {
    ItemsOpen(x, r);
    ItemsOpen(y, s);
    TextUnique(x[0], AfterItem(x, r), y[0], AfterItem(y, s), "");
    if |x| == 1 || |y| == 1 {
      Cancel("]", r, s);
    } else {
      Cancel(",", ItemsThen(x[1..], r), ItemsThen(y[1..], s));
      ItemsUnique(x[1..], r, y[1..], s);
      assert forall k | 0 < k < |x| :: x[k] == x[1..][k - 1] && y[k] == y[1..][k - 1];
    }
  }

  predicate ValidFields(fields: seq<Field>) { forall k | 0 <= k < |fields| :: Valid(fields[k].value) }

  lemma {:induction false} FieldsUnique(
      x: seq<Field>, kx: seq<string>, r: string, y: seq<Field>, ky: seq<string>, s: string)
    requires ValidFields(x) && ValidFields(y) && KeysOf(x, kx) && KeysOf(y, ky)
    requires FieldsThen(x, kx, r) == FieldsThen(y, ky, s)
    ensures kx == ky && r == s && SameAt(x, y, kx)
    decreases x, |kx|, 1
  {
    FieldsOpen(x, kx, r);
    FieldsOpen(y, ky, s);
    if kx == [] || ky == [] {
      Cancel("}", r, s);
    } else {
      FieldUnique(x, kx[0], AfterField(x, kx, r), y, ky[0], AfterField(y, ky, s));
      RestUnique(x, kx, r, y, ky, s);
    }
  }

  predicate SameAt(x: seq<Field>, y: seq<Field>, keys: seq<string>)
    requires KeysOf(x, keys) && KeysOf(y, keys)
  { forall k | 0 <= k < |keys| :: Same(Lookup(x, keys[k]), Lookup(y, keys[k])) }

  lemma {:induction false} RestUnique(
      x: seq<Field>, kx: seq<string>, r: string, y: seq<Field>, ky: seq<string>, s: string)
    requires ValidFields(x) && ValidFields(y) && KeysOf(x, kx) && KeysOf(y, ky)
    requires kx != [] && ky != [] && kx[0] == ky[0]
    requires AfterField(x, kx, r) == AfterField(y, ky, s) && Same(Lookup(x, kx[0]), Lookup(y, kx[0]))
    ensures kx == ky && r == s && SameAt(x, y, kx)
    decreases x, |kx|, 0
  {
    assert AfterField(x, kx, r)[0] == if |kx| == 1 then '}' else ',';
    assert AfterField(y, ky, s)[0] == if |ky| == 1 then '}' else ',';
    if |kx| == 1 {
      Cancel("}", r, s);
      assert kx == [kx[0]] && ky == [ky[0]];
    } else {
      Cancel(",", FieldsThen(x, kx[1..], r), FieldsThen(y, ky[1..], s));
      FieldsUnique(x, kx[1..], r, y, ky[1..], s);
      assert kx == [kx[0]] + kx[1..] && ky == [ky[0]] + ky[1..];
    }
  }

  lemma {:induction false} FieldUnique(x: seq<Field>, k: string, r: string, y: seq<Field>, l: string, s: string)
    requires ValidFields(x) && ValidFields(y) && HasKey(x, k) && HasKey(y, l) && Stops(r) && Stops(s)
    requires PrintField(x, k) + r == PrintField(y, l) + s
    ensures k == l && r == s && Same(Lookup(x, k), Lookup(y, k))
    decreases x, 0
  {
    var v, w := Lookup(x, k), Lookup(y, l);
    var tv, tw := Text(v, "undefined"), Text(w, "undefined");
    assert exists i | 0 <= i < |x| :: x[i].value == v;
    FieldOpens(x, k, r);
    FieldOpens(y, l, s);
    Cancel("\"", Quoted(k, ":" + (tv + r)), Quoted(l, ":" + (tw + s)));
    QuoteUnique(k, ":" + (tv + r), l, ":" + (tw + s));
    Cancel(":", tv + r, tw + s);
    TextUnique(v, r, w, s, "undefined");
  }

  lemma LookupField(fields: seq<Field>, k: nat)
    requires DistinctKeys(fields) && k < |fields|
    ensures HasKey(fields, fields[k].key) && Lookup(fields, fields[k].key) == fields[k].value
  {
    assert HasKey(fields, fields[k].key);
    var i :| 0 <= i < |fields| && fields[i].key == fields[k].key && fields[i].value == Lookup(fields, fields[k].key);
  }

  lemma {:induction false} ObjectUnique(a: Json, r: string, b: Json, s: string)
    requires a.Obj? && b.Obj? && Valid(a) && Valid(b) && Print(a) + r == Print(b) + s
    ensures Same(a, b) && r == s
    decreases a, 1
  {
    var x, y := a.fields, b.fields;
    ObjectOpens(a, r);
    ObjectOpens(b, s);
    Cancel("{", FieldsThen(x, SortedKeys(x), r), FieldsThen(y, SortedKeys(y), s));
    FieldsUnique(x, SortedKeys(x), r, y, SortedKeys(y), s);
    SameFromKeys(x, y);
  }

  lemma SameFromKeys(x: seq<Field>, y: seq<Field>)
    requires DistinctKeys(x) && KeysOf(x, SortedKeys(x)) && SortedKeys(x) == SortedKeys(y) && KeysOf(y, SortedKeys(x))
    requires SameAt(x, y, SortedKeys(x))
    ensures Same(Obj(x), Obj(y))
  {
    forall k | 0 <= k < |x| ensures HasKey(y, x[k].key) && Same(x[k].value, Lookup(y, x[k].key)) {
      LookupField(x, k);
      SortedKeysHave(x, x[k].key);
      SortedKeysHave(y, x[k].key);
    }
    forall k | 0 <= k < |y| ensures HasKey(x, y[k].key) {
      assert HasKey(y, y[k].key);
      SortedKeysHave(x, y[k].key);
      SortedKeysHave(y, y[k].key);
    }
  }

  // ----- values determine texts --------------------------------------------------------------------

  lemma {:induction false} SameText(a: Json, b: Json, hole: string)
    requires Valid(a) && Valid(b) && Same(a, b)
    ensures Text(a, hole) == Text(b, hole)
    decreases a, 1
  {
    match (a, b)
    case (Arr(x), Arr(y)) =>
      if Items(x) != [] { SameItems(Items(x), Items(y)); }
      PrintsAsItems(x);
      PrintsAsItems(y);
    case (Obj(x), Obj(y)) =>
      SameKeys(x, y);
      SortedKeysAreKeys(x);
      SortedKeysAreKeys(y);
      SameFields(x, y, SortedKeys(x));
    case _ =>
  }

  lemma {:induction false} SameItems(x: seq<Json>, y: seq<Json>)
    requires |x| == |y| && forall k | 0 <= k < |x| :: Valid(x[k]) && Valid(y[k]) && Same(x[k], y[k])
    ensures PrintItems(x) == PrintItems(y)
    decreases x
  {
    if x != [] {
      SameText(x[0], y[0], "");
      SameItems(x[1..], y[1..]);
    }
  }

  lemma SameKeys(x: seq<Field>, y: seq<Field>)
    requires DistinctKeys(x) && DistinctKeys(y)
    requires (forall k | 0 <= k < |x| :: HasKey(y, x[k].key)) && (forall k | 0 <= k < |y| :: HasKey(x, y[k].key))
    ensures SortedKeys(x) == SortedKeys(y)
  {
    KeysSorted(x);
    KeysSorted(y);
    forall k ensures k in SortedKeys(x) <==> k in SortedKeys(y) {
      SortedKeysHave(x, k);
      SortedKeysHave(y, k);
    }
    SortedIsUnique(SortedKeys(x), SortedKeys(y));
  }

  lemma {:induction false} SameFields(x: seq<Field>, y: seq<Field>, keys: seq<string>)
    requires ValidFields(x) && ValidFields(y) && DistinctKeys(x) && KeysOf(x, keys) && KeysOf(y, keys)
    requires forall k | 0 <= k < |x| :: HasKey(y, x[k].key) && Same(x[k].value, Lookup(y, x[k].key))
    ensures PrintFields(x, keys) == PrintFields(y, keys)
    decreases x, |keys|
  {
    if keys != [] {
      var i :| 0 <= i < |x| && x[i].key == keys[0] && x[i].value == Lookup(x, keys[0]);
      SameText(x[i].value, Lookup(y, keys[0]), "undefined");
      SameFields(x, y, keys[1..]);
    }
  }

  // ----- the printer -------------------------------------------------------------------------------

  /** The printer is unambiguous: equal texts are exactly equal values, up to object key order. */
  lemma PrintsAlikeIffSame(a: Json, b: Json)
    requires Valid(a) && Valid(b)
    ensures StableSerialize(a) == StableSerialize(b) <==> Same(a, b)
  {
    if Same(a, b) { SameText(a, b, ""); }
    if StableSerialize(a) == StableSerialize(b) {
      if !a.Undefined? {
        assert Text(a, "") + "" == Text(b, "") + "";
        TextUnique(a, "", b, "", "");
      }
    }
  }

  /** The one pair of arrays of different length that print alike. */
  lemma UndefinedVanishes()
    ensures StableSerialize(Arr([Undefined])) == StableSerialize(Arr([])) == Some("[]")
  {
    PrintsAsItems([Undefined]);
    var none: seq<Json> := [];
    assert Print(Arr(none)) == "[" + PrintItems(none) + "]" == "[" + "" + "]" == "[]";
  }
}
