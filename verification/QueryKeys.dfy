/**
 Query keys of the mini-program and the text they are compared by.

 A number is represented by the text it prints as, so leaves print injectively by construction.
 Characters stand for UTF-16 code units; keys are sorted by them.
 */
module QueryKeys {
  import opened Wrappers

  datatype Json =
    | Undefined
    | Null
    | Bool(value: bool)
    | Num(text: string)
    | Str(chars: string)
    | Arr(items: seq<Json>)
    | Obj(fields: seq<Field>)     // own enumerable properties in insertion order

  datatype Field = Field(key: string, value: Json)

  predicate NumberText(s: string) { s != "" && forall k | 0 <= k < |s| :: s[k] in "0123456789+-.eE" }

  predicate HasKey(fields: seq<Field>, key: string) { exists k | 0 <= k < |fields| :: fields[k].key == key }

  predicate DistinctKeys(fields: seq<Field>) {
    forall i, j | 0 <= i < j < |fields| :: fields[i].key != fields[j].key
  }

  predicate Valid(v: Json) {
    match v
    case Num(text) => NumberText(text)
    case Arr(items) => forall k | 0 <= k < |items| :: Valid(items[k])
    case Obj(fields) => DistinctKeys(fields) && forall k | 0 <= k < |fields| :: Valid(fields[k].value)
    case _ => true
  }

  function Lookup(fields: seq<Field>, key: string): (v: Json)
    requires HasKey(fields, key)
    ensures exists k | 0 <= k < |fields| :: fields[k].key == key && fields[k].value == v
  {
    if fields[0].key == key then fields[0].value
    else
      assert HasKey(fields[1..], key) by {
        var k :| 0 <= k < |fields| && fields[k].key == key;
        assert fields[1..][k - 1].key == key;
      }
      Lookup(fields[1..], key)
  }

  // ----- printing ----------------------------------------------------------------------------------

  const HEX := "0123456789abcdef"

  // How JSON writes one character of a string.
  function EscapeChar(c: char): (s: string)
    ensures s != ""
  {
    if c == '"' then "\\\""
    else if c == '\\' then "\\\\"
    else if c == '\U{8}' then "\\b"
    else if c == '\t' then "\\t"
    else if c == '\n' then "\\n"
    else if c == '\U{c}' then "\\f"
    else if c == '\r' then "\\r"
    else if c < ' ' then ['\\', 'u', '0', '0', HEX[c as int / 16], HEX[c as int % 16]]
    else [c]
  }

  function Escape(s: string): string { if s == "" then "" else EscapeChar(s[0]) + Escape(s[1..]) }

  function Quote(s: string): string { "\"" + Escape(s) + "\"" }

  predicate Before(a: string, b: string) {
    b != "" && (a == "" || a[0] < b[0] || (a[0] == b[0] && Before(a[1..], b[1..])))
  }

  function Insert(key: string, sorted: seq<string>): seq<string> {
    if sorted == [] || !Before(sorted[0], key) then [key] + sorted else [sorted[0]] + Insert(key, sorted[1..])
  }

  function SortedKeys(fields: seq<Field>): seq<string> {
    if fields == [] then [] else Insert(fields[0].key, SortedKeys(fields[1..]))
  }

  predicate KeysOf(fields: seq<Field>, keys: seq<string>) { forall k | 0 <= k < |keys| :: HasKey(fields, keys[k]) }

  lemma SortedKeysAreKeys(fields: seq<Field>)
    ensures KeysOf(fields, SortedKeys(fields))
  {
    forall i | 0 <= i < |SortedKeys(fields)| ensures HasKey(fields, SortedKeys(fields)[i]) {
      SortedKeysHave(fields, SortedKeys(fields)[i]);
    }
  }

  lemma {:induction false} InsertHas(key: string, sorted: seq<string>, x: string)
    ensures x in Insert(key, sorted) <==> x == key || x in sorted
  {
    if sorted != [] && Before(sorted[0], key) { InsertHas(key, sorted[1..], x); }
  }

  lemma {:induction false} SortedKeysHave(fields: seq<Field>, x: string)
    ensures x in SortedKeys(fields) <==> HasKey(fields, x)
  {
    if fields != [] {
      InsertHas(fields[0].key, SortedKeys(fields[1..]), x);
      SortedKeysHave(fields[1..], x);
      if HasKey(fields, x) && fields[0].key != x {
        var k :| 0 <= k < |fields| && fields[k].key == x;
        assert fields[1..][k - 1].key == x;
      }
    }
  }

  // The text of a value where `hole` stands for undefined: nothing between the commas of an array,
  // the word itself after the colon of an object.
  function Text(v: Json, hole: string): string
    decreases v, 1
  {
    if v.Undefined? then hole else Print(v)
  }

  function Print(v: Json): string
    requires !v.Undefined?
    decreases v, 0
  {
    match v
    case Null => "null"
    case Bool(b) => if b then "true" else "false"
    case Num(text) => text
    case Str(s) => Quote(s)
    case Arr(items) => "[" + PrintItems(items) + "]"
    case Obj(fields) =>
      SortedKeysAreKeys(fields);
      "{" + PrintFields(fields, SortedKeys(fields)) + "}"
  }

  function PrintItems(items: seq<Json>): string
    decreases items
  {
    if items == [] then ""
    else Text(items[0], "") + (if |items| == 1 then "" else "," + PrintItems(items[1..]))
  }

  function PrintFields(fields: seq<Field>, keys: seq<string>): string
    requires KeysOf(fields, keys)
    decreases fields, |keys|
  {
    if keys == [] then ""
    else
      PrintField(fields, keys[0]) + (if |keys| == 1 then "" else "," + PrintFields(fields, keys[1..]))
  }

  function PrintField(fields: seq<Field>, key: string): string
    requires HasKey(fields, key)
    decreases fields, 0
  {
    var v := Lookup(fields, key);
    assert exists k | 0 <= k < |fields| :: fields[k].value == v;
    Quote(key) + ":" + Text(v, "undefined")
  }

  // stableSerialize: undefined prints as no string at all.
  function StableSerialize(v: Json): Option<string> { if v.Undefined? then None else Some(Print(v)) }

  // ----- what a text identifies --------------------------------------------------------------------

  // An array that holds just undefined prints like the empty array.
  function Items(items: seq<Json>): seq<Json> { if items == [Undefined] then [] else items }

  // Equal up to the order of object keys.
  predicate Same(a: Json, b: Json)
    decreases a
  {
    match (a, b)
    case (Arr(x), Arr(y)) =>
      |Items(x)| == |Items(y)| && forall k | 0 <= k < |Items(x)| :: Same(x[k], y[k])
    case (Obj(x), Obj(y)) =>
      && (forall k | 0 <= k < |x| :: HasKey(y, x[k].key) && Same(x[k].value, Lookup(y, x[k].key)))
      && (forall k | 0 <= k < |y| :: HasKey(x, y[k].key))
    case _ => a == b
  }
}
