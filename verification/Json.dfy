/**
 Canonical JSON as the alert pipeline serialises it: sorted keys, no blanks, UTF-8.
 A value is canonical, so two canonical byte strings are equal exactly when the values are;
 only the byte sizes are computed, and they are compositional.
 */
module Json {

  datatype Option<+T> = None | Some(value: T)

  /** A finite float, with the shortest text that reads back as it. */
  datatype Float = Float(text: string, value: real)

  datatype Json =
    | JNull
    | JBool(b: bool)
    | JInt(n: int)
    | JFloat(f: Float)
    | JStr(s: string)
    | JArr(items: seq<Json>)
    | JObj(fields: seq<Field>)

  datatype Field = Field(key: string, val: Json)

  /** Bytes one character takes inside a JSON string: short escape, \u escape, or UTF-8. */
  function CharSize(c: char): (n: nat)
    ensures 1 <= n <= 6
  {
    if c in {'\"', '\\', '\n', '\r', '\t', '\U{08}', '\U{0C}'} then 2
    else if c < '\U{20}' then 6
    else if c < '\U{80}' then 1
    else if c < '\U{0800}' then 2
    else if c < '\U{10000}' then 3
    else 4
  }

  function CharsSize(s: string): nat {
    if s == "" then 0 else CharSize(s[0]) + CharsSize(s[1..])
  }

  function StrSize(s: string): nat { 2 + CharsSize(s) }

  function DigitCount(n: nat): nat { if n < 10 then 1 else 1 + DigitCount(n / 10) }

  function IntSize(n: int): nat { if n < 0 then 1 + DigitCount(-n) else DigitCount(n) }

  /** Length of the canonical UTF-8 encoding. */
  function Size(j: Json): nat
    decreases j, 1
  {
    match j
    case JNull => 4
    case JBool(b) => if b then 4 else 5
    case JInt(n) => IntSize(n)
    case JFloat(f) => |f.text|
    case JStr(s) => StrSize(s)
    case JArr(items) => 2 + ItemsSize(items)
    case JObj(fields) => 2 + FieldsSize(fields)
  }

  function ItemsSize(items: seq<Json>): nat
    decreases items, 0
  {
    if items == [] then 0
    else Size(items[0]) + (if |items| == 1 then 0 else 1) + ItemsSize(items[1..])
  }

  function FieldsSize(fields: seq<Field>): nat
    decreases fields, 0
  {
    if fields == [] then 0
    else
      StrSize(fields[0].key) + 1 + Size(fields[0].val)
      + (if |fields| == 1 then 0 else 1) + FieldsSize(fields[1..])
  }

  /** Bytes of the UTF-8 encoding of a plain string. */
  function Utf8Size(s: string): (n: nat)
    ensures |s| <= n
  {
    if s == "" then 0
    else
      (if s[0] < '\U{80}' then 1 else if s[0] < '\U{0800}' then 2 else if s[0] < '\U{10000}' then 3 else 4)
      + Utf8Size(s[1..])
  }

  /** PostgreSQL jsonb cannot hold U+0000 in a key or a string. */
  predicate JsonbSafe(j: Json)
    decreases j
  {
    match j
    case JStr(s) => NoNul(s)
    case JArr(items) => forall i | 0 <= i < |items| :: JsonbSafe(items[i])
    case JObj(fields) => forall i | 0 <= i < |fields| :: NoNul(fields[i].key) && JsonbSafe(fields[i].val)
    case _ => true
  }

  predicate NoNul(s: string) { '\0' !in s }

  /** `dict.get`: the value under a key, the last one written when a key repeats. */
  function Lookup(fields: seq<Field>, key: string): Option<Json> {
    if fields == [] then None
    else
      var last := fields[|fields| - 1];
      if last.key == key then Some(last.val) else Lookup(fields[..|fields| - 1], key)
  }

  /** Some field, and no later one of its key, holds this value. */
  predicate Holds(fields: seq<Field>, key: string, value: Json) {
    exists k | 0 <= k < |fields| :: fields[k] == Field(key, value) && forall j | k < j < |fields| :: fields[j].key != key
  }

  /** The last field under a key decides what is read under it. */
  lemma {:induction false} LookupIsLast(fields: seq<Field>, key: string, value: Json)
    ensures Lookup(fields, key) == Some(value) <==> Holds(fields, key, value)
  {
    if fields != [] {
      var n := |fields| - 1;
      var init := fields[..n];
      LookupIsLast(init, key, value);
      if fields[n].key != key {
        if k :| 0 <= k < |init| && init[k] == Field(key, value) && forall j | k < j < |init| :: init[j].key != key {
          assert fields[k] == Field(key, value) && forall j | k < j < |fields| :: fields[j].key != key;
        }
        if k :| 0 <= k < |fields| && fields[k] == Field(key, value) && forall j | k < j < |fields| :: fields[j].key != key {
          assert init[k] == Field(key, value) && forall j | k < j < |init| :: init[j].key != key;
        }
      }
    }
  }

  lemma {:induction false} CharsSizeBounds(s: string)
    ensures |s| <= CharsSize(s) <= 6 * |s|
  {
    if s != "" {
      CharsSizeBounds(s[1..]);
    }
  }

  lemma {:induction false} DigitCountBound(n: nat, k: nat)
    requires k >= 1 && n < Pow10(k)
    ensures DigitCount(n) <= k
  {
    if k > 1 && n >= 10 {
      DigitCountBound(n / 10, k - 1);
    }
  }

  function Pow10(k: nat): nat { if k == 0 then 1 else 10 * Pow10(k - 1) }

  function Strings(refs: seq<string>): seq<Json> {
    if refs == [] then [] else [JStr(refs[0])] + Strings(refs[1..])
  }

  lemma {:induction false} StringsAt(refs: seq<string>)
    ensures |Strings(refs)| == |refs|
    ensures forall i | 0 <= i < |refs| :: Strings(refs)[i] == JStr(refs[i])
  {
    if refs != [] {
      StringsAt(refs[1..]);
    }
  }

  /** A JSON list of n strings of at most `limit` characters takes 3n+1 to (6*limit+3)n+1 bytes, or 2 when empty. */
  lemma {:induction false} StringListSize(refs: seq<string>, limit: nat)
    requires forall i | 0 <= i < |refs| :: |refs[i]| <= limit
    ensures refs == [] ==> Size(JArr(Strings(refs))) == 2
    ensures refs != [] ==> 3 * |refs| + 1 <= Size(JArr(Strings(refs))) <= (6 * limit + 3) * |refs| + 1
  {
    ItemsBounds(refs, limit);
  }

  lemma {:induction false} ItemsBounds(refs: seq<string>, limit: nat)
    requires forall i | 0 <= i < |refs| :: |refs[i]| <= limit
    ensures refs == [] ==> ItemsSize(Strings(refs)) == 0
    ensures refs != [] ==> 3 * |refs| - 1 <= ItemsSize(Strings(refs)) <= (6 * limit + 3) * |refs| - 1
  {
    if refs != [] {
      StringsAt(refs);
      var rest := refs[1..];
      ItemsBounds(rest, limit);
      CharsSizeBounds(refs[0]);
      assert Strings(refs)[1..] == Strings(rest);
      assert (6 * limit + 3) * |refs| == (6 * limit + 3) * |rest| + (6 * limit + 3);
    }
  }
}
