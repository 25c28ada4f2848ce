/**
 * The JavaScript values that the content graph delivers, and the small part of
 * JavaScript's object semantics that the page code relies on: truthiness,
 * property reads, object spread and `includes`.
 */
module JsValue {

  /** A JavaScript value as it arrives in a query response (no functions, no symbols). */
  datatype Json =
    | Undefined
    | Null
    | Bool(b: bool)
    | Num(n: int)
    | Str(s: string)
    | Arr(items: seq<Json>)
    | Obj(fields: map<string, Json>)

  /** A plain object, by its own enumerable properties. */
  type Record = map<string, Json>

  datatype Option<+T> = None | Some(value: T) {
    predicate IsFailure() { None? }

    function PropagateFailure<U>(): Option<U>
      requires None?
    {
      None
    }

    function Extract(): T
      requires Some?
    {
      value
    }
  }

  /** A computation that either yields a value or throws a `TypeError`. */
  datatype Result<+T> = Ok(value: T) | TypeError {
    predicate IsFailure() { TypeError? }

    function PropagateFailure<U>(): Result<U>
      requires TypeError?
    {
      TypeError
    }

    function Extract(): T
      requires Ok?
    {
      value
    }
  }

  /**
   * JavaScript's `ToBoolean` (numbers are integers here, so NaN does not arise):
   * `null`, `undefined`, `false`, `0` and `""` are falsy; every array and object,
   * even an empty one, is truthy.
   */
  predicate Truthy(v: Json) {
    match v
    case Undefined => false
    case Null => false
    case Bool(b) => b
    case Num(n) => n != 0
    case Str(s) => s != ""
    case Arr(_) => true
    case Obj(_) => true
  }

  lemma TruthyTable(v: Json)
    ensures Nullish(v) ==> !Truthy(v)
    ensures v.Arr? || v.Obj? ==> Truthy(v)
    ensures v.Bool? ==> Truthy(v) == v.b
    ensures v.Num? ==> (Truthy(v) <==> v.n != 0)
    ensures v.Str? ==> (Truthy(v) <==> v.s != "")
  {
  }

  /** `null` or `undefined`: reading a property of such a value throws. */
  predicate Nullish(v: Json) {
    v.Undefined? || v.Null?
  }

  /**
   * `v.k` for a non-nullish `v`, and `v?.k` for any `v`, where `k` is a property
   * name that no built-in prototype defines (all names the page code reads are such).
   */
  function Get(v: Json, k: string): Json {
    if v.Obj? && k in v.fields then v.fields[k] else Undefined
  }

  /** A property read never throws here: an own field gives its value, anything else `undefined`. */
  lemma GetReads(v: Json, k: string)
    ensures v.Obj? && k in v.fields ==> Get(v, k) == v.fields[k]
    ensures !(v.Obj? && k in v.fields) ==> Get(v, k).Undefined?
    ensures Get(v, k) == if v.Obj? then Field(v.fields, k) else Undefined
  {
  }

  /** `r.k` on a plain object. */
  function Field(r: Record, k: string): Json {
    if k in r then r[k] else Undefined
  }

  function DigitChar(d: nat): char
    requires d < 10
  {
    ('0' as int + d) as char
  }

  /** The property key of an array index or string index. */
  function DecimalString(n: nat): (key: string)
    ensures |key| >= 1
    decreases n
  {
    if n < 10 then [DigitChar(n)] else DecimalString(n / 10) + [DigitChar(n % 10)]
  }

  /** Distinct indices have distinct keys. */
  lemma {:induction false} DecimalStringInjective(a: nat, b: nat)
    requires DecimalString(a) == DecimalString(b)
    ensures a == b
    decreases a
  {
    var s := DecimalString(a);
    if a >= 10 && b >= 10 {
      assert s[|s| - 1] == DigitChar(a % 10) == DigitChar(b % 10);
      assert s[..|s| - 1] == DecimalString(a / 10) == DecimalString(b / 10);
      DecimalStringInjective(a / 10, b / 10);
    } else if a < 10 && b < 10 {
      assert s[0] == DigitChar(a) == DigitChar(b);
    }
  }

  /** The keys of the indices below `n`. */
  function IndexKeys(n: nat): set<string> {
    set i | 0 <= i < n :: DecimalString(i)
  }

  lemma IndexKeysSnoc(n: nat)
    ensures IndexKeys(n + 1) == IndexKeys(n) + {DecimalString(n)}
  {
    forall key | key in IndexKeys(n + 1)
      ensures key in IndexKeys(n) + {DecimalString(n)}
    {
      var i :| 0 <= i < n + 1 && key == DecimalString(i);
      if i < n {
        assert key in IndexKeys(n);
      }
    }
    forall key | key in IndexKeys(n)
      ensures key in IndexKeys(n + 1)
    {
      var i :| 0 <= i < n && key == DecimalString(i);
    }
  }

  /** The own enumerable properties of an array or string: one per index. */
  function IndexFields(items: seq<Json>): Record
    decreases |items|
  {
    if items == [] then map[]
    else IndexFields(items[..|items| - 1])[DecimalString(|items| - 1) := items[|items| - 1]]
  }

  /** The keys of an index object are the decimal keys of its indices. */
  lemma {:induction false} IndexFieldsKeys(items: seq<Json>)
    ensures IndexFields(items).Keys == IndexKeys(|items|)
    decreases |items|
  {
    if items != [] {
      var n := |items| - 1;
      IndexFieldsKeys(items[..n]);
      IndexKeysSnoc(n);
    }
  }

  /** Index `i` is stored under its decimal key. */
  lemma {:induction false} IndexFieldsAt(items: seq<Json>, i: nat)
    requires i < |items|
    ensures DecimalString(i) in IndexFields(items) && IndexFields(items)[DecimalString(i)] == items[i]
    decreases |items|
  {
    var n := |items| - 1;
    if i < n {
      IndexFieldsAt(items[..n], i);
      if DecimalString(i) == DecimalString(n) {
        DecimalStringInjective(i, n);
      }
    }
  }

  /** The one-character strings of `s`, as the elements of its spread. */
  function Chars(s: string): (items: seq<Json>)
    ensures |items| == |s|
  {
    seq(|s|, i requires 0 <= i < |s| => Str([s[i]]))
  }

  /** `{ ...v }`: the own enumerable properties of `v`; `null`, `undefined`, booleans and numbers have none. */
  function Spread(v: Json): Record {
    match v
    case Obj(m) => m
    case Arr(items) => IndexFields(items)
    case Str(s) => IndexFields(Chars(s))
    case _ => map[]
  }

  /**
   * A spread object copies an object's fields, holds an array's elements (and a
   * string's characters) under their decimal index keys, and is empty otherwise.
   */
  lemma SpreadFields(v: Json)
    ensures v.Obj? ==> Spread(v) == v.fields
    ensures v.Arr? ==> Spread(v).Keys == IndexKeys(|v.items|)
    ensures v.Arr? ==> forall i :: 0 <= i < |v.items| ==> DecimalString(i) in Spread(v) && Spread(v)[DecimalString(i)] == v.items[i]
    ensures v.Str? ==> Spread(v).Keys == IndexKeys(|v.s|)
    ensures v.Str? ==> forall i :: 0 <= i < |v.s| ==> DecimalString(i) in Spread(v) && Spread(v)[DecimalString(i)] == Str([v.s[i]])
    ensures !(v.Obj? || v.Arr? || v.Str?) ==> Spread(v) == map[]
  {
    match v
    case Arr(items) =>
      IndexFieldsKeys(items);
      forall i | 0 <= i < |items|
        ensures DecimalString(i) in Spread(v) && Spread(v)[DecimalString(i)] == items[i]
      {
        IndexFieldsAt(items, i);
      }
    case Str(s) =>
      IndexFieldsKeys(Chars(s));
      forall i | 0 <= i < |s|
        ensures DecimalString(i) in Spread(v) && Spread(v)[DecimalString(i)] == Str([s[i]])
      {
        IndexFieldsAt(Chars(s), i);
      }
    case _ =>
  }

  /** `s.startsWith(prefix)` */
  predicate StartsWith(s: string, prefix: string) {
    |prefix| <= |s| && s[..|prefix|] == prefix
  }

  /** `sub` occurs in `s` starting at index `i`. */
  predicate OccursAt(s: string, sub: string, i: int) {
    0 <= i <= |s| - |sub| && s[i..i + |sub|] == sub
  }

  /** `s.includes(sub)` on strings: `sub` occurs in `s` at some position. */
  function Contains(s: string, sub: string): (r: bool)
    ensures r <==> exists i :: OccursAt(s, sub, i)
    decreases |s|
  {
    if StartsWith(s, sub) then
      assert OccursAt(s, sub, 0);
      true
    else if |s| == 0 then
      false
    else
      var r := Contains(s[1..], sub);
      assert r ==> exists i :: OccursAt(s, sub, i) by {
        if r {
          var j :| OccursAt(s[1..], sub, j);
          assert s[j + 1..j + 1 + |sub|] == s[1..][j..j + |sub|];
          assert OccursAt(s, sub, j + 1);
        }
      }
      assert (exists i :: OccursAt(s, sub, i)) ==> r by {
        if exists i :: OccursAt(s, sub, i) {
          var i :| OccursAt(s, sub, i);
          assert i != 0;
          assert s[1..][i - 1..i - 1 + |sub|] == s[i..i + |sub|];
          assert OccursAt(s[1..], sub, i - 1);
        }
      }
      r
  }

  /**
   * `v.includes(needle)`: a substring test on strings, an element test on arrays;
   * every other value has no `includes` method, so the call throws.
   */
  function Includes(v: Json, needle: string): (r: Result<bool>)
    ensures r.Ok? <==> v.Str? || v.Arr?
    ensures v.Str? ==> r == Ok(exists i :: OccursAt(v.s, needle, i))
    ensures v.Arr? ==> r == Ok(Str(needle) in v.items)
  {
    match v
    case Str(s) => Ok(Contains(s, needle))
    case Arr(items) => Ok(Str(needle) in items)
    case _ => TypeError
  }
}
