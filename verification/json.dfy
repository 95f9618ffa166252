/** JavaScript values as the servers see them after `JSON.parse`, plus `undefined` for a
    property that is absent. Numbers are abstracted to integers. */
module Json {
  import opened Wrappers

  datatype Value =
    | Undefined
    | Null
    | Bool(b: bool)
    | Num(n: int)
    | Str(s: string)
    | Arr(items: seq<Value>)
    | Obj(fields: map<string, Value>)

  /** JavaScript truthiness: the test behind `if (x)`, `!x` and `x || d`. */
  predicate Truthy(v: Value) {
    match v
    case Undefined => false
    case Null => false
    case Bool(b) => b
    case Num(n) => n != 0
    case Str(s) => s != ""
    case Arr(_) => true
    case Obj(_) => true
  }

  /** The JavaScript expression `a || d`. */
  function Or(a: Value, d: Value): Value {
    if Truthy(a) then a else d
  }

  // ---------------------------------------------------------------------------
  // String conversion, as done by a template literal `${v}`
  // ---------------------------------------------------------------------------

  function DigitChar(d: nat): (c: char)
    requires d < 10
    ensures '0' <= c <= '9' && c as int - '0' as int == d
  {
    "0123456789"[d]
  }

  /** The number a string of decimal digits denotes, most significant digit first. */
  ghost function DigitsValue(s: string): int
    decreases |s|
  {
    if |s| == 0 then 0 else DigitsValue(s[..|s| - 1]) * 10 + (s[|s| - 1] as int - '0' as int)
  }

  /** Decimal notation of a natural number: digits only, no leading zero, and denoting `n`. */
  function NatToString(n: nat): (r: string)
    ensures |r| > 0
    ensures forall i :: 0 <= i < |r| ==> '0' <= r[i] <= '9'
    ensures |r| > 1 ==> r[0] != '0'
    ensures DigitsValue(r) == n
    decreases n
  {
    if n < 10 then
      [DigitChar(n)]
    else
      var r := NatToString(n / 10) + [DigitChar(n % 10)];
      assert r[..|r| - 1] == NatToString(n / 10);
      r
  }

  /** `String(i)` for an integer: a minus sign before the digits of a negative number. */
  function IntToString(i: int): (r: string)
    ensures i >= 0 ==> DigitsValue(r) == i && (forall k :: 0 <= k < |r| ==> '0' <= r[k] <= '9')
    ensures i >= 0 ==> r == NatToString(i)
    ensures i < 0 ==> |r| > 1 && r[0] == '-' && DigitsValue(r[1..]) == -i && r[1..] == NatToString(-i)
    ensures |r| > 1 ==> r[0] != '0'
  {
    if i < 0 then
      var r := "-" + NatToString(-i);
      assert r[1..] == NatToString(-i);
      r
    else
      NatToString(i)
  }

  /** Concatenation of `parts` separated by `sep`, as `Array.prototype.join`. */
  function JoinWith(parts: seq<string>, sep: string): string
    decreases |parts|
  {
    if |parts| == 0 then ""
    else if |parts| == 1 then parts[0]
    else parts[0] + sep + JoinWith(parts[1..], sep)
  }

  /** `String(v)`: the text a template literal inserts for `v`. An array joins its
      elements with commas, writing `null` and `undefined` elements as empty text. */
  function ToText(v: Value): (r: string)
    ensures v.Str? ==> r == v.s
    ensures v.Num? ==> r == IntToString(v.n)
    ensures v.Num? && v.n >= 0 ==> DigitsValue(r) == v.n && (forall k :: 0 <= k < |r| ==> '0' <= r[k] <= '9')
    ensures v.Num? && v.n < 0 ==> |r| > 1 && r[0] == '-' && DigitsValue(r[1..]) == -v.n
    ensures v.Null? ==> r == "null"
    ensures v.Undefined? ==> r == "undefined"
    ensures v.Obj? ==> r == "[object Object]"
    decreases v
  {
    match v
    case Undefined => "undefined"
    case Null => "null"
    case Bool(b) => if b then "true" else "false"
    case Num(n) => IntToString(n)
    case Str(s) => s
    case Arr(items) =>
      JoinWith(seq(|items|, i requires 0 <= i < |items| =>
                     if items[i].Undefined? || items[i].Null? then "" else ToText(items[i])), ",")
    case Obj(_) => "[object Object]"
  }

  // ---------------------------------------------------------------------------
  // `includes` with a string argument
  // ---------------------------------------------------------------------------

  /** `needle` occurs in `hay` starting at position `k`. */
  ghost predicate OccursAt(needle: string, hay: string, k: int) {
    0 <= k && k + |needle| <= |hay| && hay[k..k + |needle|] == needle
  }

  lemma OccursShift(needle: string, hay: string, k: int)
    requires |hay| > 0 && k >= 0
    ensures OccursAt(needle, hay[1..], k) <==> OccursAt(needle, hay, k + 1)
  {
    if k + |needle| <= |hay| - 1 {
      assert hay[1..][k..k + |needle|] == hay[k + 1..k + 1 + |needle|];
    }
  }

  /** `String.prototype.includes`: whether `needle` is a substring of `hay`. */
  function Contains(hay: string, needle: string): (r: bool)
    ensures r <==> exists k :: OccursAt(needle, hay, k)
    decreases |hay|
  {
    if |needle| > |hay| then
      false
    else if hay[..|needle|] == needle then
      assert OccursAt(needle, hay, 0);
      true
    else
      var rest := Contains(hay[1..], needle);
      assert rest <==> exists k :: OccursAt(needle, hay, k) by {
        if rest {
          var k :| OccursAt(needle, hay[1..], k);
          OccursShift(needle, hay, k);
        }
        if exists k :: OccursAt(needle, hay, k) {
          var k :| OccursAt(needle, hay, k);
          assert k != 0;
          OccursShift(needle, hay, k - 1);
        }
      }
      rest
  }

  /** `v.includes(needle)` for a string `needle`: substring search on a string, element
      search (strict equality) on an array, and `None` for every other value, which has no
      `includes` method, so that the call throws a TypeError. */
  function Includes(v: Value, needle: string): (r: Option<bool>)
    ensures r.Some? <==> v.Str? || v.Arr?
    ensures v.Str? ==> r == Some(exists k :: OccursAt(needle, v.s, k))
    ensures v.Arr? ==> r == Some(Str(needle) in v.items)
  {
    match v
    case Str(s) => Some(Contains(s, needle))
    case Arr(items) => Some(Str(needle) in items)
    case _ => None
  }
}
