/**
 * The slice of JavaScript semantics the wallet client relies on: JSON values as
 * `JSON.parse` produces them, optional chaining (`?.`), nullish coalescing (`??`),
 * truthiness (`||`, `!`), `String(v)`, `JSON.stringify(v)`, `Object.values(v)`,
 * `String.prototype.trim`, the UTF-16 `length` of a string, `toLowerCase` on the
 * characters that matter here, and `includes`.
 *
 * `undefined` is `None` of an `Option<Json>`; `null` is `JNull`.
 */
module Js {
  import opened Wrappers

  /** A JSON value. Numbers are integers in this model (see README, "Left out"). */
  datatype Json =
    | JNull
    | JBool(b: bool)
    | JNum(n: int)
    | JStr(s: string)
    | JArr(items: seq<Json>)
    | JObj(members: seq<Member>)

  /** One `"key": value` pair of an object, in source order. */
  datatype Member = Member(key: string, value: Json)

  // ---------------------------------------------------------------------------
  // Property access, `??` and truthiness
  // ---------------------------------------------------------------------------

  /** `null` or `undefined`: the only values `??` and `?.` fall through on. */
  predicate Nullish(v: Option<Json>) {
    v.None? || v.value.JNull?
  }

  /** Own property `key` of an object's members; `JSON.parse` keeps the last of repeated keys. */
  function Field(ms: seq<Member>, key: string): (r: Option<Json>)
  {
    if ms == [] then None
    else if ms[|ms| - 1].key == key then Some(ms[|ms| - 1].value)
    else
      var r := Field(ms[..|ms| - 1], key);
      assert forall i :: 0 <= i < |ms| - 1 ==> ms[..|ms| - 1][i] == ms[i];
      r
  }

  /** A read finds a member with the key, and comes back empty exactly when no member has it. */
  lemma {:induction false} FieldSpec(ms: seq<Member>, key: string)
    ensures Field(ms, key).None? <==> forall i :: 0 <= i < |ms| ==> ms[i].key != key
    ensures Field(ms, key).Some? ==> exists i :: 0 <= i < |ms| && ms[i] == Member(key, Field(ms, key).value)
  {
    if ms != [] && ms[|ms| - 1].key != key {
      var init := ms[..|ms| - 1];
      FieldSpec(init, key);
      assert forall i :: 0 <= i < |init| ==> init[i] == ms[i];
    }
  }

  /**
   * `v?.key`. On a value that is neither `null` nor `undefined` this is also the
   * plain read `v.key`: strings, numbers, booleans and arrays have none of the
   * property names this client reads, so the read gives `undefined`.
   */
  function Get(v: Option<Json>, key: string): (r: Option<Json>)
    ensures Nullish(v) ==> r.None?
    ensures v.Some? && v.value.JObj? ==> r == Field(v.value.members, key)
    ensures v.Some? && !v.value.JObj? ==> r.None?
  {
    match v
    case Some(JObj(ms)) => Field(ms, key)
    case _ => None
  }

  /** `a ?? b`. */
  function Coalesce(a: Option<Json>, b: Option<Json>): (r: Option<Json>)
    ensures !Nullish(a) ==> r == a
    ensures Nullish(a) ==> r == b
  {
    if Nullish(a) then b else a
  }

  /**
   * `c[0] ?? c[1] ?? ... ?? fallback`: the first candidate that is neither
   * `null` nor `undefined`, else `fallback`. An empty string, `0` or `false`
   * stops the chain.
   */
  function FirstPresent(c: seq<Option<Json>>, fallback: Json): (r: Json)
    ensures forall i :: 0 <= i < |c| && !Nullish(c[i]) && (forall j :: 0 <= j < i ==> Nullish(c[j])) ==> r == c[i].value
    ensures (forall i :: 0 <= i < |c| ==> Nullish(c[i])) ==> r == fallback
    ensures r == fallback || (r != JNull && exists i :: 0 <= i < |c| && c[i] == Some(r))
  {
    if c == [] then fallback
    else if !Nullish(c[0]) then c[0].value
    else
      var r := FirstPresent(c[1..], fallback);
      assert forall i :: 1 <= i < |c| ==> c[1..][i - 1] == c[i];
      r
  }

  /** JavaScript truthiness: `undefined`, `null`, `false`, `0` and `""` are falsy. */
  predicate Truthy(v: Option<Json>) {
    match v
    case None => false
    case Some(JNull) => false
    case Some(JBool(b)) => b
    case Some(JNum(n)) => n != 0
    case Some(JStr(s)) => s != ""
    case Some(_) => true
  }

  /** `a || b`. */
  function Or(a: Option<Json>, b: Option<Json>): (r: Option<Json>)
    ensures Truthy(a) ==> r == a
    ensures !Truthy(a) ==> r == b
  {
    if Truthy(a) then a else b
  }

  /**
   * `??` and `||` part ways exactly on the falsy values that are not nullish:
   * the empty string, `0` and `false` stop a `??` chain but not an `||` chain.
   */
  lemma CoalesceVersusOr(a: Option<Json>, b: Option<Json>)
    ensures Coalesce(a, b) != Or(a, b) ==>
      a.Some? && (a.value == JStr("") || a.value == JNum(0) || a.value == JBool(false))
  {
  }

  /** Parsing `a ?? b ?? c` as `(a ?? b) ?? c` or `a ?? (b ?? c)` gives the same value. */
  lemma CoalesceAssociative(a: Option<Json>, b: Option<Json>, c: Option<Json>)
    ensures Coalesce(Coalesce(a, b), c) == Coalesce(a, Coalesce(b, c))
  {
  }

  /** `FirstPresent` is a chain of `??` ending in a defined value. */
  lemma {:induction false} FirstPresentIsCoalesceChain(c: seq<Option<Json>>, fallback: Json)
    ensures Some(FirstPresent(c, fallback)) == CoalesceAll(c, Some(fallback))
  {
    if c != [] {
      FirstPresentIsCoalesceChain(c[1..], fallback);
    }
  }

  /** `c[0] ?? (c[1] ?? (... ?? last))`, the right-nested reading of a chain. */
  function CoalesceAll(c: seq<Option<Json>>, last: Option<Json>): Option<Json> {
    if c == [] then last else Coalesce(c[0], CoalesceAll(c[1..], last))
  }

  // ---------------------------------------------------------------------------
  // Numbers as decimal text
  // ---------------------------------------------------------------------------

  predicate IsDigit(c: char) {
    '0' <= c <= '9'
  }

  predicate AllDigits(s: string) {
    forall i :: 0 <= i < |s| ==> IsDigit(s[i])
  }

  function DigitChar(d: nat): (c: char)
    requires d < 10
    ensures IsDigit(c) && (c as int) - ('0' as int) == d
  {
    (('0' as int) + d) as char
  }

  /** The value of a string of decimal digits (`""` is 0). */
  function DigitsValue(s: string): nat
    requires AllDigits(s)
  {
    if s == [] then 0
    else DigitsValue(s[..|s| - 1]) * 10 + ((s[|s| - 1] as int) - ('0' as int))
  }

  /** Decimal text of a natural number, without leading zeros. */
  function NatToString(n: nat): (s: string)
    ensures |s| >= 1 && AllDigits(s)
    ensures |s| > 1 ==> s[0] != '0'
  {
    if n < 10 then [DigitChar(n)]
    else
      var s := NatToString(n / 10) + [DigitChar(n % 10)];
      assert s[0] == NatToString(n / 10)[0];
      s
  }

  /** `String(n)` for an integer `n`. */
  function IntToString(n: int): (s: string)
    ensures |s| >= 1
    ensures n >= 0 ==> s == NatToString(n)
    ensures n < 0 ==> s == "-" + NatToString(-n)
  {
    if n < 0 then "-" + NatToString(-n) else NatToString(n)
  }

  /** Reading back the decimal text of `n` gives `n`. */
  lemma {:induction false} NatToStringRoundTrip(n: nat)
    ensures DigitsValue(NatToString(n)) == n
  {
    if n >= 10 {
      NatToStringRoundTrip(n / 10);
      var s := NatToString(n);
      assert s[..|s| - 1] == NatToString(n / 10);
    }
  }

  /** The longest prefix of `s` made of digits. */
  function LeadingDigits(s: string): (r: string)
    ensures AllDigits(r) && |r| <= |s| && r == s[..|r|]
    ensures |r| == |s| || !IsDigit(s[|r|])
  {
    if s != [] && IsDigit(s[0]) then
      var r := [s[0]] + LeadingDigits(s[1..]);
      assert s == [s[0]] + s[1..];
      r
    else []
  }

  /** Digits followed by a non-digit (or nothing): the leading digits are exactly those digits. */
  lemma LeadingDigitsStopAtNonDigit(a: string, b: string)
    requires AllDigits(a) && (b == [] || !IsDigit(b[0]))
    ensures LeadingDigits(a + b) == a
  {
    var s := a + b;
    var r := LeadingDigits(s);
    assert forall i :: 0 <= i < |a| ==> s[i] == a[i];
    assert |r| >= |a|;
    assert b != [] ==> s[|a|] == b[0];
    assert |r| <= |a|;
    assert r == s[..|a|];
  }

  function Pow10(n: nat): (p: nat)
    ensures p >= 1
  {
    if n == 0 then 1 else 10 * Pow10(n - 1)
  }

  /** A JavaScript number: NaN or a finite value, kept exact (binary64 rounding is not modelled). */
  datatype Number = NaN | Finite(value: real)

  /** The value of the decimal numeral `whole.frac`. */
  function DecimalValue(whole: string, frac: string): (v: real)
    requires AllDigits(whole) && AllDigits(frac)
    ensures v >= DigitsValue(whole) as real
  {
    DigitsValue(whole) as real + (DigitsValue(frac) as real) / (Pow10(|frac|) as real)
  }

  /** An unsigned decimal numeral filling all of `s`: digits, then optionally a dot and digits, with at least one digit. */
  function UnsignedDecimal(s: string): (r: Number)
    ensures r.Finite? ==> r.value >= 0.0
    ensures AllDigits(s) && s != [] ==> r == Finite(DigitsValue(s) as real)
    ensures s == [] ==> r.NaN?
  {
    var w := LeadingDigits(s);
    var after := s[|w|..];
    assert AllDigits(s) ==> |w| == |s| && w == s;
    if after == [] then (if w == [] then NaN else Finite(DigitsValue(w) as real))
    else if after[0] != '.' then NaN
    else
      var f := LeadingDigits(after[1..]);
      if |f| + 1 == |after| && (w != [] || f != []) then Finite(DecimalValue(w, f)) else NaN
  }

  /**
   * `Number(text)` for decimal text: surrounding white space is ignored, blank
   * text is 0, and an optional sign precedes an unsigned numeral. Exponents,
   * hexadecimal, binary and octal prefixes and "Infinity" are read as NaN.
   */
  function StringToNumber(s: string): (r: Number)
    ensures AllSpace(s) ==> r == Finite(0.0)
  {
    var t := Trim(s);
    TrimEmptyIff(s);
    if t == [] then Finite(0.0)
    else if t[0] == '-' then
      match UnsignedDecimal(t[1..])
      case NaN => NaN
      case Finite(v) => Finite(-v)
    else if t[0] == '+' then UnsignedDecimal(t[1..])
    else UnsignedDecimal(t)
  }

  /** `Number(v)`: null is 0, booleans are 0 and 1, arrays go through their string form, objects are NaN. */
  function ToNumber(v: Json): (r: Number)
    ensures v.JNum? ==> r == Finite(v.n as real)
    ensures v.JNull? ==> r == Finite(0.0)
    ensures v.JObj? ==> r == NaN
    ensures v.JStr? ==> r == StringToNumber(v.s)
  {
    match v
    case JNull => Finite(0.0)
    case JBool(b) => Finite(if b then 1.0 else 0.0)
    case JNum(n) => Finite(n as real)
    case JStr(s) => StringToNumber(s)
    case JArr(_) => StringToNumber(Display(v))
    case JObj(_) => NaN
  }

  /** Text without white space at either end is its own trim. */
  lemma TrimKeepsUnpadded(s: string)
    requires s == [] || (!IsSpace(s[0]) && !IsSpace(s[|s| - 1]))
    ensures Trim(s) == s
  {
    assert TrimStart(s) == s;
    assert TrimEnd(s) == s;
  }

  /** Neither digits nor the minus sign are white space. */
  lemma NumeralCharsAreNotSpace(c: char)
    requires IsDigit(c) || c == '-'
    ensures !IsSpace(c)
  {
  }

  /** `Number(String(n)) == n` for every natural number. */
  lemma NumberOfNatText(n: nat)
    ensures StringToNumber(NatToString(n)) == Finite(n as real)
  {
    var d := NatToString(n);
    NatToStringRoundTrip(n);
    NumeralCharsAreNotSpace(d[0]);
    NumeralCharsAreNotSpace(d[|d| - 1]);
    TrimKeepsUnpadded(d);
  }

  /** `Number(String(n)) == n` for every integer. */
  lemma NumberOfIntText(n: int)
    ensures StringToNumber(IntToString(n)) == Finite(n as real)
  {
    if n >= 0 {
      NumberOfNatText(n);
    } else {
      var s := IntToString(n);
      var d := NatToString(-n);
      NatToStringRoundTrip(-n);
      NumeralCharsAreNotSpace(s[0]);
      NumeralCharsAreNotSpace(d[|d| - 1]);
      assert s[|s| - 1] == d[|d| - 1] && s[1..] == d;
      TrimKeepsUnpadded(s);
    }
  }

  // ---------------------------------------------------------------------------
  // String(v) and JSON.stringify(v)
  // ---------------------------------------------------------------------------

  /** `String(v)`; `undefined` renders as "undefined". */
  function ToStr(v: Option<Json>): (s: string)
    ensures v.Some? && v.value.JStr? ==> s == v.value.s
    ensures v.None? ==> s == "undefined"
  {
    match v
    case None => "undefined"
    case Some(j) => Display(j)
  }

  /** `String(j)`: arrays join their elements with ",", objects give "[object Object]". */
  function Display(j: Json): string
    decreases j, 1
  {
    match j
    case JNull => "null"
    case JBool(b) => if b then "true" else "false"
    case JNum(n) => IntToString(n)
    case JStr(s) => s
    case JArr(items) => JoinDisplay(items, j)
    case JObj(_) => "[object Object]"
  }

  /** `items.join(",")`: `null` elements render as the empty string. */
  function JoinDisplay(items: seq<Json>, ghost whole: Json): string
    requires forall i :: 0 <= i < |items| ==> items[i] < whole
    decreases whole, 0, |items|
  {
    if items == [] then ""
    else
      var head := if items[0].JNull? then "" else Display(items[0]);
      if |items| == 1 then head else head + "," + JoinDisplay(items[1..], whole)
  }

  /**
   * `JSON.stringify(j)`. Scalars print as their literals, a string quoted and
   * escaped; an object prints its own properties in property order, so a
   * repeated key appears once, with the value `JSON.parse` kept.
   */
  function Stringify(j: Json): (s: string)
    ensures |s| > 0
    ensures j.JNull? ==> s == "null"
    ensures j.JBool? ==> s == (if j.b then "true" else "false")
    ensures j.JNum? ==> s == IntToString(j.n)
    ensures j.JStr? ==> s == Quote(j.s)
    ensures j.JArr? ==> s[0] == '[' && s[|s| - 1] == ']'
    ensures j.JObj? ==> s[0] == '{' && s[|s| - 1] == '}'
    decreases j, 1
  {
    match j
    case JNull => "null"
    case JBool(b) => if b then "true" else "false"
    case JNum(n) => IntToString(n)
    case JStr(t) => Quote(t)
    case JArr(items) => "[" + StringifyItems(items, j) + "]"
    case JObj(ms) =>
      PropertiesBelow(ms);
      "{" + StringifyMembers(Properties(ms), j) + "}"
  }

  function StringifyItems(items: seq<Json>, ghost whole: Json): string
    requires forall i :: 0 <= i < |items| ==> items[i] < whole
    decreases whole, 0, |items|
  {
    if items == [] then ""
    else if |items| == 1 then Stringify(items[0])
    else Stringify(items[0]) + "," + StringifyItems(items[1..], whole)
  }

  function StringifyMembers(ms: seq<Member>, ghost whole: Json): string
    requires forall i :: 0 <= i < |ms| ==> ms[i].value < whole
    decreases whole, 0, |ms|
  {
    if ms == [] then ""
    else
      var head := Quote(ms[0].key) + ":" + Stringify(ms[0].value);
      if |ms| == 1 then head else head + "," + StringifyMembers(ms[1..], whole)
  }

  /** A JSON string literal: quotes, backslashes and control characters are escaped. */
  function Quote(t: string): (s: string)
    ensures |s| >= 2 && s[0] == '"' && s[|s| - 1] == '"'
  {
    "\"" + Escape(t) + "\""
  }

  function Escape(t: string): string {
    if t == [] then "" else EscapeChar(t[0]) + Escape(t[1..])
  }

  function HexDigit(d: nat): char
    requires d < 16
  {
    if d < 10 then DigitChar(d) else (('a' as int) + d - 10) as char
  }

  function EscapeChar(c: char): string {
    if c == '"' then "\\\""
    else if c == '\\' then "\\\\"
    else if c == '\U{8}' then "\\b"
    else if c == '\U{C}' then "\\f"
    else if c == '\n' then "\\n"
    else if c == '\r' then "\\r"
    else if c == '\t' then "\\t"
    else if (c as int) < 0x20 then "\\u00" + [HexDigit((c as int) / 16), HexDigit((c as int) % 16)]
    else [c]
  }

  // ---------------------------------------------------------------------------
  // Own properties of a parsed object, and Object.values
  // ---------------------------------------------------------------------------

  /**
   * An array index: the canonical decimal text ("0", or digits without a
   * leading zero) of an integer below 2^32 - 1.
   */
  predicate IsIndexKey(k: string) {
    k != [] && AllDigits(k) && (|k| == 1 || k[0] != '0') && DigitsValue(k) < 0xFFFF_FFFF
  }

  /** The numeric value of a digit string, which orders array indices. */
  function KeyValue(k: string): nat {
    if AllDigits(k) then DigitsValue(k) else 0
  }

  predicate Distinct(ks: seq<string>) {
    forall i, j :: 0 <= i < j < |ks| ==> ks[i] != ks[j]
  }

  predicate Ascending(ks: seq<string>) {
    forall i, j :: 0 <= i < j < |ks| ==> KeyValue(ks[i]) <= KeyValue(ks[j])
  }

  /** Some member of `ms` has key `k`. */
  predicate HasKey(ms: seq<Member>, k: string) {
    exists i :: 0 <= i < |ms| && ms[i].key == k
  }

  /** Key `a` occurs in `ms` before any occurrence of key `b`. */
  predicate FirstBefore(ms: seq<Member>, a: string, b: string) {
    exists i :: 0 <= i < |ms| && ms[i].key == a && forall j :: 0 <= j <= i ==> ms[j].key != b
  }

  /**
   * The keys of `ms` that are (`index`) or are not array indices, each once,
   * in the order of their first occurrence: `JSON.parse` creates a property
   * when it first meets its key and only overwrites the value afterwards.
   */
  function KeysOf(ms: seq<Member>, index: bool): (ks: seq<string>)
    ensures forall k :: k in ks <==> IsIndexKey(k) == index && HasKey(ms, k)
    ensures Distinct(ks)
  {
    if ms == [] then []
    else
      var init := KeysOf(ms[..|ms| - 1], index);
      var k := ms[|ms| - 1].key;
      assert forall i :: 0 <= i < |ms| - 1 ==> ms[..|ms| - 1][i] == ms[i];
      if k in init || IsIndexKey(k) != index then init else init + [k]
  }

  /** A key that occurs before another in a prefix occurs before it in the whole. */
  lemma FirstBeforeExtends(ms: seq<Member>, n: nat, a: string, b: string)
    requires n <= |ms| && FirstBefore(ms[..n], a, b)
    ensures FirstBefore(ms, a, b)
  {
    var i :| 0 <= i < n && ms[..n][i].key == a && forall j :: 0 <= j <= i ==> ms[..n][j].key != b;
    assert forall j :: 0 <= j <= i ==> ms[j] == ms[..n][j];
  }

  /** `KeysOf` lists the keys in the order in which they first occur. */
  lemma {:induction false} KeysOfInFirstOccurrenceOrder(ms: seq<Member>, index: bool)
    ensures forall i, j :: 0 <= i < j < |KeysOf(ms, index)| ==>
      FirstBefore(ms, KeysOf(ms, index)[i], KeysOf(ms, index)[j])
  {
    if ms != [] {
      var n := |ms| - 1;
      var init := KeysOf(ms[..n], index);
      var k := ms[n].key;
      var ks := KeysOf(ms, index);
      KeysOfInFirstOccurrenceOrder(ms[..n], index);
      forall i, j | 0 <= i < j < |ks| ensures FirstBefore(ms, ks[i], ks[j]) {
        if j < |init| {
          assert ks[i] == init[i] && ks[j] == init[j];
          assert FirstBefore(ms[..n], init[i], init[j]);
          FirstBeforeExtends(ms, n, ks[i], ks[j]);
        } else {
          assert ks == init + [k] && ks[j] == k && ks[i] == init[i];
          assert !HasKey(ms[..n], k);
          assert init[i] in init;
          var w :| 0 <= w < |ms[..n]| && ms[..n][w].key == init[i];
          forall v | 0 <= v <= w ensures ms[v].key != k {
            assert ms[v] == ms[..n][v];
          }
          assert ms[w].key == ks[i];
        }
      }
    }
  }

  /** `s` with `k` placed before the first key of larger value. */
  function InsertKey(k: string, s: seq<string>): (r: seq<string>)
    ensures |r| == |s| + 1
    ensures forall x :: x in r <==> x == k || x in s
  {
    if s == [] || KeyValue(k) <= KeyValue(s[0]) then [k] + s
    else
      assert forall x :: x in s[1..] ==> x in s;
      [s[0]] + InsertKey(k, s[1..])
  }

  /** Inserting into an ascending sequence keeps it ascending. */
  lemma {:induction false} InsertKeyAscending(k: string, s: seq<string>)
    requires Ascending(s)
    ensures Ascending(InsertKey(k, s))
  {
    if s != [] && KeyValue(k) > KeyValue(s[0]) {
      var t := s[1..];
      var rest := InsertKey(k, t);
      var r := InsertKey(k, s);
      assert r == [s[0]] + rest;
      assert Ascending(t) by {
        forall i, j | 0 <= i < j < |t| ensures KeyValue(t[i]) <= KeyValue(t[j]) {
          assert t[i] == s[i + 1] && t[j] == s[j + 1];
        }
      }
      InsertKeyAscending(k, t);
      forall m | 0 <= m < |rest| ensures KeyValue(s[0]) <= KeyValue(rest[m]) {
        assert rest[m] in rest;
        if rest[m] != k {
          var q :| 0 <= q < |t| && t[q] == rest[m];
          assert t[q] == s[q + 1];
        }
      }
      forall i, j | 0 <= i < j < |r| ensures KeyValue(r[i]) <= KeyValue(r[j]) {
        if i == 0 {
          assert r[i] == s[0] && r[j] == rest[j - 1];
        } else {
          assert r[i] == rest[i - 1] && r[j] == rest[j - 1];
        }
      }
    }
  }

  /** Inserting a new key into a sequence without repeats leaves none. */
  lemma {:induction false} InsertKeyDistinct(k: string, s: seq<string>)
    requires Distinct(s) && k !in s
    ensures Distinct(InsertKey(k, s))
  {
    if s != [] && KeyValue(k) > KeyValue(s[0]) {
      var t := s[1..];
      var rest := InsertKey(k, t);
      var r := InsertKey(k, s);
      assert r == [s[0]] + rest;
      assert Distinct(t) by {
        forall i, j | 0 <= i < j < |t| ensures t[i] != t[j] {
          assert t[i] == s[i + 1] && t[j] == s[j + 1];
        }
      }
      assert k !in t;
      assert s[0] !in t;
      InsertKeyDistinct(k, t);
      forall i, j | 0 <= i < j < |r| ensures r[i] != r[j] {
        assert r[j] == rest[j - 1] && rest[j - 1] in rest;
        if i > 0 {
          assert r[i] == rest[i - 1];
        }
      }
    }
  }

  /** Array indices in ascending numeric order. */
  function SortKeys(s: seq<string>): (r: seq<string>)
    ensures |r| == |s|
    ensures forall x :: x in r <==> x in s
  {
    if s == [] then []
    else
      assert forall x :: x in s[1..] ==> x in s;
      InsertKey(s[0], SortKeys(s[1..]))
  }

  /** Sorting gives an ascending sequence, without repeats when there were none. */
  lemma {:induction false} SortKeysSorts(s: seq<string>)
    ensures Ascending(SortKeys(s))
    ensures Distinct(s) ==> Distinct(SortKeys(s))
  {
    if s != [] {
      var t := s[1..];
      SortKeysSorts(t);
      InsertKeyAscending(s[0], SortKeys(t));
      if Distinct(s) {
        assert Distinct(t) by {
          forall i, j | 0 <= i < j < |t| ensures t[i] != t[j] {
            assert t[i] == s[i + 1] && t[j] == s[j + 1];
          }
        }
        assert s[0] !in t;
        InsertKeyDistinct(s[0], SortKeys(t));
      }
    }
  }

  /**
   * The own property keys of the object `JSON.parse` builds from `ms`, in the
   * order `Object.values` and `JSON.stringify` visit them: array indices in
   * ascending numeric order, then the other keys in order of first occurrence.
   */
  function OwnKeys(ms: seq<Member>): (ks: seq<string>)
    ensures forall k :: k in ks <==> HasKey(ms, k)
  {
    SortKeys(KeysOf(ms, true)) + KeysOf(ms, false)
  }

  /** A key of the object has a value. */
  lemma HasKeyField(ms: seq<Member>, k: string)
    requires HasKey(ms, k)
    ensures Field(ms, k).Some?
  {
    FieldSpec(ms, k);
  }

  /** Each key paired with its value. */
  function Bind(ms: seq<Member>, ks: seq<string>): (ps: seq<Member>)
    requires forall k :: k in ks ==> Field(ms, k).Some?
    ensures |ps| == |ks| && forall i :: 0 <= i < |ks| ==> ps[i] == Member(ks[i], Field(ms, ks[i]).value)
  {
    if ks == [] then []
    else
      assert forall k :: k in ks[1..] ==> k in ks;
      [Member(ks[0], Field(ms, ks[0]).value)] + Bind(ms, ks[1..])
  }

  /** The properties of the parsed object: each key once, with its last value, in property order. */
  function Properties(ms: seq<Member>): (ps: seq<Member>)
    ensures |ps| == |OwnKeys(ms)|
    ensures forall i :: 0 <= i < |ps| ==> ps[i].key == OwnKeys(ms)[i] && Field(ms, ps[i].key) == Some(ps[i].value)
  {
    var ks := OwnKeys(ms);
    forall k | k in ks ensures Field(ms, k).Some? {
      HasKeyField(ms, k);
    }
    Bind(ms, ks)
  }

  /** Every property value is one of the members' values, so it is smaller than the object. */
  lemma PropertiesBelow(ms: seq<Member>)
    ensures forall i :: 0 <= i < |Properties(ms)| ==> Properties(ms)[i].value < JObj(ms)
  {
    var ps := Properties(ms);
    forall i | 0 <= i < |ps| ensures ps[i].value < JObj(ms) {
      FieldSpec(ms, ps[i].key);
      var m :| 0 <= m < |ms| && ms[m] == Member(ps[i].key, ps[i].value);
      assert ms[m] in ms;
    }
  }

  /** The properties are exactly the members `Field` reads. */
  lemma PropertiesAreFields(ms: seq<Member>, k: string, v: Json)
    ensures Member(k, v) in Properties(ms) <==> Field(ms, k) == Some(v)
  {
    var ps := Properties(ms);
    var ks := OwnKeys(ms);
    FieldSpec(ms, k);
    if Member(k, v) in ps {
      var i :| 0 <= i < |ps| && ps[i] == Member(k, v);
    }
    if Field(ms, k) == Some(v) {
      assert k in ks;
      var i :| 0 <= i < |ks| && ks[i] == k;
      assert ps[i] == Member(k, v);
    }
  }

  /** No key is repeated among the own keys. */
  lemma OwnKeysDistinct(ms: seq<Member>)
    ensures Distinct(OwnKeys(ms))
  {
    var ks := OwnKeys(ms);
    var idx := SortKeys(KeysOf(ms, true));
    var other := KeysOf(ms, false);
    SortKeysSorts(KeysOf(ms, true));
    forall i, j | 0 <= i < j < |ks| ensures ks[i] != ks[j] {
      if j < |idx| {
        assert ks[i] == idx[i] && ks[j] == idx[j];
      } else if i < |idx| {
        assert ks[i] == idx[i] && idx[i] in idx && ks[j] == other[j - |idx|] && other[j - |idx|] in other;
      } else {
        assert ks[i] == other[i - |idx|] && ks[j] == other[j - |idx|];
      }
    }
  }

  /** Array indices come first, in ascending numeric order. */
  lemma OwnKeysIndicesFirst(ms: seq<Member>)
    ensures var ks := OwnKeys(ms);
      forall i, j :: 0 <= i < j < |ks| && IsIndexKey(ks[j]) ==>
        IsIndexKey(ks[i]) && KeyValue(ks[i]) <= KeyValue(ks[j])
  {
    var ks := OwnKeys(ms);
    var idx := SortKeys(KeysOf(ms, true));
    var other := KeysOf(ms, false);
    SortKeysSorts(KeysOf(ms, true));
    forall i, j | 0 <= i < j < |ks| && IsIndexKey(ks[j]) ensures IsIndexKey(ks[i]) && KeyValue(ks[i]) <= KeyValue(ks[j]) {
      assert ks[i] == idx[i] && idx[i] in idx && ks[j] == idx[j];
    }
  }

  /** The other keys follow in the order of their first occurrence. */
  lemma OwnKeysOthersInOrder(ms: seq<Member>)
    ensures var ks := OwnKeys(ms);
      forall i, j :: 0 <= i < j < |ks| && !IsIndexKey(ks[i]) ==> FirstBefore(ms, ks[i], ks[j])
  {
    var ks := OwnKeys(ms);
    var idx := SortKeys(KeysOf(ms, true));
    var other := KeysOf(ms, false);
    KeysOfInFirstOccurrenceOrder(ms, false);
    forall i, j | 0 <= i < j < |ks| && !IsIndexKey(ks[i]) ensures FirstBefore(ms, ks[i], ks[j]) {
      assert ks[i] == other[i - |idx|] && ks[j] == other[j - |idx|];
    }
  }

  /** With distinct keys, `Field` finds each member's own value. */
  lemma {:induction false} FieldOfDistinct(ms: seq<Member>, i: nat)
    requires forall a, b :: 0 <= a < b < |ms| ==> ms[a].key != ms[b].key
    requires i < |ms|
    ensures Field(ms, ms[i].key) == Some(ms[i].value)
  {
    if i < |ms| - 1 {
      var init := ms[..|ms| - 1];
      assert init[i] == ms[i];
      FieldOfDistinct(init, i);
    }
  }

  /** With distinct keys none of which is an array index, `KeysOf` lists every key in member order. */
  lemma {:induction false} KeysOfPlainMembers(ms: seq<Member>)
    requires forall a, b :: 0 <= a < b < |ms| ==> ms[a].key != ms[b].key
    requires forall a :: 0 <= a < |ms| ==> !IsIndexKey(ms[a].key)
    ensures KeysOf(ms, true) == []
    ensures |KeysOf(ms, false)| == |ms| && forall a :: 0 <= a < |ms| ==> KeysOf(ms, false)[a] == ms[a].key
  {
    if ms != [] {
      var n := |ms| - 1;
      var init := ms[..n];
      KeysOfPlainMembers(init);
      assert ms[n].key !in KeysOf(init, false) by {
        assert forall a :: 0 <= a < n ==> init[a] == ms[a];
      }
    }
  }

  /** An object with distinct, non-numeric keys keeps its members as they are, in order. */
  lemma PropertiesOfPlainMembers(ms: seq<Member>)
    requires forall a, b :: 0 <= a < b < |ms| ==> ms[a].key != ms[b].key
    requires forall a :: 0 <= a < |ms| ==> !IsIndexKey(ms[a].key)
    ensures Properties(ms) == ms
  {
    KeysOfPlainMembers(ms);
    var ps := Properties(ms);
    assert OwnKeys(ms) == KeysOf(ms, false);
    forall a | 0 <= a < |ms| ensures ps[a] == ms[a] {
      FieldOfDistinct(ms, a);
    }
  }

  /** An array index moves ahead of the keys before it. */
  lemma IndexKeyComesFirst(x: Json, y: Json)
    ensures Properties([Member("b", x), Member("0", y)]) == [Member("0", y), Member("b", x)]
  {
    var ms := [Member("b", x), Member("0", y)];
    assert OwnKeys(ms) == ["0", "b"] by {
      assert IsIndexKey("0") && !IsIndexKey("b");
      assert ms[..1] == [Member("b", x)] && [Member("b", x)][..0] == [];
      assert KeysOf([Member("b", x)], true) == [];
      assert KeysOf([Member("b", x)], false) == ["b"];
      assert KeysOf(ms, true) == ["0"];
      assert KeysOf(ms, false) == ["b"];
      assert SortKeys(["0"]) == ["0"];
    }
    assert Field(ms, "0") == Some(y);
    assert Field(ms, "b") == Some(x) by {
      assert ms[..1] == [Member("b", x)];
    }
    var ps := Properties(ms);
    assert |ps| == 2 && ps[0] == Member("0", y) && ps[1] == Member("b", x);
  }

  /** A repeated key appears once, with its last value. */
  lemma RepeatedKeyKeepsLastValue(x: Json, y: Json)
    ensures Properties([Member("a", x), Member("a", y)]) == [Member("a", y)]
  {
    var ns := [Member("a", x), Member("a", y)];
    assert ns[..1] == [Member("a", x)] && [Member("a", x)][..0] == [];
    assert !IsIndexKey("a");
    assert KeysOf([Member("a", x)], true) == [];
    assert KeysOf([Member("a", x)], false) == ["a"];
    assert KeysOf(ns, true) == [];
    assert KeysOf(ns, false) == ["a"];
  }

  function MemberValues(ms: seq<Member>): (r: seq<Json>)
    ensures |r| == |ms| && forall i :: 0 <= i < |ms| ==> r[i] == ms[i].value
  {
    if ms == [] then [] else [ms[0].value] + MemberValues(ms[1..])
  }

  /**
   * `Object.values(v)`; `None` when it throws (on `null` and `undefined`).
   * A string gives its characters, an array its elements, numbers and booleans
   * no values, and an object the values of its own properties in property order.
   */
  function ObjectValues(v: Option<Json>): (r: Option<seq<Json>>)
    ensures r.None? <==> Nullish(v)
    ensures v.Some? && v.value.JObj? ==> r == Some(MemberValues(Properties(v.value.members)))
    ensures v.Some? && v.value.JArr? ==> r == Some(v.value.items)
  {
    match v
    case None => None
    case Some(JNull) => None
    case Some(JBool(_)) => Some([])
    case Some(JNum(_)) => Some([])
    case Some(JStr(s)) => Some(seq(|s|, i requires 0 <= i < |s| => JStr([s[i]])))
    case Some(JArr(items)) => Some(items)
    case Some(JObj(ms)) => Some(MemberValues(Properties(ms)))
  }

  // ---------------------------------------------------------------------------
  // Strings: whitespace, trim, UTF-16 length, lower case, includes
  // ---------------------------------------------------------------------------

  /** The characters `trim()` removes and `\s` matches: white space and line terminators. */
  predicate IsSpace(c: char) {
    || c == '\t' || c == '\n' || c == '\U{B}' || c == '\U{C}' || c == '\r' || c == ' '
    || c == '\U{A0}' || c == '\U{1680}' || ('\U{2000}' <= c <= '\U{200A}')
    || c == '\U{2028}' || c == '\U{2029}' || c == '\U{202F}' || c == '\U{205F}'
    || c == '\U{3000}' || c == '\U{FEFF}'
  }

  predicate AllSpace(s: string) {
    forall i :: 0 <= i < |s| ==> IsSpace(s[i])
  }

  /** `s` with its leading white space removed. */
  function TrimStart(s: string): (r: string)
    ensures |r| <= |s| && r == s[|s| - |r|..]
    ensures r == [] || !IsSpace(r[0])
    ensures forall i :: 0 <= i < |s| - |r| ==> IsSpace(s[i])
  {
    if s != [] && IsSpace(s[0]) then
      var r := TrimStart(s[1..]);
      assert forall i :: 1 <= i < |s| ==> s[1..][i - 1] == s[i];
      r
    else s
  }

  /** `s` with its trailing white space removed. */
  function TrimEnd(s: string): (r: string)
    ensures |r| <= |s| && r == s[..|r|]
    ensures r == [] || !IsSpace(r[|r| - 1])
    ensures forall i :: |r| <= i < |s| ==> IsSpace(s[i])
  {
    if s != [] && IsSpace(s[|s| - 1]) then
      var r := TrimEnd(s[..|s| - 1]);
      assert forall i :: 0 <= i < |s| - 1 ==> s[..|s| - 1][i] == s[i];
      r
    else s
  }

  /** `t` occurs in `s` starting at index `i`. */
  predicate OccursAt(s: string, t: string, i: int) {
    0 <= i <= |s| - |t| && s[i..i + |t|] == t
  }

  /** Trimming the end of the suffix from `k` leaves text that occurs at `k` and starts as the suffix does. */
  lemma TrimEndOfSuffix(s: string, k: nat)
    requires k <= |s|
    ensures OccursAt(s, TrimEnd(s[k..]), k)
    ensures TrimEnd(s[k..]) == [] || TrimEnd(s[k..])[0] == s[k]
    ensures forall i :: k + |TrimEnd(s[k..])| <= i < |s| ==> IsSpace(s[i])
  {
    var r := TrimEnd(s[k..]);
    assert s[k..][..|r|] == s[k..k + |r|];
    forall i | k + |r| <= i < |s| ensures IsSpace(s[i]) {
      assert s[i] == s[k..][i - k];
    }
  }

  /**
   * `s.trim()`: the contiguous part of `s` that starts at its first and ends at
   * its last character that is not white space; everything before and after it
   * is white space.
   */
  function Trim(s: string): (r: string)
    ensures r == [] || (!IsSpace(r[0]) && !IsSpace(r[|r| - 1]))
    ensures OccursAt(s, r, |s| - |TrimStart(s)|)
    ensures forall i :: 0 <= i < |s| - |TrimStart(s)| ==> IsSpace(s[i])
    ensures forall i :: |s| - |TrimStart(s)| + |r| <= i < |s| ==> IsSpace(s[i])
  {
    var t := TrimStart(s);
    TrimEndOfSuffix(s, |s| - |t|);
    TrimEnd(t)
  }

  /** A string trims to `""` exactly when it is all white space. */
  lemma TrimEmptyIff(s: string)
    ensures Trim(s) == [] <==> AllSpace(s)
  {
    var t := TrimStart(s);
    if Trim(s) == [] {
      assert t == [];
    }
  }

  /** Trimming twice is trimming once. */
  lemma TrimIdempotent(s: string)
    ensures Trim(Trim(s)) == Trim(s)
  {
  }

  /** A leading white-space character does not survive trimming. */
  lemma TrimSkipsLeadingSpace(c: char, s: string)
    requires IsSpace(c)
    ensures Trim([c] + s) == Trim(s)
  {
    assert ([c] + s)[1..] == s;
  }

  /** `s.length`: the number of UTF-16 code units, two for a character beyond U+FFFF. */
  function Utf16Length(s: string): (n: nat)
    ensures |s| <= n <= 2 * |s|
  {
    if s == [] then 0 else (if (s[0] as int) > 0xFFFF then 2 else 1) + Utf16Length(s[1..])
  }

  /** On text within the Basic Multilingual Plane `length` counts characters. */
  lemma {:induction false} Utf16LengthBmp(s: string)
    requires forall i :: 0 <= i < |s| ==> (s[i] as int) <= 0xFFFF
    ensures Utf16Length(s) == |s|
  {
    if s != [] {
      Utf16LengthBmp(s[1..]);
    }
  }

  function LowerAscii(c: char): (d: char)
    ensures 'A' <= c <= 'Z' ==> (d as int) == (c as int) + 32
    ensures !('A' <= c <= 'Z') ==> d == c
  {
    if 'A' <= c <= 'Z' then ((c as int) + 32) as char else c
  }

  /**
   * `s.toLowerCase()` restricted to ASCII: A-Z are folded and every other
   * character is kept, so the length never changes. Full Unicode lower-casing
   * can change the length (U+0130 becomes two characters).
   */
  function ToLower(s: string): (r: string)
    ensures |r| == |s| && forall i :: 0 <= i < |s| ==> r[i] == LowerAscii(s[i])
  {
    if s == [] then [] else [LowerAscii(s[0])] + ToLower(s[1..])
  }

  /** `s.includes(t)`. */
  predicate Contains(s: string, t: string) {
    exists i :: 0 <= i <= |s| - |t| && OccursAt(s, t, i)
  }

  /** Every occurrence of `t` inside `u` is an occurrence in any text containing `u`. */
  lemma ContainsTransitive(s: string, u: string, t: string)
    requires Contains(s, u) && Contains(u, t)
    ensures Contains(s, t)
  {
    var i :| 0 <= i <= |s| - |u| && OccursAt(s, u, i);
    var k :| 0 <= k <= |u| - |t| && OccursAt(u, t, k);
    assert s[i..i + |u|] == u && u[k..k + |t|] == t;
    forall j | 0 <= j < |t| ensures s[i + k + j] == t[j] {
      assert s[i + k + j] == s[i..i + |u|][k + j];
      assert t[j] == u[k..k + |t|][j];
    }
    assert s[i + k..i + k + |t|] == t;
    assert OccursAt(s, t, i + k);
  }
}
