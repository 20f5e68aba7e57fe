/**
 * The JavaScript values the site script handles after `JSON.parse`, and the
 * few JavaScript conversions and string operations it relies on: truthiness,
 * `String(v)`, `Array.prototype.join`, `trim`, ASCII case mapping, and the
 * string comparison that the default `Array.prototype.sort` uses.
 */
module JsValues {

  datatype Option<+T> = None | Some(value: T)

  /** How a JavaScript expression finishes: with a value or by throwing a TypeError. */
  datatype Completion<+T> = Normal(value: T) | ThrowTypeError

  /**
   * A JSON value as JavaScript sees it, plus `undefined` for a missing field.
   * Numbers are modelled as integers; fractional values are left out.
   */
  datatype Value =
    | Undefined
    | Null
    | Bool(b: bool)
    | Num(n: int)
    | Str(s: string)
    | Arr(items: seq<Value>)
    | Obj(fields: map<string, Value>)

  /** A record of a data file: a JSON object; a field it lacks reads as `undefined`. */
  type Record = map<string, Value>

  /** How `await loadJSON(url)` ends: the file's array of records, or a thrown error. */
  datatype Load = Loaded(records: seq<Record>) | LoadFailed

  /** `r.name` */
  function Get(r: Record, name: string): Value
  {
    if name in r then r[name] else Undefined
  }

  /** JavaScript truthiness (`if (v)`, `v || w`, `!v`). */
  predicate Truthy(v: Value)
  {
    match v
    case Undefined => false
    case Null => false
    case Bool(b) => b
    case Num(n) => n != 0
    case Str(s) => s != ""
    case Arr(_) => true
    case Obj(_) => true
  }

  /** `v || fallback` */
  function Or(v: Value, fallback: Value): (r: Value)
    ensures Truthy(fallback) ==> Truthy(r)
  {
    if Truthy(v) then v else fallback
  }

  function DigitChar(d: nat): char
    requires d < 10
  {
    "0123456789"[d]
  }

  /** The decimal numeral of a natural number, as `String(n)` prints it. */
  function NatToString(n: nat): (r: string)
    ensures |r| > 0
    ensures forall i | 0 <= i < |r| :: '0' <= r[i] <= '9'
  {
    if n < 10 then [DigitChar(n)] else NatToString(n / 10) + [DigitChar(n % 10)]
  }

  function IntToString(n: int): string
  {
    if n < 0 then "-" + NatToString(-n) else NatToString(n)
  }

  /** How `Array.prototype.join` turns one element into text: `null`/`undefined` give "". */
  function JoinText(v: Value): string
  {
    if v.Undefined? || v.Null? then "" else ToString(v)
  }

  /** `String(v)`. */
  function ToString(v: Value): string
  {
    match v
    case Undefined => "undefined"
    case Null => "null"
    case Bool(b) => if b then "true" else "false"
    case Num(n) => IntToString(n)
    case Str(s) => s
    case Arr(items) =>
      Join(seq(|items|, i requires 0 <= i < |items| =>
             if items[i].Undefined? || items[i].Null? then "" else ToString(items[i])), ",")
    case Obj(_) => "[object Object]"
  }

  /** `parts.join(sep)` over strings. */
  function Join(parts: seq<string>, sep: string): string
  {
    if |parts| == 0 then ""
    else if |parts| == 1 then parts[0]
    else parts[0] + sep + Join(parts[1..], sep)
  }

  /** `values.join(sep)` over arbitrary values. */
  function JoinValues(values: seq<Value>, sep: string): string
  {
    Join(seq(|values|, i requires 0 <= i < |values| => JoinText(values[i])), sep)
  }

  // ----- string helpers -----

  predicate StartsWith(s: string, prefix: string)
  {
    |prefix| <= |s| && s[..|prefix|] == prefix
  }

  predicate EndsWith(s: string, suffix: string)
  {
    |suffix| <= |s| && s[|s| - |suffix|..] == suffix
  }

  /** `s.includes(t)` for strings: `t` occurs in `s` at some position. */
  predicate Contains(s: string, t: string)
  {
    StartsWith(s, t) || (s != [] && Contains(s[1..], t))
  }

  function LowerChar(c: char): char
  {
    if 'A' <= c <= 'Z' then (c as int + 32) as char else c
  }

  /** ASCII lower-casing (the model's stand-in for `toLowerCase`). */
  function Lower(s: string): (r: string)
    ensures |r| == |s|
    ensures forall i | 0 <= i < |s| :: r[i] == LowerChar(s[i])
  {
    if s == [] then [] else [LowerChar(s[0])] + Lower(s[1..])
  }

  /** The characters `String.prototype.trim` removes: WhiteSpace and LineTerminator. */
  predicate IsTrimmable(c: char)
  {
    c == '\t' || c == '\n' || c == '\U{B}' || c == '\U{C}' || c == '\r' || c == ' '
    || c == '\U{A0}' || c == '\U{1680}' || ('\U{2000}' <= c <= '\U{200A}')
    || c == '\U{2028}' || c == '\U{2029}' || c == '\U{202F}' || c == '\U{205F}'
    || c == '\U{3000}' || c == '\U{FEFF}'
  }

  /** Every character of `s` is removable. */
  predicate AllTrimmable(s: string)
  {
    forall k | 0 <= k < |s| :: IsTrimmable(s[k])
  }

  /** `s` without its leading removable characters. */
  function TrimStart(s: string): (r: string)
    ensures r == [] || !IsTrimmable(r[0])
    ensures |r| <= |s| && r == s[|s| - |r|..]
    ensures AllTrimmable(s[..|s| - |r|])
  {
    if s != [] && IsTrimmable(s[0]) then
      var r := TrimStart(s[1..]);
      assert s[..|s| - |r|] == [s[0]] + s[1..][..|s| - 1 - |r|];
      r
    else s
  }

  /** `s` without its trailing removable characters. */
  function TrimEnd(s: string): (r: string)
    ensures r == [] || !IsTrimmable(r[|r| - 1])
    ensures |r| <= |s| && r == s[..|r|]
    ensures AllTrimmable(s[|r|..])
    ensures s != [] && !IsTrimmable(s[0]) ==> r != []
  {
    if s != [] && IsTrimmable(s[|s| - 1]) then
      var r := TrimEnd(s[..|s| - 1]);
      assert s[|r|..] == s[..|s| - 1][|r|..] + [s[|s| - 1]];
      r
    else s
  }

  /** A string that `trim` leaves as it is: no removable character at either end. */
  predicate IsTrimmed(s: string)
  {
    s == [] || (!IsTrimmable(s[0]) && !IsTrimmable(s[|s| - 1]))
  }

  /** Trimming both ends leaves no removable character at either end. */
  lemma TrimEndsTrimmed(s: string)
    ensures IsTrimmed(TrimEnd(TrimStart(s)))
  {
  }

  /** A string with no removable character at either end is left as it is. */
  lemma TrimKeepsTrimmed(s: string)
    ensures IsTrimmed(s) ==> TrimEnd(TrimStart(s)) == s
  {
    if IsTrimmed(s) && s != [] {
      assert TrimStart(s) == s;
      assert TrimEnd(s) == s;
    }
  }

  /**
   * `r` is what is left of `s` after cutting its first `i` characters and
   * everything after `r`, every character cut being removable.
   */
  predicate IsTrimCut(s: string, i: int, r: string)
  {
    && 0 <= i <= |s| - |r| && r == s[i..i + |r|]
    && AllTrimmable(s[..i]) && AllTrimmable(s[i + |r|..])
  }

  /** A removable prefix cut and then a removable suffix cut make one trim cut. */
  lemma TrimCutOfParts(s: string, t: string, r: string)
    requires |t| <= |s| && t == s[|s| - |t|..] && AllTrimmable(s[..|s| - |t|])
    requires |r| <= |t| && r == t[..|r|] && AllTrimmable(t[|r|..])
    ensures IsTrimCut(s, |s| - |t|, r)
  {
    var i := |s| - |t|;
    assert s[i..i + |r|] == t[..|r|];
    assert s[i + |r|..] == t[|r|..];
  }

  /** Trimming both ends cuts removable characters, and only those, off each end. */
  lemma TrimCuts(s: string)
    ensures IsTrimCut(s, |s| - |TrimStart(s)|, TrimEnd(TrimStart(s)))
  {
    TrimCutOfParts(s, TrimStart(s), TrimEnd(TrimStart(s)));
  }

  /**
   * `s.trim()`: the part of `s` left after cutting removable characters, and
   * only those, from both ends.
   */
  function Trim(s: string): (r: string)
    ensures IsTrimmed(r)
    ensures IsTrimmed(s) ==> r == s
    ensures IsTrimCut(s, |s| - |TrimStart(s)|, r)
  {
    TrimEndsTrimmed(s);
    TrimKeepsTrimmed(s);
    TrimCuts(s);
    TrimEnd(TrimStart(s))
  }

  // ----- the string order of the default sort -----

  /**
   * `a <= b` on strings: lexicographic by character, a prefix before its
   * extensions. Characters compare by code point, which agrees with the
   * UTF-16 code-unit order of JavaScript except between characters above
   * U+FFFF and those from U+E000 to U+FFFF.
   */
  predicate StrLe(a: string, b: string)
  {
    if a == [] then true
    else if b == [] then false
    else if a[0] != b[0] then a[0] < b[0]
    else StrLe(a[1..], b[1..])
  }

  lemma {:induction false} StrLeTotal(a: string, b: string)
    ensures StrLe(a, b) || StrLe(b, a)
  {
    if a != [] && b != [] && a[0] == b[0] {
      StrLeTotal(a[1..], b[1..]);
    }
  }

  lemma {:induction false} StrLeAntisymmetric(a: string, b: string)
    requires StrLe(a, b) && StrLe(b, a)
    ensures a == b
  {
    if a != [] && b != [] {
      StrLeAntisymmetric(a[1..], b[1..]);
      assert a == [a[0]] + a[1..] && b == [b[0]] + b[1..];
    }
  }

  lemma {:induction false} StrLeTransitive(a: string, b: string, c: string)
    requires StrLe(a, b) && StrLe(b, c)
    ensures StrLe(a, c)
  {
    if a != [] && b != [] && c != [] && a[0] == b[0] && b[0] == c[0] {
      StrLeTransitive(a[1..], b[1..], c[1..]);
    }
  }
}
