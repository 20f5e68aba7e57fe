/**
 * `safeHTML`: the escaper every interpolated field goes through. It replaces
 * the four characters `&`, `<`, `>` and `"` by the named character references
 * `&amp;`, `&lt;`, `&gt;` and `&quot;` (section 13.5 of the HTML Living
 * Standard), copies every other character, and turns a falsy value into "".
 * `Decode` is the HTML parser's side of those four references and serves as
 * the escaper's inverse.
 */
module Escaping {
  import opened JsValues

  predicate IsMeta(c: char)
  {
    c == '&' || c == '<' || c == '>' || c == '"'
  }

  /** The replacement callback of line 35. */
  function EscapeChar(c: char): string
  {
    if c == '&' then "&amp;"
    else if c == '<' then "&lt;"
    else if c == '>' then "&gt;"
    else if c == '"' then "&quot;"
    else [c]
  }

  /** One of the four references starts at position `i` of `s`. */
  predicate EntityAt(s: string, i: nat)
    requires i <= |s|
  {
    StartsWith(s[i..], "&amp;") || StartsWith(s[i..], "&lt;")
    || StartsWith(s[i..], "&gt;") || StartsWith(s[i..], "&quot;")
  }

  /**
   * Text that is safe to place between tags or inside a double-quoted
   * attribute: no raw `<`, `>` or `"`, and every `&` begins a reference.
   */
  ghost predicate Safe(s: string)
  {
    && (forall i | 0 <= i < |s| :: s[i] != '<' && s[i] != '>' && s[i] != '"')
    && (forall i | 0 <= i < |s| && s[i] == '&' :: EntityAt(s, i))
  }

  lemma SafeEscapeChar(c: char)
    ensures Safe(EscapeChar(c))
  {
    var e := EscapeChar(c);
    if IsMeta(c) {
      forall i | 0 <= i < |e| && e[i] == '&' ensures EntityAt(e, i) {
        assert i == 0 && e[0..] == e;
      }
    }
  }

  lemma {:induction false} SafeConcat(a: string, b: string)
    requires Safe(a) && Safe(b)
    ensures Safe(a + b)
  {
    var s := a + b;
    forall i | 0 <= i < |s| && s[i] == '&' ensures EntityAt(s, i) {
      if i < |a| {
        assert a[i] == '&' && EntityAt(a, i);
        assert s[i..] == a[i..] + b;
      } else {
        assert b[i - |a|] == '&' && EntityAt(b, i - |a|);
        assert s[i..] == b[i - |a|..];
      }
    }
  }

  /** `text.replace(/[&<>"]/g, ...)`: each character through `EscapeChar`, in order. */
  function Escape(s: string): (r: string)
    ensures Safe(r)
    ensures |r| >= |s|
  {
    if s == [] then []
    else
      SafeEscapeChar(s[0]);
      SafeConcat(EscapeChar(s[0]), Escape(s[1..]));
      EscapeChar(s[0]) + Escape(s[1..])
  }

  /** `safeHTML(v)`: `String(v || '')` escaped. */
  function SafeHtml(v: Value): (r: string)
    ensures Safe(r)
    ensures !Truthy(v) ==> r == ""
    ensures Truthy(v) ==> r == Escape(ToString(v))
  {
    Escape(ToString(Or(v, Str(""))))
  }

  /** Replaces the four references by the characters they stand for, left to right. */
  function Decode(s: string): string
  {
    if s == [] then []
    else if StartsWith(s, "&amp;") then "&" + Decode(s[5..])
    else if StartsWith(s, "&lt;") then "<" + Decode(s[4..])
    else if StartsWith(s, "&gt;") then ">" + Decode(s[4..])
    else if StartsWith(s, "&quot;") then "\"" + Decode(s[6..])
    else [s[0]] + Decode(s[1..])
  }

  lemma NotStartsWithAt(s: string, prefix: string, k: nat)
    requires k < |prefix| && k < |s| && s[k] != prefix[k]
    ensures !StartsWith(s, prefix)
  {
    assert |prefix| <= |s| ==> s[..|prefix|][k] == s[k];
  }

  lemma DecodeEscapeChar(c: char, rest: string)
    ensures Decode(EscapeChar(c) + rest) == [c] + Decode(rest)
  {
    var s := EscapeChar(c) + rest;
    assert s[|EscapeChar(c)|..] == rest;
    if !IsMeta(c) {
      NotStartsWithAt(s, "&amp;", 0);
      NotStartsWithAt(s, "&lt;", 0);
      NotStartsWithAt(s, "&gt;", 0);
      NotStartsWithAt(s, "&quot;", 0);
    } else if c == '<' {
      NotStartsWithAt(s, "&amp;", 1);
    } else if c == '>' {
      NotStartsWithAt(s, "&amp;", 1);
      NotStartsWithAt(s, "&lt;", 1);
    } else if c == '"' {
      NotStartsWithAt(s, "&amp;", 1);
      NotStartsWithAt(s, "&lt;", 1);
      NotStartsWithAt(s, "&gt;", 1);
    }
  }

  /** Decoding the references in `safeHTML`'s output gives back the text it escaped. */
  lemma {:induction false} DecodeEscape(s: string)
    ensures Decode(Escape(s)) == s
  {
    if s != [] {
      DecodeEscapeChar(s[0], Escape(s[1..]));
      DecodeEscape(s[1..]);
      assert [s[0]] + s[1..] == s;
    }
  }

  /** Two different texts never escape to the same markup. */
  lemma EscapeInjective(a: string, b: string)
    requires Escape(a) == Escape(b)
    ensures a == b
  {
    DecodeEscape(a);
    DecodeEscape(b);
  }

  /** `safeHTML(v)` decodes back to `String(v)` for every truthy `v`. */
  lemma SafeHtmlRoundTrip(v: Value)
    requires Truthy(v)
    ensures Decode(SafeHtml(v)) == ToString(v)
  {
    DecodeEscape(ToString(v));
  }

  /** Escaping distributes over concatenation: it works character by character. */
  lemma {:induction false} EscapeConcat(a: string, b: string)
    ensures Escape(a + b) == Escape(a) + Escape(b)
  {
    if a != [] {
      assert (a + b)[0] == a[0] && (a + b)[1..] == a[1..] + b;
      EscapeConcat(a[1..], b);
    } else {
      assert a + b == b;
    }
  }

  /** No character of `s` is one of the four metacharacters. */
  predicate MetaFree(s: string)
  {
    forall i | 0 <= i < |s| :: !IsMeta(s[i])
  }

  lemma MetaFreeCons(s: string)
    requires s != []
    ensures MetaFree(s) <==> !IsMeta(s[0]) && MetaFree(s[1..])
  {
    if !IsMeta(s[0]) && MetaFree(s[1..]) {
      forall i | 1 <= i < |s| ensures !IsMeta(s[i]) {
        assert s[i] == s[1..][i - 1];
      }
    }
  }

  /**
   * Text is left unchanged by escaping exactly when it holds none of the four
   * metacharacters; every other character is copied as it is.
   */
  lemma {:induction false} EscapeFixedPoint(s: string)
    ensures Escape(s) == s <==> MetaFree(s)
  {
    if s != [] {
      EscapeFixedPoint(s[1..]);
      MetaFreeCons(s);
      if IsMeta(s[0]) {
        assert |Escape(s)| > |s| by {
          assert |EscapeChar(s[0])| >= 4;
        }
      } else {
        assert Escape(s) == [s[0]] + Escape(s[1..]);
        if Escape(s[1..]) != s[1..] {
          assert Escape(s)[1..] == Escape(s[1..]);
        }
        assert s == [s[0]] + s[1..];
      }
    }
  }

  /** The escaped text is free of metacharacters exactly when the original is. */
  lemma {:induction false} EscapeMetaFree(s: string)
    ensures MetaFree(Escape(s)) <==> MetaFree(s)
  {
    if s != [] {
      EscapeMetaFree(s[1..]);
      MetaFreeCons(s);
      var e, rest := EscapeChar(s[0]), Escape(s[1..]);
      if IsMeta(s[0]) {
        assert (e + rest)[0] == '&';
      } else {
        MetaFreeCons(e + rest);
        assert (e + rest)[1..] == rest;
      }
    }
  }

  /**
   * Escaping twice equals escaping once only for text without metacharacters:
   * already escaped text that holds a reference gets its `&` escaped again.
   */
  lemma EscapeIdempotentIff(s: string)
    ensures Escape(Escape(s)) == Escape(s) <==> MetaFree(s)
  {
    EscapeFixedPoint(Escape(s));
    EscapeMetaFree(s);
  }
}
