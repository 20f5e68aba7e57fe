/**
 * Link handling: `normalizeHref`, which makes a relative link site-rooted and
 * leaves fragment, scheme-absolute and rooted links alone, and the string
 * fallback of `normalizePathForCompare`, which reduces a link to a canonical
 * path for comparison with the current page.
 */
module Links {
  import opened JsValues

  /** `/^#/i`: a fragment link. */
  predicate IsFragmentLink(t: string)
  {
    StartsWith(t, "#")
  }

  /** `prefix` (lower-case ASCII) starts `t` when ASCII case is ignored, as under the `i` flag. */
  predicate StartsWithIgnoringCase(t: string, prefix: string)
  {
    |prefix| <= |t| && Lower(t[..|prefix|]) == prefix
  }

  /** `/^(?:https?:|mailto:|tel:|\/\/)/i`: a scheme-absolute or protocol-relative link. */
  predicate HasScheme(t: string)
  {
    || StartsWithIgnoringCase(t, "http:")
    || StartsWithIgnoringCase(t, "https:")
    || StartsWithIgnoringCase(t, "mailto:")
    || StartsWithIgnoringCase(t, "tel:")
    || StartsWith(t, "//")
  }

  predicate IsRooted(t: string)
  {
    StartsWith(t, "/")
  }

  /** The links `normalizeHref` returns as they are (after trimming). */
  predicate KeptAsIs(t: string)
  {
    IsFragmentLink(t) || HasScheme(t) || IsRooted(t)
  }

  /** Every character of `s` is `/`. */
  predicate AllSlashes(s: string)
  {
    forall i | 0 <= i < |s| :: s[i] == '/'
  }

  /** `t.replace(/^\/+/, '')`: `t` without the run of `/` it starts with. */
  function StripLeadingSlashes(t: string): (r: string)
    ensures !IsRooted(r)
    ensures |r| <= |t| && r == t[|t| - |r|..]
    ensures AllSlashes(t[..|t| - |r|])
  {
    if IsRooted(t) then
      var r := StripLeadingSlashes(t[1..]);
      assert t[..|t| - |r|] == [t[0]] + t[1..][..|t| - 1 - |r|];
      r
    else t
  }

  /** `normalizeHref(h)` */
  function NormalizeHref(h: Value): Value
  {
    if !Truthy(h) then h
    else
      var t := Trim(ToString(h));
      if IsFragmentLink(t) then Str(t)
      else if HasScheme(t) then Str(t)
      else if IsRooted(t) then Str(t)
      else Str("/" + StripLeadingSlashes(t))
  }

  /**
   * `normalizeHref` by case: a falsy value comes back unchanged; otherwise the
   * trimmed text comes back as it is when it is a fragment, scheme-absolute or
   * rooted link, and with a `/` in front in every other case.
   */
  lemma NormalizeHrefCases(h: Value)
    ensures !Truthy(h) ==> NormalizeHref(h) == h
    ensures Truthy(h) ==>
      var t := Trim(ToString(h));
      NormalizeHref(h) == Str(if KeptAsIs(t) then t else "/" + t)
  {
  }

  lemma KeptAsIsNonEmpty(t: string)
    requires KeptAsIs(t)
    ensures t != []
  {
  }

  /** "/" + t for a trimmed `t` is trimmed and rooted. */
  lemma RootedTrimmed(t: string)
    requires IsTrimmed(t)
    ensures var r := "/" + t; IsTrimmed(r) && IsRooted(r) && KeptAsIs(r)
  {
    var r := "/" + t;
    assert r[0] == '/' && r[..1] == "/";
    assert t != [] ==> r[|r| - 1] == t[|t| - 1];
  }

  /**
   * Every link a truthy href normalizes to is a fragment, scheme-absolute or
   * rooted link, trimmed and non-empty; one that was not kept as it is
   * begins with `/`.
   */
  lemma NormalizeHrefResult(h: Value)
    requires Truthy(h)
    ensures NormalizeHref(h).Str?
    ensures var r := NormalizeHref(h).s; r != "" && IsTrimmed(r) && KeptAsIs(r)
    ensures !KeptAsIs(Trim(ToString(h))) ==> IsRooted(NormalizeHref(h).s)
  {
    var t := Trim(ToString(h));
    if KeptAsIs(t) {
      KeptAsIsNonEmpty(t);
      assert NormalizeHref(h) == Str(t);
    } else {
      assert NormalizeHref(h) == Str("/" + t);
      RootedTrimmed(t);
    }
  }

  /** A non-empty trimmed link that is kept as it is normalizes to itself. */
  lemma NormalizeHrefFixes(r: string)
    requires r != "" && IsTrimmed(r) && KeptAsIs(r)
    ensures NormalizeHref(Str(r)) == Str(r)
  {
    assert Truthy(Str(r)) && ToString(Str(r)) == r;
    assert Trim(r) == r;
  }

  /** Normalizing a second time changes nothing. */
  lemma NormalizeHrefIdempotent(h: Value)
    ensures NormalizeHref(NormalizeHref(h)) == NormalizeHref(h)
  {
    if Truthy(h) {
      NormalizeHrefResult(h);
      NormalizeHrefFixes(NormalizeHref(h).s);
    }
  }

  // ----- normalizePathForCompare, string branch -----

  /** `s.split(sep)[0]`: the text before the first `sep`. */
  function BeforeFirst(s: string, sep: char): (r: string)
    ensures |r| <= |s| && r == s[..|r|]
    ensures forall i | 0 <= i < |r| :: r[i] != sep
    ensures |r| == |s| || s[|r|] == sep
  {
    if s == [] || s[0] == sep then [] else [s[0]] + BeforeFirst(s[1..], sep)
  }

  /** `if (!s.startsWith('/')) s = '/' + s` */
  function Rooted(s: string): (r: string)
  {
    if IsRooted(s) then s else "/" + s
  }

  const IndexSuffix: string := "/index.html"

  /** Drop one trailing `/` unless the path is the root. */
  function DropTrailingSlash(path: string): string
  {
    if path != "/" && EndsWith(path, "/") then path[..|path| - 1] else path
  }

  /** Collapse a trailing `/index.html`, to `/` when nothing is left. */
  function DropIndex(p: string): string
  {
    if EndsWith(p, IndexSuffix) then
      if |p| == |IndexSuffix| then "/" else p[..|p| - |IndexSuffix|]
    else p
  }

  /** The shared tail of both branches (lines 52-53 and 58-59). */
  function CanonicalPath(path: string): string
  {
    DropIndex(DropTrailingSlash(path))
  }

  /** The string branch of `normalizePathForCompare(h)` (lines 48 and 56-60). */
  function NormalizePathForCompare(h: Value): string
  {
    if !Truthy(h) then ""
    else CanonicalPath(Rooted(BeforeFirst(BeforeFirst(ToString(h), '?'), '#')))
  }

  /**
   * `r` is what `CanonicalPath` makes of the rooted `path`: a rooted prefix of
   * it; the root stays the root; a path with a trailing `/` loses it, and
   * a trailing `/index.html` before it as well; a path without one loses a
   * trailing `/index.html`; a path that is nothing but the removed part
   * becomes `/`; any other path stays as it is.
   */
  predicate IsCanonicalPathOf(r: string, path: string)
  {
    && IsRooted(r) && |r| <= |path| && r == path[..|r|]
    && (path == "/" ==> r == "/")
    && (path != "/" && EndsWith(path, "/") && EndsWith(path[..|path| - 1], IndexSuffix) ==>
          path == r + IndexSuffix + "/" || (r == "/" && path == IndexSuffix + "/"))
    && (path != "/" && EndsWith(path, "/") && !EndsWith(path[..|path| - 1], IndexSuffix) ==>
          path == r + "/")
    && (!EndsWith(path, "/") && EndsWith(path, IndexSuffix) ==>
          path == r + IndexSuffix || (r == "/" && path == IndexSuffix))
    && (!EndsWith(path, "/") && !EndsWith(path, IndexSuffix) ==> r == path)
  }

  /** The first step keeps the path rooted and removes a trailing `/` from any path but the root. */
  lemma DropTrailingSlashShape(path: string)
    requires IsRooted(path)
    ensures var p := DropTrailingSlash(path);
      && IsRooted(p)
      && (path != "/" && EndsWith(path, "/") ==> path == p + "/")
      && (path == "/" || !EndsWith(path, "/") ==> p == path)
  {
    assert path[0] == '/';
    var p := DropTrailingSlash(path);
    assert p[0] == '/';
    assert p != path ==> path == p + "/";
  }

  /** The second step keeps the path rooted and removes a trailing `/index.html`, leaving at least `/`. */
  lemma DropIndexShape(p: string)
    requires IsRooted(p)
    ensures var r := DropIndex(p);
      && IsRooted(r) && |r| <= |p| && r == p[..|r|]
      && (EndsWith(p, IndexSuffix) ==> p == r + IndexSuffix || (r == "/" && p == IndexSuffix))
      && (!EndsWith(p, IndexSuffix) ==> r == p)
  {
    assert p[0] == '/';
    var r := DropIndex(p);
    if EndsWith(p, IndexSuffix) && |p| > |IndexSuffix| {
      assert r == p[..|p| - |IndexSuffix|];
      assert r[0] == '/' && r[..1] == "/";
      assert p == r + IndexSuffix;
    }
  }

  /** `CanonicalPath` does to a rooted path what `IsCanonicalPathOf` describes. */
  lemma CanonicalPathShape(path: string)
    requires IsRooted(path)
    ensures IsCanonicalPathOf(CanonicalPath(path), path)
  {
    DropTrailingSlashShape(path);
    var p := DropTrailingSlash(path);
    DropIndexShape(p);
    var r := DropIndex(p);
    if path != "/" && EndsWith(path, "/") {
      assert p == path[..|path| - 1];
      assert path[..|p|] == p;
      if EndsWith(p, IndexSuffix) && r != "/" {
        assert path == r + IndexSuffix + "/";
      }
    } else {
      assert !EndsWith(path, "/") ==> p == path;
    }
  }

  /**
   * `cut` is `s.split('?')[0].split('#')[0]`: the longest prefix of `s`
   * holding neither `?` nor `#`.
   */
  predicate IsQueryCut(cut: string, s: string)
  {
    && |cut| <= |s| && cut == s[..|cut|]
    && (forall i | 0 <= i < |cut| :: cut[i] != '?' && cut[i] != '#')
    && (|cut| == |s| || s[|cut|] == '?' || s[|cut|] == '#')
  }

  /** Cutting at the first `?` and then at the first `#` gives the query cut. */
  lemma BeforeFirstQueryCut(s: string)
    ensures IsQueryCut(BeforeFirst(BeforeFirst(s, '?'), '#'), s)
  {
    var a := BeforeFirst(s, '?');
    var cut := BeforeFirst(a, '#');
    assert s[..|cut|] == a[..|cut|];
    if |cut| < |a| {
      assert s[|cut|] == a[|cut|];
    }
  }

  /** A string has only one query cut. */
  lemma QueryCutUnique(c: string, s: string)
    requires IsQueryCut(c, s)
    ensures forall cut | IsQueryCut(cut, s) :: cut == c
  {
  }

  /** The first two steps of the string branch: cut at `?` and `#`, then root. */
  lemma RootedPathShape(s0: string)
    ensures var rooted := Rooted(BeforeFirst(BeforeFirst(s0, '?'), '#'));
      && IsRooted(rooted)
      && (forall i | 0 <= i < |rooted| :: rooted[i] != '?' && rooted[i] != '#')
  {
    var s := BeforeFirst(BeforeFirst(s0, '?'), '#');
    var rooted := Rooted(s);
    assert forall i | 0 <= i < |s| :: s[i] != '?' && s[i] != '#';
    if !IsRooted(s) {
      assert rooted[0] == '/' && rooted[..1] == "/";
      assert forall i | 1 <= i < |rooted| :: rooted[i] == s[i - 1];
    }
  }

  /**
   * The string branch returns "" for a falsy input; otherwise the canonical
   * form of the rooted query cut of the input's text, which is a non-empty
   * rooted path with no query and no fragment.
   */
  lemma NormalizePathResult(h: Value)
    ensures !Truthy(h) ==> NormalizePathForCompare(h) == ""
    ensures Truthy(h) ==>
      var r := NormalizePathForCompare(h);
      && r != "" && IsRooted(r)
      && (forall i | 0 <= i < |r| :: r[i] != '?' && r[i] != '#')
      && (forall cut | IsQueryCut(cut, ToString(h)) :: IsCanonicalPathOf(r, Rooted(cut)))
  {
    if Truthy(h) {
      StringPathResult(ToString(h));
    }
  }

  /** A canonical form of a path with no query and no fragment has none either. */
  lemma CanonicalKeepsNoQuery(r: string, path: string)
    requires IsCanonicalPathOf(r, path)
    requires forall i | 0 <= i < |path| :: path[i] != '?' && path[i] != '#'
    ensures r != "" && (forall i | 0 <= i < |r| :: r[i] != '?' && r[i] != '#')
  {
    assert forall i | 0 <= i < |r| :: r[i] == path[i];
  }

  /** `NormalizePathResult` for the text of a truthy value. */
  lemma StringPathResult(s0: string)
    ensures var r := CanonicalPath(Rooted(BeforeFirst(BeforeFirst(s0, '?'), '#')));
      && r != "" && IsRooted(r)
      && (forall i | 0 <= i < |r| :: r[i] != '?' && r[i] != '#')
      && (forall cut | IsQueryCut(cut, s0) :: IsCanonicalPathOf(r, Rooted(cut)))
  {
    var c := BeforeFirst(BeforeFirst(s0, '?'), '#');
    var rooted := Rooted(c);
    RootedPathShape(s0);
    CanonicalPathShape(rooted);
    CanonicalKeepsNoQuery(CanonicalPath(rooted), rooted);
    BeforeFirstQueryCut(s0);
    QueryCutUnique(c, s0);
  }
}
