/** The pattern behind the search boxes (backend/app/core/search.py) and what LIKE makes of it. */
module Search {
  import opened Wrappers

  const ILIKE_ESCAPE: char := '\\'
  const MAX_SEARCH_LENGTH: nat := 64

  // ---------------------------------------------------------------- the pattern

  /** What str.strip() removes. */
  predicate IsSpace(c: char) {
    var n := c as int;
    || 0x09 <= n <= 0x0D || 0x1C <= n <= 0x20 || n == 0x85 || n == 0xA0 || n == 0x1680
    || 0x2000 <= n <= 0x200A || n == 0x2028 || n == 0x2029 || n == 0x202F || n == 0x205F || n == 0x3000
  }

  /** Exactly these, as Python documents them. */
  lemma SpacesAre(c: char)
    ensures IsSpace(c) <==>
              c as int in {0x09, 0x0A, 0x0B, 0x0C, 0x0D, 0x1C, 0x1D, 0x1E, 0x1F, 0x20, 0x85, 0xA0, 0x1680, 0x2000, 0x2001, 0x2002,
                           0x2003, 0x2004, 0x2005, 0x2006, 0x2007, 0x2008, 0x2009, 0x200A, 0x2028, 0x2029, 0x202F, 0x205F, 0x3000}
  {
  }

  function StripLeft(s: string): string {
    if s != "" && IsSpace(s[0]) then StripLeft(s[1..]) else s
  }

  function StripRight(s: string): string {
    if s != "" && IsSpace(s[|s| - 1]) then StripRight(s[..|s| - 1]) else s
  }

  function Strip(s: string): string {
    StripRight(StripLeft(s))
  }

  function Cleaned(value: Option<string>): string {
    var text := match value case None => "" case Some(s) => s;
    var stripped := Strip(text);
    if |stripped| > MAX_SEARCH_LENGTH then stripped[..MAX_SEARCH_LENGTH] else stripped
  }

  /** str.replace with a single character to look for. */
  function Replace(s: string, c: char, into: string): string {
    if s == "" then "" else (if s[0] == c then into else [s[0]]) + Replace(s[1..], c, into)
  }

  function ThreeReplaces(s: string): string {
    var backslashes := Replace(s, ILIKE_ESCAPE, [ILIKE_ESCAPE, ILIKE_ESCAPE]);
    var percents := Replace(backslashes, '%', [ILIKE_ESCAPE, '%']);
    Replace(percents, '_', [ILIKE_ESCAPE, '_'])
  }

  function IlikePattern(value: Option<string>): Option<string> {
    var cleaned := Cleaned(value);
    if cleaned == "" then None
    else
      Some("%" + ThreeReplaces(cleaned) + "%")
  }

  // ---------------------------------------------------------------- one escape per character

  predicate IsMeta(c: char) {
    c == ILIKE_ESCAPE || c == '%' || c == '_'
  }

  function Escape(s: string): string {
    if s == "" then "" else (if IsMeta(s[0]) then [ILIKE_ESCAPE, s[0]] else [s[0]]) + Escape(s[1..])
  }

  lemma {:induction false} ReplaceConcat(a: string, b: string, c: char, into: string)
    ensures Replace(a + b, c, into) == Replace(a, c, into) + Replace(b, c, into)
  {
    if a == "" {
      assert a + b == b;
    } else {
      var head := if a[0] == c then into else [a[0]];
      ReplaceConcat(a[1..], b, c, into);
      assert (a + b)[1..] == a[1..] + b && (a + b)[0] == a[0];
      assert Replace(a + b, c, into) == head + (Replace(a[1..], c, into) + Replace(b, c, into));
    }
  }

  lemma ReplaceTwo(x: char, y: char, c: char, into: string)
    ensures Replace([x], c, into) == if x == c then into else [x]
    ensures Replace([x, y], c, into) == Replace([x], c, into) + Replace([y], c, into)
  {
    assert [x][1..] == "" && [x, y] == [x] + [y];
    assert Replace("", c, into) == "";
    ReplaceConcat([x], [y], c, into);
  }

  /** The three replacements, one after the other, escape each character once: the backslash goes first. */
  lemma {:induction false} ThreeReplacesEscapeOnce(s: string)
    ensures ThreeReplaces(s) == Escape(s)
  {
    if s != "" {
      var one := Replace([s[0]], ILIKE_ESCAPE, [ILIKE_ESCAPE, ILIKE_ESCAPE]);
      var rest := Replace(s[1..], ILIKE_ESCAPE, [ILIKE_ESCAPE, ILIKE_ESCAPE]);
      ThreeReplacesEscapeOnce(s[1..]);
      assert s == [s[0]] + s[1..];
      ReplaceConcat([s[0]], s[1..], ILIKE_ESCAPE, [ILIKE_ESCAPE, ILIKE_ESCAPE]);
      ReplaceConcat(one, rest, '%', [ILIKE_ESCAPE, '%']);
      ReplaceConcat(Replace(one, '%', [ILIKE_ESCAPE, '%']), Replace(rest, '%', [ILIKE_ESCAPE, '%']), '_', [ILIKE_ESCAPE, '_']);
      OneCharacter(s[0]);
    }
  }

  lemma OneCharacter(c: char)
    ensures ThreeReplaces([c]) == if IsMeta(c) then [ILIKE_ESCAPE, c] else [c]
  {
    ReplaceTwo(c, c, ILIKE_ESCAPE, [ILIKE_ESCAPE, ILIKE_ESCAPE]);
    ReplaceTwo(ILIKE_ESCAPE, c, '%', [ILIKE_ESCAPE, '%']);
    ReplaceTwo(ILIKE_ESCAPE, c, '_', [ILIKE_ESCAPE, '_']);
    ReplaceTwo(c, c, '%', [ILIKE_ESCAPE, '%']);
    ReplaceTwo(c, c, '_', [ILIKE_ESCAPE, '_']);
  }

  // ---------------------------------------------------------------- LIKE

  /** LIKE with the backslash as its escape; `fold` is what makes it ILIKE. */
  predicate Like(p: string, t: string, fold: char -> char)
    decreases |p| + |t|
  {
    if p == "" then t == ""
    else if p[0] == '%' then Like(p[1..], t, fold) || (t != "" && Like(p, t[1..], fold))
    else if p[0] == '_' then t != "" && Like(p[1..], t[1..], fold)
    else if p[0] == '\\' then |p| > 1 && t != "" && fold(p[1]) == fold(t[0]) && Like(p[2..], t[1..], fold)
    else t != "" && fold(p[0]) == fold(t[0]) && Like(p[1..], t[1..], fold)
  }

  predicate SameFolded(a: string, b: string, fold: char -> char) {
    |a| == |b| && forall i :: 0 <= i < |a| ==> fold(a[i]) == fold(b[i])
  }

  /** `s` appears in `t`, up to folding. */
  predicate Contains(t: string, s: string, fold: char -> char) {
    exists k :: 0 <= k <= |t| - |s| && SameFolded(t[k..][..|s|], s, fold)
  }

  lemma {:induction false} PercentMatchesAnything(t: string, fold: char -> char)
    ensures Like("%", t, fold)
  {
    if t != "" {
      PercentMatchesAnything(t[1..], fold);
    } else {
      assert "%"[1..] == "";
    }
  }

  /** An escaped text matches itself and nothing else. */
  lemma {:induction false} EscapeMatchesItself(s: string, t: string, fold: char -> char)
    ensures Like(Escape(s) + "%", t, fold) <==> |s| <= |t| && SameFolded(t[..|s|], s, fold)
    decreases |s|
  {
    if s == "" {
      assert Escape(s) + "%" == "%";
      PercentMatchesAnything(t, fold);
    } else {
      var p := Escape(s) + "%";
      var rest := Escape(s[1..]) + "%";
      if IsMeta(s[0]) {
        assert p[0] == ILIKE_ESCAPE && p[1] == s[0] && p[2..] == rest;
      } else {
        assert p[0] == s[0] && p[1..] == rest;
      }
      if t != "" {
        EscapeMatchesItself(s[1..], t[1..], fold);
        HeadAndTail(s, t, fold);
      }
    }
  }

  lemma HeadAndTail(s: string, t: string, fold: char -> char)
    requires s != "" && t != ""
    ensures |s| <= |t| && SameFolded(t[..|s|], s, fold)
            <==> fold(s[0]) == fold(t[0]) && |s[1..]| <= |t[1..]| && SameFolded(t[1..][..|s[1..]|], s[1..], fold)
  {
    if |s| <= |t| {
      var a, b := t[..|s|], t[1..][..|s[1..]|];
      assert forall i :: 1 <= i < |s| ==> a[i] == b[i - 1] && s[i] == s[1..][i - 1];
      if fold(s[0]) == fold(t[0]) && SameFolded(b, s[1..], fold) {
        forall i | 0 <= i < |s|
          ensures fold(a[i]) == fold(s[i])
        {
          if i > 0 {
            assert fold(b[i - 1]) == fold(s[1..][i - 1]);
          }
        }
      }
    }
  }

  /** A leading % lets the rest match from any position on. */
  lemma {:induction false} PercentSearches(p: string, t: string, fold: char -> char)
    ensures Like("%" + p, t, fold) <==> exists k :: 0 <= k <= |t| && Like(p, t[k..], fold)
    decreases |t|
  {
    assert ("%" + p)[1..] == p && t[0..] == t;
    if t != "" {
      PercentSearches(p, t[1..], fold);
      assert forall k :: 1 <= k <= |t| ==> t[k..] == t[1..][k - 1..];
      if Like("%" + p, t[1..], fold) {
        var k :| 0 <= k <= |t[1..]| && Like(p, t[1..][k..], fold);
        assert t[k + 1..] == t[1..][k..];
      }
    }
  }

  /**
   Whatever is typed, wildcards and backslashes included: the pattern finds exactly the texts that contain
   the search text, trimmed and cut at 64 characters; and there is none when nothing is left of it.
   */
  lemma PatternFindsTheText(value: Option<string>, t: string, fold: char -> char)
    ensures IlikePattern(value).None? <==> Cleaned(value) == ""
    ensures IlikePattern(value).Some? ==> (Like(IlikePattern(value).value, t, fold) <==> Contains(t, Cleaned(value), fold))
  {
    var s := Cleaned(value);
    if s != "" {
      ThreeReplacesEscapeOnce(s);
      var p := Escape(s) + "%";
      assert IlikePattern(value).value == "%" + p;
      PercentSearches(p, t, fold);
      forall k | 0 <= k <= |t|
        ensures Like(p, t[k..], fold) <==> k <= |t| - |s| && SameFolded(t[k..][..|s|], s, fold)
      {
        EscapeMatchesItself(s, t[k..], fold);
      }
    }
  }

  lemma {:induction false} LeadingSpaces(s: string) returns (n: nat)
    ensures n <= |s| && StripLeft(s) == s[n..] && forall i :: 0 <= i < n ==> IsSpace(s[i])
    ensures n < |s| ==> !IsSpace(s[n])
  {
    n := 0;
    if s != "" && IsSpace(s[0]) {
      n := LeadingSpaces(s[1..]);
      assert forall i :: 1 <= i < n + 1 ==> s[i] == s[1..][i - 1];
      n := n + 1;
    }
  }

  lemma {:induction false} TrailingSpaces(s: string) returns (n: nat)
    ensures n <= |s| && StripRight(s) == s[..n] && forall i :: n <= i < |s| ==> IsSpace(s[i])
    ensures n > 0 ==> !IsSpace(s[n - 1])
  {
    n := |s|;
    if s != "" && IsSpace(s[n - 1]) {
      n := TrailingSpaces(s[..|s| - 1]);
      assert s[..|s| - 1][..n] == s[..n];
    }
  }

  /** Trimming takes the spaces at both ends, all of them and nothing else. */
  lemma StripTrims(s: string) returns (a: nat, b: nat)
    ensures a <= b <= |s| && Strip(s) == s[a..b]
    ensures forall i :: 0 <= i < a || b <= i < |s| ==> IsSpace(s[i])
    ensures a < b ==> !IsSpace(s[a]) && !IsSpace(s[b - 1])
  {
    a := LeadingSpaces(s);
    var n := TrailingSpaces(s[a..]);
    b := a + n;
    assert s[a..][..n] == s[a..b];
    assert forall i :: b <= i < |s| ==> s[i] == s[a..][i - a];
  }

  /** What is searched for: the text without the white space at its ends, and of that the first 64 characters. */
  lemma CleanedIs(value: Option<string>) returns (a: nat, b: nat)
    ensures var text := match value case None => "" case Some(s) => s;
            && a <= b <= |text|
            && (forall i :: 0 <= i < a || b <= i < |text| ==> IsSpace(text[i]))
            && (a < b ==> !IsSpace(text[a]) && !IsSpace(text[b - 1]))
            && Cleaned(value) == text[a..if b - a <= 64 then b else a + 64]
  {
    var text := match value case None => "" case Some(s) => s;
    a, b := StripTrims(text);
    if b - a > 64 {
      assert text[a..b][..64] == text[a..a + 64];
    }
  }
}
