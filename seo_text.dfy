/**
 * The two text helpers of the programmatic SEO generator: `capitalize`
 * (used for every displayed dimension value) and `slugify` (defined in
 * programmatic-seo/generate-pages.js but not called). Case mapping is ASCII.
 */
module SeoText {
  import opened Wrappers
  import opened Strings

  /** `c.toUpperCase()` on ASCII letters. */
  function UpperChar(c: char): (u: char)
    ensures 'a' <= c <= 'z' ==> 'A' <= u <= 'Z' && u as int == c as int - 32
    ensures !('a' <= c <= 'z') ==> u == c
  {
    if 'a' <= c <= 'z' then (c as int - 32) as char else c
  }

  /** `c.toLowerCase()` on ASCII letters. */
  function LowerChar(c: char): (l: char)
    ensures 'A' <= c <= 'Z' ==> 'a' <= l <= 'z' && l as int == c as int + 32
    ensures !('A' <= c <= 'Z') ==> l == c
  {
    if 'A' <= c <= 'Z' then (c as int + 32) as char else c
  }

  /** `text.toLowerCase()`. */
  function Lower(s: string): (r: string)
    ensures |r| == |s|
    ensures forall i :: 0 <= i < |s| ==> r[i] == LowerChar(s[i])
  {
    seq(|s|, i requires 0 <= i < |s| => LowerChar(s[i]))
  }

  /** `word.charAt(0).toUpperCase() + word.slice(1)`. */
  function CapitalizeWord(w: string): string
  {
    if w == [] then [] else [UpperChar(w[0])] + w[1..]
  }

  function CapitalizeWords(ws: seq<string>): (r: seq<string>)
    ensures |r| == |ws|
    ensures forall k :: 0 <= k < |ws| ==> r[k] == CapitalizeWord(ws[k])
  {
    seq(|ws|, k requires 0 <= k < |ws| => CapitalizeWord(ws[k]))
  }

  /** `capitalize(str)`: split on '-', upper-case each word's first letter, join with spaces. */
  function Capitalize(s: string): string
  {
    Join(CapitalizeWords(Split(s, "-")), " ")
  }

  /**
   * What `capitalize` does, character by character: every '-' becomes a
   * space and every character that starts the text or follows a '-' is
   * upper-cased; nothing else changes.
   */
  function CapitalizedAt(s: string, i: nat): char
    requires i < |s|
  {
    if s[i] == '-' then ' '
    else if i == 0 || s[i - 1] == '-' then UpperChar(s[i])
    else s[i]
  }

  lemma WordCapitalized(w: string)
    requires '-' !in w
    ensures |CapitalizeWord(w)| == |w|
    ensures forall i :: 0 <= i < |w| ==> CapitalizeWord(w)[i] == CapitalizedAt(w, i)
  {
  }

  /** Past its first hyphen, `capitalize` continues on the rest of the text. */
  lemma CapitalizeAtHyphen(s: string, h: nat)
    requires IndexOf(s, "-") == Some(h)
    ensures '-' !in s[..h] && s[h] == '-'
    ensures Capitalize(s) == CapitalizeWord(s[..h]) + " " + Capitalize(s[h + 1..])
  {
    var w := s[..h];
    IndexOfFirst(s, "-");
    IndexOfFirst(w, "-");
    ContainsChar(w, '-');
    if Contains(w, "-") {
      PrefixOccurrence(s, h, "-", IndexOf(w, "-").value);
      assert false;
    }
    var rest := Split(s[h + 1..], "-");
    assert Split(s, "-") == [w] + rest;
    assert CapitalizeWords([w] + rest) == [CapitalizeWord(w)] + CapitalizeWords(rest);
    JoinAppend([CapitalizeWord(w)], CapitalizeWords(rest), " ");
  }

  /** Gluing the pointwise pictures of the text before and after a hyphen. */
  lemma PointwiseAroundHyphen(s: string, h: nat, a: string, b: string)
    requires h < |s| && s[h] == '-'
    requires |a| == h && forall i :: 0 <= i < h ==> a[i] == CapitalizedAt(s[..h], i)
    requires |b| == |s| - h - 1 && forall i :: 0 <= i < |b| ==> b[i] == CapitalizedAt(s[h + 1..], i)
    ensures |a + " " + b| == |s|
    ensures forall i :: 0 <= i < |s| ==> (a + " " + b)[i] == CapitalizedAt(s, i)
  {
    var r := a + " " + b;
    forall i | 0 <= i < |s|
      ensures r[i] == CapitalizedAt(s, i)
    {
      if i < h {
        assert r[i] == a[i];
        assert s[..h][i] == s[i];
        assert i > 0 ==> s[..h][i - 1] == s[i - 1];
      } else if i > h {
        assert r[i] == b[i - h - 1];
        assert s[h + 1..][i - h - 1] == s[i];
        assert i - h - 1 > 0 ==> s[h + 1..][i - h - 2] == s[i - 1];
      }
    }
  }

  /** `capitalize` keeps the length and agrees with `CapitalizedAt` everywhere. */
  lemma {:induction false} CapitalizePointwise(s: string)
    ensures |Capitalize(s)| == |s|
    ensures forall i :: 0 <= i < |s| ==> Capitalize(s)[i] == CapitalizedAt(s, i)
    decreases |s|
  {
    match IndexOf(s, "-")
    case None =>
      ContainsChar(s, '-');
      assert Split(s, "-") == [s];
      WordCapitalized(s);
    case Some(h) =>
      CapitalizeAtHyphen(s, h);
      WordCapitalized(s[..h]);
      CapitalizePointwise(s[h + 1..]);
      PointwiseAroundHyphen(s, h, CapitalizeWord(s[..h]), Capitalize(s[h + 1..]));
  }

  /** The characters `[a-z0-9]` kept by `slugify`. */
  predicate SlugChar(c: char)
  {
    'a' <= c <= 'z' || '0' <= c <= '9'
  }

  /**
   * `.replace(/[^a-z0-9]+/g, '-')`: every maximal run of other characters
   * becomes one '-'. `inRun` says the previous character already opened a run.
   */
  function CollapseRuns(s: string, inRun: bool): string
    decreases |s|
  {
    if s == [] then []
    else if SlugChar(s[0]) then [s[0]] + CollapseRuns(s[1..], false)
    else if inRun then CollapseRuns(s[1..], true)
    else "-" + CollapseRuns(s[1..], true)
  }

  /** `.replace(/(^-|-$)/g, '')`: drops one leading and one trailing '-'. */
  function TrimHyphens(s: string): string
  {
    var t := if |s| > 0 && s[0] == '-' then s[1..] else s;
    if |t| > 0 && t[|t| - 1] == '-' then t[..|t| - 1] else t
  }

  /** `slugify(text)`. */
  function Slugify(text: string): string
  {
    TrimHyphens(CollapseRuns(Lower(text), false))
  }

  /** Only `[a-z0-9]` and '-', never two '-' in a row. */
  predicate HyphenSeparated(s: string)
  {
    (forall i :: 0 <= i < |s| ==> SlugChar(s[i]) || s[i] == '-')
    && (forall i :: 0 <= i < |s| - 1 ==> !(s[i] == '-' && s[i + 1] == '-'))
  }

  /** A slug: hyphen-separated runs of `[a-z0-9]` with no hyphen at either end. */
  predicate IsSlug(s: string)
  {
    HyphenSeparated(s) && (|s| > 0 ==> s[0] != '-' && s[|s| - 1] != '-')
  }

  lemma {:induction false} CollapseRunsShape(s: string, inRun: bool)
    ensures HyphenSeparated(CollapseRuns(s, inRun))
    ensures inRun && |CollapseRuns(s, inRun)| > 0 ==> CollapseRuns(s, inRun)[0] != '-'
    decreases |s|
  {
    if s != [] {
      if SlugChar(s[0]) {
        CollapseRunsShape(s[1..], false);
      } else {
        CollapseRunsShape(s[1..], true);
      }
    }
  }

  /** `slugify` always produces a slug. */
  lemma SlugifyIsSlug(text: string)
    ensures IsSlug(Slugify(text))
  {
    var c := CollapseRuns(Lower(text), false);
    CollapseRunsShape(Lower(text), false);
    var t := if |c| > 0 && c[0] == '-' then c[1..] else c;
    assert HyphenSeparated(t) by {
      if |c| > 0 && c[0] == '-' {
        assert forall i :: 0 <= i < |t| ==> t[i] == c[i + 1];
      }
    }
    assert |t| > 0 ==> t[0] != '-';
    var r := TrimHyphens(c);
    assert r == if |t| > 0 && t[|t| - 1] == '-' then t[..|t| - 1] else t;
  }

  lemma {:induction false} CollapseRunsKeeps(s: string, inRun: bool)
    requires HyphenSeparated(s)
    requires inRun && |s| > 0 ==> s[0] != '-'
    ensures CollapseRuns(s, inRun) == s
    decreases |s|
  {
    if s != [] {
      assert HyphenSeparated(s[1..]);
      if SlugChar(s[0]) {
        CollapseRunsKeeps(s[1..], false);
      } else {
        CollapseRunsKeeps(s[1..], true);
        assert s == "-" + s[1..];
      }
    }
  }

  /** `slugify` leaves a slug as it is. */
  lemma SlugifyKeepsSlug(s: string)
    requires IsSlug(s)
    ensures Slugify(s) == s
  {
    assert Lower(s) == s;
    CollapseRunsKeeps(s, false);
  }

  /** `slugify` is idempotent. */
  lemma SlugifyIdempotent(text: string)
    ensures Slugify(Slugify(text)) == Slugify(text)
  {
    SlugifyIsSlug(text);
    SlugifyKeepsSlug(Slugify(text));
  }
}
