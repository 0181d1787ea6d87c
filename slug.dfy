/**
 * The organization slug: `name.toLowerCase()`, then every run of characters
 * other than a-z and 0-9 replaced by one "-" (`/[^a-z0-9]+/g`), then one
 * leading and one trailing "-" removed (`/^-|-$/g`).
 */
module Slug {

  predicate IsSlugChar(c: char)
  {
    'a' <= c <= 'z' || '0' <= c <= '9'
  }

  /** The characters a slug may hold. */
  predicate InSlugAlphabet(s: string)
  {
    forall k :: 0 <= k < |s| ==> IsSlugChar(s[k]) || s[k] == '-'
  }

  predicate NoDoubleDash(s: string)
  {
    forall k :: 0 <= k < |s| - 1 ==> !(s[k] == '-' && s[k + 1] == '-')
  }

  /** The shape every slug has. */
  predicate WellShaped(s: string)
  {
    && InSlugAlphabet(s)
    && NoDoubleDash(s)
    && (s != [] ==> s[0] != '-' && s[|s| - 1] != '-')
  }

  // ---------------------------------------------------------------------------
  // toLowerCase
  // ---------------------------------------------------------------------------

  /**
   * `c.toLowerCase()` as far as the slug can tell: A-Z become a-z; KELVIN
   * SIGN (U+212A) becomes "k" and LATIN CAPITAL LETTER I WITH DOT ABOVE
   * (U+0130) becomes "i" followed by COMBINING DOT ABOVE (U+0307), the only
   * two characters outside A-Z whose lower case holds a letter a-z. Every
   * other character is kept: its lower case, like itself, lies outside
   * a-z and 0-9, so the next step turns either into the same "-".
   */
  function LowerChar(c: char): (r: string)
    ensures 'A' <= c <= 'Z' ==> |r| == 1 && 'a' <= r[0] <= 'z' && r[0] as int == c as int + 32
    ensures c < '\U{80}' && !('A' <= c <= 'Z') ==> r == [c]
    ensures (exists k :: 0 <= k < |r| && IsSlugChar(r[k])) ==>
              IsSlugChar(c) || 'A' <= c <= 'Z' || c == '\U{212A}' || c == '\U{130}'
  {
    if 'A' <= c <= 'Z' then [(c as int + 32) as char]
    else if c == '\U{212A}' then "k"
    else if c == '\U{130}' then "i\U{307}"
    else [c]
  }

  /** `s.toLowerCase()`, character by character; slug text is already lower case. */
  function Lower(s: string): (r: string)
    ensures |s| <= |r| <= 2 * |s|
    ensures InSlugAlphabet(s) ==> r == s
  {
    if s == [] then []
    else
      assert InSlugAlphabet(s) ==> InSlugAlphabet(s[1..]) && (IsSlugChar(s[0]) || s[0] == '-');
      LowerChar(s[0]) + Lower(s[1..])
  }

  // ---------------------------------------------------------------------------
  // replace(/[^a-z0-9]+/g, "-")
  // ---------------------------------------------------------------------------

  /** What is left of `s` once its leading characters outside a-z, 0-9 are gone. */
  function DropNonSlug(s: string): (r: string)
    ensures |r| <= |s|
    ensures r == [] || IsSlugChar(r[0])
    ensures r == s[|s| - |r|..]
    ensures forall k :: 0 <= k < |s| - |r| ==> !IsSlugChar(s[k])
  {
    if s == [] || IsSlugChar(s[0]) then s else DropNonSlug(s[1..])
  }

  /** Every maximal run of characters outside a-z, 0-9 replaced by one "-". */
  function Collapse(s: string): (r: string)
    ensures InSlugAlphabet(r) && NoDoubleDash(r)
    ensures r == [] <==> s == []
    ensures s != [] && IsSlugChar(s[0]) ==> r[0] == s[0]
    ensures s != [] && !IsSlugChar(s[0]) ==> r[0] == '-'
    decreases |s|
  {
    if s == [] then []
    else if IsSlugChar(s[0]) then [s[0]] + Collapse(s[1..])
    else "-" + Collapse(DropNonSlug(s[1..]))
  }

  /**
   * Collapse read left to right, as the regular expression scans: `inRun`
   * says whether the previous character was outside a-z, 0-9. The first
   * character of a run emits "-", the others nothing.
   */
  function Runs(s: string, inRun: bool): string
  {
    if s == [] then []
    else if IsSlugChar(s[0]) then [s[0]] + Runs(s[1..], false)
    else (if inRun then [] else "-") + Runs(s[1..], true)
  }

  /** Whether the scan is inside a run after reading `s`. */
  function EndsInRun(s: string, inRun: bool): bool
  {
    if s == [] then inRun else !IsSlugChar(s[|s| - 1])
  }

  lemma {:induction false} RunsAppend(x: string, y: string, inRun: bool)
    ensures Runs(x + y, inRun) == Runs(x, inRun) + Runs(y, EndsInRun(x, inRun))
    decreases |x|
  {
    if x == [] {
      assert x + y == y;
    } else {
      var u, t := x + y, x[1..];
      var next := !IsSlugChar(x[0]);
      var head := if IsSlugChar(x[0]) then [x[0]] else if inRun then [] else "-";
      assert Runs(u, inRun) == head + Runs(t + y, next) by {
        assert u[0] == x[0] && u[1..] == t + y;
      }
      assert EndsInRun(t, next) == EndsInRun(x, inRun) by {
        if t != [] {
          assert t[|t| - 1] == x[|x| - 1];
        }
      }
      RunsAppend(t, y, next);
      ConcatAssoc(head, Runs(t, next), Runs(y, EndsInRun(x, inRun)));
    }
  }

  lemma ConcatAssoc(a: string, b: string, c: string)
    ensures a + (b + c) == (a + b) + c
  {
  }

  /** Inside a run, the rest of the run emits nothing. */
  lemma {:induction false} RunsSkip(s: string)
    ensures Runs(s, true) == Runs(DropNonSlug(s), true)
    decreases |s|
  {
    if s != [] && !IsSlugChar(s[0]) {
      RunsSkip(s[1..]);
    }
  }

  /** Collapse is the left-to-right scan started outside a run. */
  lemma {:induction false} CollapseIsRuns(s: string)
    ensures Collapse(s) == Runs(s, false)
    decreases |s|
  {
    if s != [] {
      if IsSlugChar(s[0]) {
        CollapseIsRuns(s[1..]);
      } else {
        var d := DropNonSlug(s[1..]);
        CollapseIsRuns(d);
        RunsSkip(s[1..]);
        assert Runs(d, true) == Runs(d, false);
      }
    }
  }

  /** A non-empty run of characters outside a-z, 0-9 collapses to one "-". */
  lemma CollapseRun(s: string)
    requires s != [] && forall k :: 0 <= k < |s| ==> !IsSlugChar(s[k])
    ensures Collapse(s) == "-"
  {
    assert DropNonSlug(s[1..]) == [];
  }

  /**
   * Collapsing is done piecewise when the cut does not fall inside a run:
   * either side is empty, or a slug character touches the cut.
   */
  lemma CollapseSplit(x: string, y: string)
    requires x == [] || y == [] || IsSlugChar(x[|x| - 1]) || IsSlugChar(y[0])
    ensures Collapse(x + y) == Collapse(x) + Collapse(y)
  {
    CollapseIsRuns(x + y);
    CollapseIsRuns(x);
    CollapseIsRuns(y);
    RunsAppend(x, y, false);
    if y != [] {
      assert Runs(y, true) == Runs(y, false) || !EndsInRun(x, false);
    }
  }

  // ---------------------------------------------------------------------------
  // replace(/^-|-$/g, "")
  // ---------------------------------------------------------------------------

  /** One leading "-" and one trailing "-" removed (a lone "-" goes entirely). */
  function TrimDashes(s: string): (r: string)
    ensures |r| <= |s|
    ensures NoDoubleDash(s) ==> r == [] || (r[0] != '-' && r[|r| - 1] != '-')
  {
    var t := if s != [] && s[0] == '-' then s[1..] else s;
    if t != [] && t[|t| - 1] == '-' then t[..|t| - 1] else t
  }

  /**
   * The slug the organization route derives from `name`. Every slug holds
   * only a-z, 0-9 and "-", and has no "-" at either end and no two in a row.
   */
  function MakeSlug(name: string): (r: string)
    ensures WellShaped(r)
  {
    var c := Collapse(Lower(name));
    TrimKeepsShape(c);
    TrimDashes(c)
  }

  // ---------------------------------------------------------------------------
  // The shape of a slug
  // ---------------------------------------------------------------------------

  /** TrimDashes only cuts at the ends: what is left is a slice of its input. */
  lemma TrimDashesSlice(s: string)
    ensures exists i, j :: 0 <= i <= j <= |s| && TrimDashes(s) == s[i..j]
  {
    var t := if s != [] && s[0] == '-' then s[1..] else s;
    var i := if s != [] && s[0] == '-' then 1 else 0;
    assert t == s[i..];
    if t != [] && t[|t| - 1] == '-' {
      assert TrimDashes(s) == s[i..|s| - 1];
    } else {
      assert TrimDashes(s) == s[i..|s|];
    }
  }

  /** Trimming collapsed text keeps its alphabet and leaves no double dash. */
  lemma TrimKeepsShape(c: string)
    requires InSlugAlphabet(c) && NoDoubleDash(c)
    ensures InSlugAlphabet(TrimDashes(c)) && NoDoubleDash(TrimDashes(c))
  {
    TrimDashesSlice(c);
    var i, j :| 0 <= i <= j <= |c| && TrimDashes(c) == c[i..j];
    SliceKeepsShape(c, i, j);
  }

  /** A slice of text without foreign characters or double dashes has none either. */
  lemma SliceKeepsShape(c: string, i: nat, j: nat)
    requires InSlugAlphabet(c) && NoDoubleDash(c) && i <= j <= |c|
    ensures InSlugAlphabet(c[i..j]) && NoDoubleDash(c[i..j])
  {
    var r := c[i..j];
    forall k | 0 <= k < |r| ensures IsSlugChar(r[k]) || r[k] == '-' {
      assert r[k] == c[i + k];
    }
    forall k | 0 <= k < |r| - 1 ensures !(r[k] == '-' && r[k + 1] == '-') {
      assert r[k] == c[i + k] && r[k + 1] == c[i + k + 1];
    }
  }

  // ---------------------------------------------------------------------------
  // Letters and digits survive
  // ---------------------------------------------------------------------------

  /** The letters a-z and digits 0-9 of `s`, in order. */
  function Alnum(s: string): string
  {
    if s == [] then [] else (if IsSlugChar(s[0]) then [s[0]] else []) + Alnum(s[1..])
  }

  lemma {:induction false} AlnumAppend(s: string, t: string)
    ensures Alnum(s + t) == Alnum(s) + Alnum(t)
    decreases |s|
  {
    if s == [] {
      assert s + t == t;
    } else {
      var u := s + t;
      assert u[0] == s[0] && u[1..] == s[1..] + t;
      AlnumAppend(s[1..], t);
      var head := if IsSlugChar(s[0]) then [s[0]] else [];
      assert Alnum(u) == head + Alnum(s[1..] + t);
    }
  }

  lemma {:induction false} AlnumDropNonSlug(s: string)
    ensures Alnum(DropNonSlug(s)) == Alnum(s)
    decreases |s|
  {
    if s != [] && !IsSlugChar(s[0]) {
      AlnumDropNonSlug(s[1..]);
    }
  }

  /** Collapsing runs never adds, drops or reorders a letter or digit. */
  lemma {:induction false} AlnumCollapse(s: string)
    ensures Alnum(Collapse(s)) == Alnum(s)
    decreases |s|
  {
    if s != [] {
      if IsSlugChar(s[0]) {
        AlnumAppend([s[0]], Collapse(s[1..]));
        AlnumCollapse(s[1..]);
      } else {
        var d := DropNonSlug(s[1..]);
        AlnumAppend("-", Collapse(d));
        AlnumCollapse(d);
        AlnumDropNonSlug(s[1..]);
      }
    }
  }

  /** A "-" at either end holds no letter or digit. */
  lemma AlnumDash(s: string)
    ensures Alnum("-" + s) == Alnum(s)
    ensures Alnum(s + "-") == Alnum(s)
  {
    AlnumAppend("-", s);
    AlnumAppend(s, "-");
    assert Alnum("-") == [] by {
      assert "-"[1..] == [];
    }
  }

  lemma AlnumTrimDashes(s: string)
    ensures Alnum(TrimDashes(s)) == Alnum(s)
  {
    var t := if s != [] && s[0] == '-' then s[1..] else s;
    if s != [] && s[0] == '-' {
      assert s == "-" + t;
      AlnumDash(t);
    }
    assert Alnum(t) == Alnum(s);
    if t != [] && t[|t| - 1] == '-' {
      var u := t[..|t| - 1];
      assert t == u + "-";
      AlnumDash(u);
    }
  }

  /** The letters and digits of a slug are those of the lower-cased name, in order. */
  lemma SlugKeepsAlnum(name: string)
    ensures Alnum(MakeSlug(name)) == Alnum(Lower(name))
  {
    AlnumTrimDashes(Collapse(Lower(name)));
    AlnumCollapse(Lower(name));
  }

  predicate IsAscii(s: string)
  {
    forall k :: 0 <= k < |s| ==> s[k] < '\U{80}'
  }

  /** The letters (lower-cased) and digits of ASCII text, in order. */
  function FoldedAlnum(s: string): (r: string)
    ensures forall k :: 0 <= k < |r| ==> IsSlugChar(r[k])
  {
    if s == [] then []
    else
      var c := s[0];
      (if IsSlugChar(c) then [c] else if 'A' <= c <= 'Z' then [(c as int + 32) as char] else [])
      + FoldedAlnum(s[1..])
  }

  lemma {:induction false} AlnumLowerAscii(s: string)
    requires IsAscii(s)
    ensures Alnum(Lower(s)) == FoldedAlnum(s)
    decreases |s|
  {
    if s != [] {
      AlnumAppend(LowerChar(s[0]), Lower(s[1..]));
      AlnumLowerAscii(s[1..]);
    }
  }

  /**
   * Over ASCII input, the slug's letters and digits are exactly the name's
   * letters (lower-cased) and digits, in the same order.
   */
  lemma SlugOfAscii(name: string)
    requires IsAscii(name)
    ensures Alnum(MakeSlug(name)) == FoldedAlnum(name)
  {
    SlugKeepsAlnum(name);
    AlnumLowerAscii(name);
  }

  // ---------------------------------------------------------------------------
  // Idempotence
  // ---------------------------------------------------------------------------

  lemma {:induction false} CollapseKeepsSlugText(s: string)
    requires InSlugAlphabet(s) && NoDoubleDash(s)
    ensures Collapse(s) == s
    decreases |s|
  {
    if s != [] {
      var t := s[1..];
      assert InSlugAlphabet(t) && NoDoubleDash(t);
      CollapseKeepsSlugText(t);
      if !IsSlugChar(s[0]) {
        assert t == [] || IsSlugChar(t[0]) by {
          if t != [] {
            assert s[0] == '-' && s[1] == t[0];
          }
        }
      }
    }
  }

  /** A well-shaped string is its own slug, so slugifying twice changes nothing. */
  lemma SlugIdempotent(name: string)
    ensures MakeSlug(MakeSlug(name)) == MakeSlug(name)
  {
    var s := MakeSlug(name);
    CollapseKeepsSlugText(s);
  }

  // ---------------------------------------------------------------------------
  // Separators
  // ---------------------------------------------------------------------------

  /** A character whose lower case holds no letter a-z or digit 0-9. */
  predicate IsSeparator(c: char)
  {
    !IsSlugChar(c) && !('A' <= c <= 'Z') && c != '\U{212A}' && c != '\U{130}'
  }

  predicate IsWord(w: string)
  {
    w != [] && forall k :: 0 <= k < |w| ==> IsSlugChar(w[k])
  }

  lemma {:induction false} LowerAppend(s: string, t: string)
    ensures Lower(s + t) == Lower(s) + Lower(t)
    decreases |s|
  {
    if s == [] {
      assert s + t == t;
    } else {
      var u := s + t;
      assert Lower(u) == LowerChar(s[0]) + Lower(s[1..] + t) by {
        assert u[0] == s[0] && u[1..] == s[1..] + t;
      }
      LowerAppend(s[1..], t);
      ConcatAssoc(LowerChar(s[0]), Lower(s[1..]), Lower(t));
    }
  }

  /** Separators lower-case to separators: nothing in a-z or 0-9 appears. */
  lemma {:induction false} LowerOfSeparators(s: string)
    requires forall k :: 0 <= k < |s| ==> IsSeparator(s[k])
    ensures forall k :: 0 <= k < |Lower(s)| ==> !IsSlugChar(Lower(s)[k])
    decreases |s|
  {
    if s != [] {
      var h, r := LowerChar(s[0]), Lower(s[1..]);
      LowerOfSeparators(s[1..]);
      assert Lower(s) == h + r;
      forall k | 0 <= k < |h| + |r| ensures !IsSlugChar((h + r)[k]) {
        if k < |h| {
          assert (h + r)[k] == h[k];
        } else {
          assert (h + r)[k] == r[k - |h|];
        }
      }
    }
  }

  /**
   * Two words of letters a-z and digits, with any run of separators between
   * them, give the two words joined by a single "-": "hi yo" and "hi -- yo"
   * both give "hi-yo", never "hiyo".
   */
  lemma SlugOfTwoWords(w1: string, sep: string, w2: string)
    requires IsWord(w1) && IsWord(w2)
    requires sep != [] && forall k :: 0 <= k < |sep| ==> IsSeparator(sep[k])
    ensures MakeSlug(w1 + sep + w2) == w1 + "-" + w2
  {
    var ls := Lower(sep);
    assert Lower(w1 + sep + w2) == w1 + (ls + w2) by {
      LowerAppend(w1 + sep, w2);
      LowerAppend(w1, sep);
      ConcatAssoc(w1, ls, w2);
    }
    LowerOfSeparators(sep);
    assert Collapse(w1 + (ls + w2)) == w1 + ("-" + w2) by {
      CollapseSplit(w1, ls + w2);
      CollapseSplit(ls, w2);
      CollapseKeepsSlugText(w1);
      CollapseKeepsSlugText(w2);
      CollapseRun(ls);
    }
    ConcatAssoc(w1, "-", w2);
  }

  /** The slug is empty exactly when the lower-cased name has no letter a-z or digit. */
  lemma SlugEmptyIffNoAlnum(name: string)
    ensures MakeSlug(name) == [] <==> Alnum(Lower(name)) == []
  {
    var s := MakeSlug(name);
    SlugKeepsAlnum(name);
    if s != [] {
      assert IsSlugChar(s[0]);
      assert Alnum(s) == [s[0]] + Alnum(s[1..]);
    }
  }

  /**
   * The slug the organization route stores when the base slug is taken:
   * the base, "-" and the suffix. It is well shaped when both parts are
   * well shaped and non-empty, and starts with "-" when the base is empty.
   */
  lemma SuffixedShape(base: string, suffix: string)
    ensures WellShaped(base) && base != [] && WellShaped(suffix) && suffix != [] ==>
              WellShaped(base + "-" + suffix)
    ensures base == [] ==> (base + "-" + suffix)[0] == '-' && !WellShaped(base + "-" + suffix)
  {
    var j := base + "-" + suffix;
    if WellShaped(base) && base != [] && WellShaped(suffix) && suffix != [] {
      forall k | 0 <= k < |j| ensures IsSlugChar(j[k]) || j[k] == '-' {
        if k < |base| {
          assert j[k] == base[k];
        } else if k > |base| {
          assert j[k] == suffix[k - |base| - 1];
        }
      }
      forall k | 0 <= k < |j| - 1 ensures !(j[k] == '-' && j[k + 1] == '-') {
        if k + 1 < |base| {
          assert j[k] == base[k] && j[k + 1] == base[k + 1];
        } else if k > |base| {
          assert j[k] == suffix[k - |base| - 1] && j[k + 1] == suffix[k - |base|];
        } else if k + 1 == |base| {
          assert j[k] == base[|base| - 1];
        } else {
          assert j[k + 1] == suffix[0];
        }
      }
      assert j[|j| - 1] == suffix[|suffix| - 1];
    }
    if base == [] {
      assert j[0] == '-';
    }
  }
}
