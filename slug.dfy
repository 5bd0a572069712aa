/** Slug derivation (app/page.tsx, `slugify`): the sub-domain label the page derives from
    the user's description. The stages are those of the source's expression chain:
    lower-case, canonical decomposition, removal of combining marks, collapse of every run
    of characters outside [a-z0-9] into one dash, trimming of dashes at both ends, a cut
    to 40 characters, and the fallback "mon-site" for an empty result. */
module Slug {

  const MaxLength: nat := 40
  const Fallback: string := "mon-site"

  // ---------------------------------------------------------------------------
  // Character stages
  // ---------------------------------------------------------------------------

  /** The capitals `toLowerCase` maps within Basic Latin and Latin-1: A-Z and U+00C0-U+00DE
      except the multiplication sign U+00D7. */
  predicate IsCapital(c: char) {
    'A' <= c <= 'Z' || (0xC0 <= c as int <= 0xDE && c as int != 0xD7)
  }

  /** `toUpperCase` on the small letters of Basic Latin and Latin-1 whose capital is in the
      same range (ß and ÿ have none there); every other character is left as it is. */
  function UpperChar(c: char): char {
    if 'a' <= c <= 'z' || (0xE0 <= c as int <= 0xFE && c as int != 0xF7)
    then (c as int - 0x20) as char
    else c
  }

  /** `toLowerCase` on one character, for Basic Latin and Latin-1: a capital becomes the
      small letter whose capital it is; every other character is left as it is. */
  function LowerChar(c: char): (r: char)
    ensures !IsCapital(r)
    ensures !IsCapital(c) ==> r == c
    ensures IsCapital(c) ==> r != c && UpperChar(r) == c
  {
    if IsCapital(c) then (c as int + 0x20) as char else c
  }

  /** `toLowerCase`, character by character. */
  function Lower(s: string): (r: string)
    ensures |r| == |s|
  {
    seq(|s|, k requires 0 <= k < |s| => LowerChar(s[k]))
  }

  /** After `toLowerCase` no capital is left, each capital has been replaced by its small
      letter, and every other character stays where it was. */
  lemma LowerSpec(s: string)
    ensures forall k :: 0 <= k < |s| ==> !IsCapital(Lower(s)[k])
    ensures forall k :: 0 <= k < |s| && !IsCapital(s[k]) ==> Lower(s)[k] == s[k]
    ensures forall k :: 0 <= k < |s| && IsCapital(s[k]) ==> UpperChar(Lower(s)[k]) == s[k]
  {
  }

  /** The block U+0300-U+036F removed by the first `replace`. */
  predicate IsCombiningMark(c: char) {
    0x300 <= c as int <= 0x36F
  }

  /** The Latin-1 small letters with a canonical decomposition: à-å, ç, è-ï, ñ, ò-ö, ù-ý
      and ÿ (æ, ð, ø and þ have none). */
  predicate Decomposes(c: char) {
    var n := c as int;
    (0xE0 <= n <= 0xEF && n != 0xE6) || 0xF1 <= n <= 0xF6 || 0xF9 <= n <= 0xFD || n == 0xFF
  }

  /** Canonical decomposition (NFD) of one character: a Latin-1 small letter with an
      accent becomes its base letter followed by its combining mark. Every other
      character is its own decomposition. */
  function Decompose(c: char): (r: string)
    ensures Decomposes(c) ==> |r| == 2 && 'a' <= r[0] <= 'z' && IsCombiningMark(r[1])
    ensures !Decomposes(c) ==> r == [c]
  {
    var n := c as int;
    if 0xE0 <= n <= 0xE5 then ['a', [0x300, 0x301, 0x302, 0x303, 0x308, 0x30A][n - 0xE0] as char]
    else if n == 0xE7 then ['c', 0x327 as char]
    else if 0xE8 <= n <= 0xEB then ['e', [0x300, 0x301, 0x302, 0x308][n - 0xE8] as char]
    else if 0xEC <= n <= 0xEF then ['i', [0x300, 0x301, 0x302, 0x308][n - 0xEC] as char]
    else if n == 0xF1 then ['n', 0x303 as char]
    else if 0xF2 <= n <= 0xF6 then ['o', [0x300, 0x301, 0x302, 0x303, 0x308][n - 0xF2] as char]
    else if 0xF9 <= n <= 0xFC then ['u', [0x300, 0x301, 0x302, 0x308][n - 0xF9] as char]
    else if n == 0xFD then ['y', 0x301 as char]
    else if n == 0xFF then ['y', 0x308 as char]
    else [c]
  }

  /** The text made of `f` of each character in turn. */
  function ConcatMap(f: char -> string, s: string): string
    decreases |s|
  {
    if s == [] then [] else f(s[0]) + ConcatMap(f, s[1..])
  }

  lemma {:induction false} ConcatMapAppend(f: char -> string, a: string, b: string)
    ensures ConcatMap(f, a + b) == ConcatMap(f, a) + ConcatMap(f, b)
    decreases |a|
  {
    if a == [] {
      assert a + b == b;
    } else {
      var c, u := a[0], a[1..];
      assert (a + b)[0] == c && (a + b)[1..] == u + b;
      ConcatMapAppend(f, u, b);
      assert f(c) + (ConcatMap(f, u) + ConcatMap(f, b)) == (f(c) + ConcatMap(f, u)) + ConcatMap(f, b);
    }
  }

  /** `normalize("NFD")`: each character replaced by its decomposition. */
  function Nfd(s: string): string {
    ConcatMap(Decompose, s)
  }

  /** The decomposition leaves no character that still decomposes, and a text without
      one is left as it is. */
  lemma {:induction false} NfdSpec(s: string)
    ensures forall k :: 0 <= k < |Nfd(s)| ==> !Decomposes(Nfd(s)[k])
    ensures (forall k :: 0 <= k < |s| ==> !Decomposes(s[k])) ==> Nfd(s) == s
    decreases |s|
  {
    if s != [] {
      var c, u := s[0], s[1..];
      var d := Decompose(c);
      assert Nfd(s) == d + Nfd(u);
      NfdSpec(u);
      forall k | 0 <= k < |Nfd(s)| ensures !Decomposes(Nfd(s)[k]) {
        if k >= |d| {
          assert Nfd(s)[k] == Nfd(u)[k - |d|];
        }
      }
      if forall k :: 0 <= k < |s| ==> !Decomposes(s[k]) {
        assert forall k :: 0 <= k < |u| ==> u[k] == s[k + 1];
        assert [c] + u == s;
      }
    }
  }

  /** `replace(/[\u0300-\u036f]/g, "")` */
  function DropMarks(s: string): string
    decreases |s|
  {
    if s == [] then [] else (if IsCombiningMark(s[0]) then [] else [s[0]]) + DropMarks(s[1..])
  }

  /** No mark is left, a text without marks is kept as it is, a text of marks only
      vanishes; with DropMarksAppend, the removal works character by character, so every
      other character is kept, in order. */
  lemma {:induction false} DropMarksSpec(s: string)
    ensures forall k :: 0 <= k < |DropMarks(s)| ==> !IsCombiningMark(DropMarks(s)[k])
    ensures (forall k :: 0 <= k < |s| ==> !IsCombiningMark(s[k])) ==> DropMarks(s) == s
    ensures (forall k :: 0 <= k < |s| ==> IsCombiningMark(s[k])) ==> DropMarks(s) == []
    decreases |s|
  {
    if s != [] {
      DropMarksSpec(s[1..]);
      assert forall k :: 0 <= k < |s[1..]| ==> s[1..][k] == s[k + 1];
      assert [s[0]] + s[1..] == s;
    }
  }

  lemma {:induction false} DropMarksAppend(a: string, b: string)
    ensures DropMarks(a + b) == DropMarks(a) + DropMarks(b)
    decreases |a|
  {
    if a == [] {
      assert a + b == b;
    } else {
      var head := if IsCombiningMark(a[0]) then [] else [a[0]];
      assert (a + b)[0] == a[0];
      assert (a + b)[1..] == a[1..] + b;
      assert DropMarks(a + b) == head + DropMarks(a[1..] + b);
      DropMarksAppend(a[1..], b);
      assert DropMarks(a) == head + DropMarks(a[1..]);
      assert head + (DropMarks(a[1..]) + DropMarks(b)) == (head + DropMarks(a[1..])) + DropMarks(b);
    }
  }

  lemma NfdAppend(a: string, b: string)
    ensures Nfd(a + b) == Nfd(a) + Nfd(b)
  {
    ConcatMapAppend(Decompose, a, b);
  }

  lemma LowerAppend(a: string, b: string)
    ensures Lower(a + b) == Lower(a) + Lower(b)
  {
    var l, r := Lower(a + b), Lower(a) + Lower(b);
    forall k | 0 <= k < |l|
      ensures l[k] == r[k]
    {
      if k < |a| {
        assert (a + b)[k] == a[k];
      } else {
        assert (a + b)[k] == b[k - |a|];
      }
    }
  }

  /** The normalisation works character by character. */
  lemma NormalizeAppend(a: string, b: string)
    ensures Normalize(a + b) == Normalize(a) + Normalize(b)
  {
    LowerAppend(a, b);
    NfdAppend(Lower(a), Lower(b));
    DropMarksAppend(Nfd(Lower(a)), Nfd(Lower(b)));
  }

  /** The text the separator collapse works on: lower-cased, decomposed, marks removed. */
  function Normalize(raw: string): string {
    DropMarks(Nfd(Lower(raw)))
  }

  // ---------------------------------------------------------------------------
  // The slug alphabet
  // ---------------------------------------------------------------------------

  predicate IsAlnum(c: char) {
    'a' <= c <= 'z' || '0' <= c <= '9'
  }

  predicate IsSlugChar(c: char) {
    IsAlnum(c) || c == '-'
  }

  predicate InAlphabet(s: string) {
    forall k :: 0 <= k < |s| ==> IsSlugChar(s[k])
  }

  predicate NoDoubleDash(s: string) {
    forall k :: 0 <= k < |s| - 1 ==> !(s[k] == '-' && s[k + 1] == '-')
  }

  /** The letters and digits of a text, in order: what a slug keeps of its input. */
  function Alnums(s: string): (r: string)
    decreases |s|
  {
    if s == [] then []
    else (if IsAlnum(s[0]) then [s[0]] else []) + Alnums(s[1..])
  }

  lemma {:induction false} AlnumsAppend(a: string, b: string)
    ensures Alnums(a + b) == Alnums(a) + Alnums(b)
    decreases |a|
  {
    if a == [] {
      assert a + b == b;
    } else {
      var head := if IsAlnum(a[0]) then [a[0]] else [];
      assert (a + b)[0] == a[0];
      assert (a + b)[1..] == a[1..] + b;
      assert Alnums(a + b) == head + Alnums(a[1..] + b);
      AlnumsAppend(a[1..], b);
      assert Alnums(a) == head + Alnums(a[1..]);
      assert head + (Alnums(a[1..]) + Alnums(b)) == (head + Alnums(a[1..])) + Alnums(b);
    }
  }

  // ---------------------------------------------------------------------------
  // Separator collapse, dash trimming, cut
  // ---------------------------------------------------------------------------

  /** Skips the rest of a run of separators (characters outside [a-z0-9]). */
  function SkipSeparators(s: string): (r: string)
    ensures |r| <= |s| && r == s[|s| - |r|..]
    ensures r == [] || IsAlnum(r[0])
    ensures Alnums(r) == Alnums(s)
    decreases |s|
  {
    if s != [] && !IsAlnum(s[0]) then SkipSeparators(s[1..]) else s
  }

  /** `replace(/[^a-z0-9]+/g, "-")`: every maximal run of separators becomes one dash. */
  function Collapse(s: string): string
    decreases |s|
  {
    if s == [] then []
    else if IsAlnum(s[0]) then [s[0]] + Collapse(s[1..])
    else "-" + Collapse(SkipSeparators(s[1..]))
  }

  /** The collapsed text is in [a-z0-9-] without two dashes in a row, is empty only for
      the empty input, starts with the input's first character or a dash, and keeps the
      input's letters and digits in order. */
  lemma {:induction false} CollapseShape(s: string)
    ensures var r := Collapse(s);
      InAlphabet(r) && NoDoubleDash(r)
      && (r == [] <==> s == [])
      && (s != [] && IsAlnum(s[0]) ==> r[0] == s[0])
      && (s != [] && !IsAlnum(s[0]) ==> r[0] == '-')
      && Alnums(r) == Alnums(s)
    decreases |s|
  {
    if s != [] {
      var head := if IsAlnum(s[0]) then [s[0]] else "-";
      var u := if IsAlnum(s[0]) then s[1..] else SkipSeparators(s[1..]);
      var c := Collapse(u);
      CollapseShape(u);
      assert Collapse(s) == head + c;
      assert Alnums(u) == Alnums(s[1..]);
      assert Alnums(s) == (if IsAlnum(s[0]) then [s[0]] else []) + Alnums(s[1..]);
      AlnumsAppend(head, c);
      assert Alnums(head) == (if IsAlnum(s[0]) then [s[0]] else []);
      assert !IsAlnum(s[0]) ==> u == [] || IsAlnum(u[0]);
      assert !IsAlnum(s[0]) ==> c == [] || c[0] != '-';
      var r := head + c;
      assert forall k :: 0 < k < |r| ==> r[k] == c[k - 1];
      assert NoDoubleDash(r) by {
        forall k | 0 <= k < |r| - 1 ensures !(r[k] == '-' && r[k + 1] == '-') {
          if k > 0 {
            assert r[k] == c[k - 1] && r[k + 1] == c[k];
          }
        }
      }
    }
  }

  /** The collapse spelled out the way the regular expression reads: first every
      character outside [a-z0-9] becomes a dash, then a dash that directly follows a dash
      is dropped. */
  function Dashes(s: string): (r: string)
    ensures |r| == |s|
    decreases |s|
  {
    if s == [] then [] else [if IsAlnum(s[0]) then s[0] else '-'] + Dashes(s[1..])
  }

  function Squeeze(s: string): string
    decreases |s|
  {
    if |s| <= 1 then s
    else if s[0] == '-' && s[1] == '-' then Squeeze(s[1..])
    else [s[0]] + Squeeze(s[1..])
  }

  /** Collapse places its dashes exactly where the reference does. */
  lemma {:induction false} CollapseIsSqueezedDashes(s: string)
    ensures Collapse(s) == Squeeze(Dashes(s))
    decreases |s|
  {
    if s != [] {
      var d := Dashes(s[1..]);
      assert Dashes(s) == [if IsAlnum(s[0]) then s[0] else '-'] + d;
      if IsAlnum(s[0]) {
        CollapseIsSqueezedDashes(s[1..]);
        SqueezeCons(s[0], d);
      } else {
        var rest := SkipSeparators(s[1..]);
        CollapseIsSqueezedDashes(rest);
        SqueezeAfterDash(s[1..]);
      }
    }
  }

  lemma SqueezeCons(c: char, d: string)
    requires c != '-'
    ensures Squeeze([c] + d) == [c] + Squeeze(d)
  {
    var s := [c] + d;
    assert s[1..] == d;
  }

  /** A dash followed by a run of separators squeezes to that one dash. */
  lemma {:induction false} SqueezeAfterDash(t: string)
    ensures Squeeze("-" + Dashes(t)) == "-" + Squeeze(Dashes(SkipSeparators(t)))
    decreases |t|
  {
    var s := "-" + Dashes(t);
    if t == [] {
      assert s == "-";
    } else {
      var d := Dashes(t[1..]);
      assert Dashes(t) == [if IsAlnum(t[0]) then t[0] else '-'] + d;
      assert s[1..] == Dashes(t);
      if IsAlnum(t[0]) {
        assert SkipSeparators(t) == t;
        assert s[0] == '-' && s[1] == t[0] != '-';
      } else {
        assert SkipSeparators(t) == SkipSeparators(t[1..]);
        assert s[0] == '-' && s[1] == '-';
        assert Squeeze(s) == Squeeze("-" + d);
        SqueezeAfterDash(t[1..]);
      }
    }
  }

  /** `^-+` removed */
  function TrimLeadingDashes(s: string): (r: string)
    ensures |r| <= |s| && r == s[|s| - |r|..]
    ensures r == [] || r[0] != '-'
    ensures Alnums(r) == Alnums(s)
    decreases |s|
  {
    if s != [] && s[0] == '-' then TrimLeadingDashes(s[1..]) else s
  }

  /** `-+$` removed */
  function TrimTrailingDashes(s: string): (r: string)
    ensures |r| <= |s| && r == s[..|r|]
    ensures r == [] || r[|r| - 1] != '-'
    ensures Alnums(r) == Alnums(s)
    decreases |s|
  {
    if s != [] && s[|s| - 1] == '-' then
      AlnumsAppend(s[..|s| - 1], [s[|s| - 1]]);
      assert s[..|s| - 1] + [s[|s| - 1]] == s;
      TrimTrailingDashes(s[..|s| - 1])
    else s
  }

  /** `replace(/^-+|-+$/g, "")` */
  function TrimDashes(s: string): string {
    TrimTrailingDashes(TrimLeadingDashes(s))
  }

  /** `slice(0, 40)` */
  function Cut(s: string): (r: string)
    ensures |r| <= MaxLength && |r| <= |s| && r == s[..|r|]
    ensures |s| <= MaxLength ==> r == s
    ensures |s| > MaxLength ==> |r| == MaxLength
  {
    if |s| <= MaxLength then s else s[..MaxLength]
  }

  // ---------------------------------------------------------------------------
  // slugify
  // ---------------------------------------------------------------------------

  /** What every slug looks like: 1 to 40 characters from [a-z0-9-], no leading dash, no
      two dashes in a row, and a trailing dash only where the 40-character cut fell on a
      separator. */
  predicate IsSlug(s: string) {
    0 < |s| <= MaxLength && InAlphabet(s) && NoDoubleDash(s) && s[0] != '-'
    && (s[|s| - 1] == '-' ==> |s| == MaxLength)
  }

  /** The collapsed and trimmed text, before the cut. */
  function Trimmed(raw: string): (t: string)
    ensures InAlphabet(t) && NoDoubleDash(t)
    ensures t == [] || (IsAlnum(t[0]) && IsAlnum(t[|t| - 1]))
    ensures Alnums(t) == Alnums(Normalize(raw))
    ensures t == [] <==> Alnums(Normalize(raw)) == []
  {
    CollapseShape(Normalize(raw));
    TrimmedShape(Collapse(Normalize(raw)));
    TrimDashes(Collapse(Normalize(raw)))
  }

  lemma TrimmedShape(c: string)
    requires InAlphabet(c) && NoDoubleDash(c)
    ensures var t := TrimDashes(c);
      InAlphabet(t) && NoDoubleDash(t)
      && (t == [] || (IsAlnum(t[0]) && IsAlnum(t[|t| - 1])))
      && Alnums(t) == Alnums(c)
      && (t == [] <==> Alnums(c) == [])
  {
    var l := TrimLeadingDashes(c);
    var t := TrimTrailingDashes(l);
    SliceKeepsShape(c, |c| - |l|, |c|);
    SliceKeepsShape(l, 0, |t|);
    assert t != [] ==> t[0] == l[0];
    AlnumsOfShape(t);
  }

  lemma SliceKeepsShape(s: string, i: nat, j: nat)
    requires i <= j <= |s|
    requires InAlphabet(s) && NoDoubleDash(s)
    ensures InAlphabet(s[i..j]) && NoDoubleDash(s[i..j])
  {
    forall k | 0 <= k < j - i - 1
      ensures !(s[i..j][k] == '-' && s[i..j][k + 1] == '-')
    {
      assert s[i..j][k] == s[i + k] && s[i..j][k + 1] == s[i + k + 1];
    }
  }

  /** A text that starts with a letter or digit keeps at least that one. */
  lemma AlnumsOfShape(t: string)
    ensures t != [] && IsAlnum(t[0]) ==> Alnums(t) != [] && Alnums(t)[0] == t[0]
  {
  }

  function Slugify(raw: string): (r: string)
    ensures IsSlug(r)
    ensures Alnums(Normalize(raw)) == [] ==> r == Fallback
  {
    var cut := Cut(Trimmed(raw));
    FallbackIsSlug();
    CutShape(Trimmed(raw));
    if cut == [] then Fallback else cut
  }

  lemma CutKeepsText(t: string)
    requires t != [] && IsAlnum(t[0])
    ensures Alnums(Cut(t)) != [] && Alnums(Cut(t)) <= Alnums(t)
  {
    var r := Cut(t);
    AlnumsAppend(r, t[|r|..]);
    assert r + t[|r|..] == t;
    AlnumsOfShape(r);
  }

  lemma FallbackIsSlug()
    ensures IsSlug(Fallback)
  {
    assert Fallback == ['m', 'o', 'n', '-', 's', 'i', 't', 'e'];
  }

  /** Cutting a trimmed text leaves a slug, or nothing when there was nothing. */
  lemma CutShape(t: string)
    requires InAlphabet(t) && NoDoubleDash(t)
    requires t == [] || (IsAlnum(t[0]) && IsAlnum(t[|t| - 1]))
    ensures Cut(t) == [] <==> t == []
    ensures Cut(t) != [] ==> IsSlug(Cut(t)) && Cut(t)[0] == t[0]
  {
    var r := Cut(t);
    SliceKeepsShape(t, 0, |r|);
    if |t| <= MaxLength {
      assert r == t;
    }
  }

  // ---------------------------------------------------------------------------
  // What a slug keeps of its input
  // ---------------------------------------------------------------------------

  /** A description with any letter or digit keeps its leading letters and digits, in
      order, and all of them when its collapsed form fits in 40 characters; one without
      any falls back to "mon-site". */
  lemma SlugifyKeepsText(raw: string)
    ensures Alnums(Normalize(raw)) == [] <==> Trimmed(raw) == []
    ensures Alnums(Normalize(raw)) != [] ==>
      Alnums(Slugify(raw)) != [] && Alnums(Slugify(raw)) <= Alnums(Normalize(raw))
    ensures |Trimmed(raw)| <= MaxLength && Trimmed(raw) != [] ==>
      Alnums(Slugify(raw)) == Alnums(Normalize(raw))
  {
    var t := Trimmed(raw);
    if t != [] {
      SlugifyIsCut(raw);
      CutKeepsText(t);
    }
  }

  /** When some letter or digit survives, the slug is the cut of the trimmed text. */
  lemma SlugifyIsCut(raw: string)
    ensures Trimmed(raw) != [] ==> Slugify(raw) == Cut(Trimmed(raw))
  {
    CutShape(Trimmed(raw));
  }

  // ---------------------------------------------------------------------------
  // Slugify is not idempotent
  // ---------------------------------------------------------------------------

  /** A character no normalisation stage touches. */
  predicate IsPlain(c: char) {
    !IsCapital(c) && !Decomposes(c) && !IsCombiningMark(c)
  }

  /** Text made of such characters is already normalised. */
  lemma NormalizePlain(s: string)
    requires forall k :: 0 <= k < |s| ==> IsPlain(s[k])
    ensures Normalize(s) == s
  {
    LowerSpec(s);
    assert Lower(s) == s;
    NfdSpec(s);
    DropMarksSpec(s);
  }

  lemma NormalizeFixesSlugText(s: string)
    requires InAlphabet(s)
    ensures Normalize(s) == s
  {
    assert forall k :: 0 <= k < |s| ==> IsPlain(s[k]) by {
      forall k | 0 <= k < |s| ensures IsPlain(s[k]) {
        assert IsSlugChar(s[k]);
      }
    }
    NormalizePlain(s);
  }

  lemma {:induction false} CollapseFixesSlugText(s: string)
    requires InAlphabet(s) && NoDoubleDash(s)
    ensures Collapse(s) == s
    decreases |s|
  {
    if s != [] {
      var t := s[1..];
      assert InAlphabet(t) && NoDoubleDash(t) by {
        SliceKeepsShape(s, 1, |s|);
      }
      CollapseFixesSlugText(t);
      if !IsAlnum(s[0]) {
        assert SkipSeparators(t) == t by {
          assert s[0] == '-' && (t == [] || t[0] == s[1]);
        }
      }
    }
  }

  /** Slugify applied to a slug gives the slug back, except that a trailing dash left by
      the cut is now trimmed. */
  lemma SlugifyOfSlug(s: string)
    requires IsSlug(s)
    ensures Slugify(s) == if s[|s| - 1] == '-' then s[..|s| - 1] else s
  {
    NormalizeFixesSlugText(s);
    CollapseFixesSlugText(s);
    assert Collapse(Normalize(s)) == s;
    assert TrimLeadingDashes(s) == s;
    var t := if s[|s| - 1] == '-' then s[..|s| - 1] else s;
    if s[|s| - 1] == '-' {
      assert |s| >= 2;
      assert t[|t| - 1] != '-';
      assert TrimTrailingDashes(s) == TrimTrailingDashes(t) == t;
    }
    assert Trimmed(s) == TrimDashes(s) == t;
    assert t != [] && Cut(t) == t;
    SlugifyIsCut(s);
  }

  /** A slug is a fixed point of Slugify exactly when it does not end with a dash. */
  lemma SlugifyIdempotentIff(raw: string)
    ensures Slugify(Slugify(raw)) == Slugify(raw) <==> Slugify(raw)[|Slugify(raw)| - 1] != '-'
  {
    SlugifyOfSlug(Slugify(raw));
  }

  /** 39 letters, a dash, one more letter: the cut keeps the dash, and slugifying the slug
      trims it away, so Slugify is not idempotent. */
  lemma SlugifyNotIdempotent()
    ensures var raw := seq(39, _ => 'a') + "-b";
            Slugify(raw) == seq(39, _ => 'a') + "-" && Slugify(Slugify(raw)) != Slugify(raw)
  {
    var a := seq(39, _ => 'a');
    var raw := a + "-b";
    assert |raw| == 41 && raw[39] == '-' && raw[40] == 'b';
    assert forall k :: 0 <= k < 39 ==> raw[k] == 'a';
    assert InAlphabet(raw) && NoDoubleDash(raw);
    NormalizeFixesSlugText(raw);
    assert Normalize(raw) == raw;
    CollapseFixesSlugText(raw);
    assert TrimLeadingDashes(raw) == raw;
    assert TrimTrailingDashes(raw) == raw;
    assert Trimmed(raw) == raw;
    var cut := raw[..40];
    assert Cut(raw) == cut;
    assert cut == a + "-";
    assert Slugify(raw) == cut;
    SlugifyIdempotentIff(raw);
  }

  // ---------------------------------------------------------------------------
  // Slugify on the page's own examples
  // ---------------------------------------------------------------------------

  /** Position `k` of `Dashes(s)` is `s[k]` when that is a letter or digit, else a dash. */
  lemma {:induction false} DashesAt(s: string, k: int)
    requires 0 <= k < |s|
    ensures Dashes(s)[k] == if IsAlnum(s[k]) then s[k] else '-'
    decreases k
  {
    assert Dashes(s) == [if IsAlnum(s[0]) then s[0] else '-'] + Dashes(s[1..]);
    if k > 0 {
      DashesAt(s[1..], k - 1);
    }
  }

  /** Every separator is followed by a letter or digit. */
  predicate SingleSeparators(s: string) {
    forall k :: 0 <= k < |s| && !IsAlnum(s[k]) ==> k + 1 < |s| && IsAlnum(s[k + 1])
  }

  /** A text whose separators stand alone collapses to it with each separator a dash. */
  lemma {:induction false} CollapseSingleSeparators(s: string)
    requires SingleSeparators(s)
    ensures Collapse(s) == Dashes(s)
    decreases |s|
  {
    if s != [] {
      var u := s[1..];
      assert SingleSeparators(u) by {
        forall k | 0 <= k < |u| && !IsAlnum(u[k]) ensures k + 1 < |u| && IsAlnum(u[k + 1]) {
          assert u[k] == s[k + 1];
        }
      }
      CollapseSingleSeparators(u);
      assert Dashes(s) == [if IsAlnum(s[0]) then s[0] else '-'] + Dashes(u);
      if !IsAlnum(s[0]) {
        assert u != [] && IsAlnum(u[0]);
        assert SkipSeparators(u) == u;
      }
    }
  }

  /** When the collapsed text neither starts nor ends with a dash and fits in 40
      characters, it is the slug. */
  lemma SlugifyWhenClean(raw: string, t: string)
    requires Collapse(Normalize(raw)) == t
    requires t != [] && IsAlnum(t[0]) && IsAlnum(t[|t| - 1]) && |t| <= MaxLength
    ensures Slugify(raw) == t
  {
    assert TrimLeadingDashes(t) == t;
    assert TrimTrailingDashes(t) == t;
    assert Trimmed(raw) == t;
    SlugifyIsCut(raw);
  }

  /** The three normalisation stages applied to one character. */
  function NormalizeChar(c: char): string {
    DropMarks(Decompose(LowerChar(c)))
  }

  lemma NormalizeSingle(c: char)
    ensures Normalize([c]) == NormalizeChar(c)
  {
    var l := LowerChar(c);
    assert Lower([c]) == [l];
    assert [l][1..] == [];
    assert Nfd([l]) == Decompose(l) + Nfd([]);
    assert Nfd([l]) == Decompose(l);
    assert Normalize([c]) == DropMarks(Nfd([l]));
  }

  /** A character no stage touches normalises to itself. */
  lemma NormalizeCharPlain(c: char)
    requires IsPlain(c)
    ensures NormalizeChar(c) == [c]
  {
    assert DropMarks([c]) == [c] + DropMarks([]);
  }

  /** A description that normalises to `n`, a text that starts and ends with a letter or
      digit and whose separators stand alone, has as its slug `n` with each separator a
      dash, when that fits in 40 characters. */
  lemma SlugifyOfSpaced(raw: string, n: string, t: string)
    requires Normalize(raw) == n && n != [] && IsAlnum(n[0]) && IsAlnum(n[|n| - 1])
    requires SingleSeparators(n)
    requires |t| == |n| <= MaxLength
    requires forall k :: 0 <= k < |n| ==> t[k] == if IsAlnum(n[k]) then n[k] else '-'
    ensures Slugify(raw) == t
  {
    CollapseSingleSeparators(n);
    forall k | 0 <= k < |n| ensures Dashes(n)[k] == t[k] {
      DashesAt(n, k);
    }
    assert Dashes(n) == t;
    SlugifyWhenClean(raw, t);
  }

  /** A text each of whose characters normalises to one character normalises to the
      text of those characters. */
  lemma {:induction false} NormalizeCharwise(raw: string, n: string)
    requires |n| == |raw|
    requires forall i :: 0 <= i < |raw| ==> NormalizeChar(raw[i]) == [n[i]]
    ensures Normalize(raw) == n
    decreases |raw|
  {
    if raw != [] {
      var tail, m := raw[1..], n[1..];
      assert raw == [raw[0]] + tail;
      NormalizeAppend([raw[0]], tail);
      NormalizeSingle(raw[0]);
      forall i | 0 <= i < |tail| ensures NormalizeChar(tail[i]) == [m[i]] {
        assert tail[i] == raw[i + 1] && m[i] == n[i + 1];
      }
      NormalizeCharwise(tail, m);
      assert n == [n[0]] + m;
    }
  }

  lemma NormalizeRestaurant(raw: string)
    requires raw == "Restaurant haut de gamme"
    ensures Normalize(raw) == "restaurant haut de gamme"
  {
    var n := "restaurant haut de gamme";
    forall i | 0 <= i < |raw| ensures NormalizeChar(raw[i]) == [n[i]] {
      if raw[i] == 'R' { assert NormalizeChar('R') == "r"; } else { NormalizeCharPlain(raw[i]); }
    }
    NormalizeCharwise(raw, n);
  }

  lemma RestaurantDashes(n: string, t: string)
    requires n == "restaurant haut de gamme" && t == "restaurant-haut-de-gamme"
    ensures SingleSeparators(n) && IsAlnum(n[0]) && IsAlnum(n[|n| - 1])
    ensures forall k :: 0 <= k < |n| ==> t[k] == if IsAlnum(n[k]) then n[k] else '-'
  {
    forall k | 0 <= k < |n| ensures t[k] == if IsAlnum(n[k]) then n[k] else '-' {
    }
  }

  lemma SlugifyRestaurantAt(raw: string, n: string, t: string)
    requires raw == "Restaurant haut de gamme"
    requires n == "restaurant haut de gamme" && t == "restaurant-haut-de-gamme"
    ensures Slugify(raw) == t
  {
    NormalizeRestaurant(raw);
    RestaurantDashes(n, t);
    SlugifyOfSpaced(raw, n, t);
  }

  /** The page's example "Restaurant haut de gamme": capital lowered, spaces to dashes. */
  lemma SlugifyRestaurant()
    ensures Slugify("Restaurant haut de gamme") == "restaurant-haut-de-gamme"
  {
    SlugifyRestaurantAt("Restaurant haut de gamme", "restaurant haut de gamme", "restaurant-haut-de-gamme");
  }

  lemma NormalizePlateforme(raw: string)
    requires raw == "Plateforme de towing 24/7"
    ensures Normalize(raw) == "plateforme de towing 24/7"
  {
    var n := "plateforme de towing 24/7";
    forall i | 0 <= i < |raw| ensures NormalizeChar(raw[i]) == [n[i]] {
      if raw[i] == 'P' { assert NormalizeChar('P') == "p"; } else { NormalizeCharPlain(raw[i]); }
    }
    NormalizeCharwise(raw, n);
  }

  lemma PlateformeDashes(n: string, t: string)
    requires n == "plateforme de towing 24/7" && t == "plateforme-de-towing-24-7"
    ensures SingleSeparators(n) && IsAlnum(n[0]) && IsAlnum(n[|n| - 1])
    ensures forall k :: 0 <= k < |n| ==> t[k] == if IsAlnum(n[k]) then n[k] else '-'
  {
    forall k | 0 <= k < |n| ensures t[k] == if IsAlnum(n[k]) then n[k] else '-' {
    }
  }

  lemma SlugifyPlateformeAt(raw: string, n: string, t: string)
    requires raw == "Plateforme de towing 24/7"
    requires n == "plateforme de towing 24/7" && t == "plateforme-de-towing-24-7"
    ensures Slugify(raw) == t
  {
    NormalizePlateforme(raw);
    PlateformeDashes(n, t);
    SlugifyOfSpaced(raw, n, t);
  }

  /** The page's example "Plateforme de towing 24/7": the slash becomes a dash too. */
  lemma SlugifyPlateforme()
    ensures Slugify("Plateforme de towing 24/7") == "plateforme-de-towing-24-7"
  {
    SlugifyPlateformeAt("Plateforme de towing 24/7", "plateforme de towing 24/7", "plateforme-de-towing-24-7");
  }

  lemma NormalizeCremeBrulee(raw: string)
    requires raw == "Crème Brûlée"
    ensures Normalize(raw) == "creme brulee"
  {
    var n := "creme brulee";
    forall i | 0 <= i < |raw| ensures NormalizeChar(raw[i]) == [n[i]] {
      if raw[i] == 'C' { assert NormalizeChar('C') == "c"; }
      else if raw[i] == 'B' { assert NormalizeChar('B') == "b"; }
      else if raw[i] == 'è' { assert NormalizeChar('è') == "e"; }
      else if raw[i] == 'û' { assert NormalizeChar('û') == "u"; }
      else if raw[i] == 'é' { assert NormalizeChar('é') == "e"; }
      else { NormalizeCharPlain(raw[i]); }
    }
    NormalizeCharwise(raw, n);
  }

  lemma CremeBruleeDashes(n: string, t: string)
    requires n == "creme brulee" && t == "creme-brulee"
    ensures SingleSeparators(n) && IsAlnum(n[0]) && IsAlnum(n[|n| - 1])
    ensures forall k :: 0 <= k < |n| ==> t[k] == if IsAlnum(n[k]) then n[k] else '-'
  {
    forall k | 0 <= k < |n| ensures t[k] == if IsAlnum(n[k]) then n[k] else '-' {
    }
  }

  lemma SlugifyCremeBruleeAt(raw: string, n: string, t: string)
    requires raw == "Crème Brûlée" && n == "creme brulee" && t == "creme-brulee"
    ensures Slugify(raw) == t
  {
    NormalizeCremeBrulee(raw);
    CremeBruleeDashes(n, t);
    SlugifyOfSpaced(raw, n, t);
  }

  /** Capitals are lowered and accents dropped: "Crème Brûlée" gives "creme-brulee". */
  lemma SlugifyCremeBrulee()
    ensures Slugify("Crème Brûlée") == "creme-brulee"
  {
    SlugifyCremeBruleeAt("Crème Brûlée", "creme brulee", "creme-brulee");
  }
}
