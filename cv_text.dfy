/**
 * The text pipeline of app/api/process-cv/route.ts: the five cleaning steps
 * (line endings, newline runs, inline whitespace, special characters, trim),
 * the split into non-blank sections and the header formatting. Strings are
 * sequences of code points; `\w` and `toUpperCase` are taken as ASCII.
 */
module CvText {
  import opened Base

  // ---------------------------------------------------------------------
  // Character classes
  // ---------------------------------------------------------------------

  /** JavaScript's `\s` (WhiteSpace and LineTerminator), which is also what `trim` removes. */
  predicate IsSpace(c: char) {
    c == '\t' || c == '\n' || c == '\U{000B}' || c == '\U{000C}' || c == '\r' || c == ' '
    || c == '\U{00A0}' || c == '\U{1680}' || ('\U{2000}' <= c <= '\U{200A}')
    || c == '\U{2028}' || c == '\U{2029}' || c == '\U{202F}' || c == '\U{205F}'
    || c == '\U{3000}' || c == '\U{FEFF}'
  }

  /** `[^\S\n]`: whitespace other than a line feed. */
  predicate IsInlineSpace(c: char) {
    IsSpace(c) && c != '\n'
  }

  /** `\w` without the `u` flag. */
  predicate IsWordChar(c: char) {
    ('a' <= c <= 'z') || ('A' <= c <= 'Z') || ('0' <= c <= '9') || c == '_'
  }

  predicate IsPunct(c: char) {
    c == '.' || c == ',' || c == '!' || c == '?' || c == '-'
  }

  /** The characters the special-character step keeps: `[\w\s\n.,!?-]`. */
  predicate IsAllowed(c: char) {
    IsWordChar(c) || IsSpace(c) || IsPunct(c)
  }

  /** The alphabet of cleaned text. */
  predicate IsCleanChar(c: char) {
    IsWordChar(c) || IsPunct(c) || c == ' ' || c == '\n'
  }

  /** The characters no cleaning step removes. */
  predicate IsVisible(c: char) {
    IsWordChar(c) || IsPunct(c)
  }

  /** The visible characters of `s`, in order. */
  function Visible(s: string): string {
    if s == [] then [] else (if IsVisible(s[0]) then [s[0]] else []) + Visible(s[1..])
  }

  /** `s` with every occurrence of `c` removed. */
  function Drop(s: string, c: char): string {
    if s == [] then [] else (if s[0] == c then [] else [s[0]]) + Drop(s[1..], c)
  }

  /** `s` with its inline whitespace removed: the line feeds and non-whitespace characters, in order. */
  function DropInline(s: string): string {
    if s == [] then [] else (if IsInlineSpace(s[0]) then [] else [s[0]]) + DropInline(s[1..])
  }

  lemma {:induction false} VisibleConcat(a: string, b: string)
    ensures Visible(a + b) == Visible(a) + Visible(b)
  {
    if a != [] {
      assert (a + b)[0] == a[0] && (a + b)[1..] == a[1..] + b;
      VisibleConcat(a[1..], b);
    } else {
      assert a + b == b;
    }
  }

  lemma {:induction false} DropConcat(a: string, b: string, c: char)
    ensures Drop(a + b, c) == Drop(a, c) + Drop(b, c)
  {
    if a != [] {
      assert (a + b)[0] == a[0] && (a + b)[1..] == a[1..] + b;
      DropConcat(a[1..], b, c);
    } else {
      assert a + b == b;
    }
  }

  lemma {:induction false} DropInlineConcat(a: string, b: string)
    ensures DropInline(a + b) == DropInline(a) + DropInline(b)
  {
    if a != [] {
      assert (a + b)[0] == a[0] && (a + b)[1..] == a[1..] + b;
      DropInlineConcat(a[1..], b);
    } else {
      assert a + b == b;
    }
  }

  lemma {:induction false} VisibleOfSpaces(s: string)
    requires forall i :: 0 <= i < |s| ==> IsSpace(s[i])
    ensures Visible(s) == []
  {
    if s != [] {
      assert !IsVisible(s[0]);
      VisibleOfSpaces(s[1..]);
    }
  }

  // ---------------------------------------------------------------------
  // Step 1: .replace(/\r\n/g, '\n')
  // ---------------------------------------------------------------------

  function NormalizeLineEndings(s: string): string {
    if |s| >= 2 && s[0] == '\r' && s[1] == '\n' then "\n" + NormalizeLineEndings(s[2..])
    else if s == [] then []
    else [s[0]] + NormalizeLineEndings(s[1..])
  }

  /** The inverse direction: every line feed written as a CR LF pair. */
  function ToCrlf(s: string): string {
    if s == [] then [] else (if s[0] == '\n' then "\r\n" else [s[0]]) + ToCrlf(s[1..])
  }

  /** Text with no carriage return is left alone. */
  lemma {:induction false} NormalizeWithoutCr(s: string)
    requires '\r' !in s
    ensures NormalizeLineEndings(s) == s
  {
    if s != [] {
      NormalizeWithoutCr(s[1..]);
    }
  }

  /** Normalising undoes writing line feeds as CR LF. */
  lemma {:induction false} NormalizeUndoesCrlf(s: string)
    ensures NormalizeLineEndings(ToCrlf(s)) == s
  {
    if s != [] {
      NormalizeUndoesCrlf(s[1..]);
      if s[0] == '\n' {
        assert ToCrlf(s) == "\r\n" + ToCrlf(s[1..]);
        assert ToCrlf(s)[2..] == ToCrlf(s[1..]);
      } else {
        assert ToCrlf(s) == [s[0]] + ToCrlf(s[1..]);
        assert ToCrlf(s)[1..] == ToCrlf(s[1..]);
      }
    }
  }

  lemma {:induction false} NormalizeVisible(s: string)
    ensures Visible(NormalizeLineEndings(s)) == Visible(s)
    decreases |s|
  {
    if |s| >= 2 && s[0] == '\r' && s[1] == '\n' {
      NormalizeVisible(s[2..]);
      assert NormalizeLineEndings(s) == "\n" + NormalizeLineEndings(s[2..]);
      VisibleConcat("\n", NormalizeLineEndings(s[2..]));
      assert s[1..][1..] == s[2..];
      assert Visible(s) == Visible(s[1..]) == Visible(s[2..]);
    } else if s != [] {
      NormalizeVisible(s[1..]);
      assert NormalizeLineEndings(s) == [s[0]] + NormalizeLineEndings(s[1..]);
      VisibleConcat([s[0]], NormalizeLineEndings(s[1..]));
      assert Visible([s[0]]) == (if IsVisible(s[0]) then [s[0]] else []) by {
        assert [s[0]][1..] == [];
      }
    }
  }

  // ---------------------------------------------------------------------
  // Step 2: .replace(/\n{3,}/g, '\n\n')
  // ---------------------------------------------------------------------

  /** The length of the run of `c` at the start of `s`. */
  function LeadingRun(s: string, c: char): (n: nat)
    ensures n <= |s|
    ensures forall i :: 0 <= i < n ==> s[i] == c
    ensures n < |s| ==> s[n] != c
  {
    if s != [] && s[0] == c then 1 + LeadingRun(s[1..], c) else 0
  }

  function CollapseNewlines(s: string): string
    decreases |s|
  {
    if s == [] then []
    else if s[0] != '\n' then [s[0]] + CollapseNewlines(s[1..])
    else
      var n := LeadingRun(s, '\n');
      (if n >= 3 then "\n\n" else s[..n]) + CollapseNewlines(s[n..])
  }

  /** No three consecutive line feeds. */
  predicate NoNewlineRun3(s: string) {
    forall i :: 0 <= i && i + 2 < |s| ==> !(s[i] == '\n' && s[i + 1] == '\n' && s[i + 2] == '\n')
  }

  lemma CollapseNewlinesHead(s: string)
    requires s != [] && s[0] != '\n'
    ensures CollapseNewlines(s) != [] && CollapseNewlines(s)[0] == s[0]
  {
  }

  /** After the step no three consecutive line feeds remain. */
  lemma {:induction false} CollapseNewlinesBounded(s: string)
    ensures NoNewlineRun3(CollapseNewlines(s))
    decreases |s|
  {
    if s == [] {
    } else if s[0] != '\n' {
      CollapseNewlinesBounded(s[1..]);
      var r := CollapseNewlines(s);
      var t := CollapseNewlines(s[1..]);
      assert r == [s[0]] + t;
      forall i | 0 <= i && i + 2 < |r|
        ensures !(r[i] == '\n' && r[i + 1] == '\n' && r[i + 2] == '\n')
      {
        if i > 0 {
          assert r[i] == t[i - 1] && r[i + 1] == t[i] && r[i + 2] == t[i + 1];
        }
      }
    } else {
      var n := LeadingRun(s, '\n');
      var p: string := if n >= 3 then "\n\n" else s[..n];
      var t := CollapseNewlines(s[n..]);
      CollapseNewlinesBounded(s[n..]);
      if n < |s| {
        CollapseNewlinesHead(s[n..]);
      }
      var r := CollapseNewlines(s);
      assert r == p + t;
      assert |p| <= 2;
      forall i | 0 <= i && i + 2 < |r|
        ensures !(r[i] == '\n' && r[i + 1] == '\n' && r[i + 2] == '\n')
      {
        if i >= |p| {
          assert r[i] == t[i - |p|] && r[i + 1] == t[i - |p| + 1] && r[i + 2] == t[i - |p| + 2];
        } else {
          assert t != [] && r[|p|] == t[0] && t[0] != '\n';
        }
      }
    }
  }

  /** Runs of one or two line feeds are unchanged: text with no longer run is left alone. */
  lemma {:induction false} CollapseNewlinesKeepsShortRuns(s: string)
    requires NoNewlineRun3(s)
    ensures CollapseNewlines(s) == s
    decreases |s|
  {
    if s == [] {
    } else if s[0] != '\n' {
      assert NoNewlineRun3(s[1..]) by {
        forall i | 0 <= i && i + 2 < |s[1..]|
          ensures !(s[1..][i] == '\n' && s[1..][i + 1] == '\n' && s[1..][i + 2] == '\n')
        {
          assert s[1..][i] == s[i + 1] && s[1..][i + 1] == s[i + 2] && s[1..][i + 2] == s[i + 3];
        }
      }
      CollapseNewlinesKeepsShortRuns(s[1..]);
    } else {
      var n := LeadingRun(s, '\n');
      if |s| >= 3 {
        assert !(s[0] == '\n' && s[1] == '\n' && s[2] == '\n');
      }
      assert n < 3;
      assert NoNewlineRun3(s[n..]) by {
        forall i | 0 <= i && i + 2 < |s[n..]|
          ensures !(s[n..][i] == '\n' && s[n..][i + 1] == '\n' && s[n..][i + 2] == '\n')
        {
          assert s[n..][i] == s[n + i] && s[n..][i + 1] == s[n + i + 1] && s[n..][i + 2] == s[n + i + 2];
        }
      }
      CollapseNewlinesKeepsShortRuns(s[n..]);
      assert s[..n] + s[n..] == s;
    }
  }

  lemma CollapseNewlinesIdempotent(s: string)
    ensures CollapseNewlines(CollapseNewlines(s)) == CollapseNewlines(s)
  {
    CollapseNewlinesBounded(s);
    CollapseNewlinesKeepsShortRuns(CollapseNewlines(s));
  }

  lemma {:induction false} DropRun(s: string, n: nat, c: char)
    requires n <= |s| && forall i :: 0 <= i < n ==> s[i] == c
    ensures Drop(s[..n], c) == []
  {
    if n > 0 {
      assert s[..n][1..] == s[1..][..n - 1];
      DropRun(s[1..], n - 1, c);
    }
  }

  /** Everything but line feeds keeps its order: only runs of line feeds shrink. */
  lemma {:induction false} CollapseNewlinesKeepsOthers(s: string)
    ensures Drop(CollapseNewlines(s), '\n') == Drop(s, '\n')
    decreases |s|
  {
    if s == [] {
    } else if s[0] != '\n' {
      CollapseNewlinesKeepsOthers(s[1..]);
      DropConcat([s[0]], CollapseNewlines(s[1..]), '\n');
    } else {
      var n := LeadingRun(s, '\n');
      var p: string := if n >= 3 then "\n\n" else s[..n];
      CollapseNewlinesKeepsOthers(s[n..]);
      DropConcat(p, CollapseNewlines(s[n..]), '\n');
      DropRun(s, n, '\n');
      assert Drop(p, '\n') == [] by {
        if n >= 3 {
          assert Drop("\n\n", '\n') == Drop("\n", '\n');
        }
      }
      assert s[..n] + s[n..] == s;
      DropConcat(s[..n], s[n..], '\n');
    }
  }

  lemma {:induction false} CollapseNewlinesVisible(s: string)
    ensures Visible(CollapseNewlines(s)) == Visible(s)
    decreases |s|
  {
    if s == [] {
    } else if s[0] != '\n' {
      CollapseNewlinesVisible(s[1..]);
      VisibleConcat([s[0]], CollapseNewlines(s[1..]));
    } else {
      var n := LeadingRun(s, '\n');
      var p: string := if n >= 3 then "\n\n" else s[..n];
      CollapseNewlinesVisible(s[n..]);
      VisibleConcat(p, CollapseNewlines(s[n..]));
      VisibleOfSpaces(p);
      VisibleOfSpaces(s[..n]);
      assert s[..n] + s[n..] == s;
      VisibleConcat(s[..n], s[n..]);
    }
  }

  /** `k` copies of `c`. */
  function Copies(c: char, k: nat): string {
    seq(k, _ => c)
  }

  /** A run that ends inside `a`, or is followed by nothing or by another character, is measured within `a`. */
  lemma {:induction false} LeadingRunConcat(a: string, b: string, c: char)
    requires LeadingRun(a, c) < |a| || b == [] || b[0] != c
    ensures LeadingRun(a + b, c) == LeadingRun(a, c)
    decreases |a|
  {
    if a == [] {
      assert a + b == b;
    } else if a[0] == c {
      assert (a + b)[1..] == a[1..] + b;
      LeadingRunConcat(a[1..], b, c);
    }
  }

  lemma {:induction false} LeadingRunCopies(c: char, k: nat)
    ensures LeadingRun(Copies(c, k), c) == k
  {
    if k > 0 {
      assert Copies(c, k)[1..] == Copies(c, k - 1);
      LeadingRunCopies(c, k - 1);
    }
  }

  /**
   * The newline step rewrites text piece by piece: cut between two pieces
   * that are not both line feeds, each piece is rewritten on its own.
   */
  lemma {:induction false} CollapseNewlinesConcat(a: string, b: string)
    requires a == [] || b == [] || a[|a| - 1] != '\n' || b[0] != '\n'
    ensures CollapseNewlines(a + b) == CollapseNewlines(a) + CollapseNewlines(b)
    decreases |a|
  {
    if b == [] {
      assert a + b == a;
    } else if a == [] {
      assert a + b == b;
    } else if a[0] != '\n' {
      LastOfSuffix(a, 1);
      CollapseNewlinesConcat(a[1..], b);
      CollapseNewlinesSplitHead(a, b);
    } else {
      var n := LeadingRun(a, '\n');
      LeadingRunConcat(a, b, '\n');
      LastOfSuffix(a, n);
      CollapseNewlinesConcat(a[n..], b);
      CollapseNewlinesRunSplit(a, b, n);
    }
  }

  lemma CollapseNewlinesSplitHead(a: string, b: string)
    requires a != [] && a[0] != '\n'
    requires CollapseNewlines(a[1..] + b) == CollapseNewlines(a[1..]) + CollapseNewlines(b)
    ensures CollapseNewlines(a + b) == CollapseNewlines(a) + CollapseNewlines(b)
  {
    TailOfConcat(a, b);
    assert CollapseNewlines(a + b) == [a[0]] + CollapseNewlines(a[1..] + b);
    Regroup([a[0]], CollapseNewlines(a[1..]), CollapseNewlines(b));
  }

  lemma CollapseNewlinesRunSplit(a: string, b: string, n: nat)
    requires a != [] && a[0] == '\n' && n == LeadingRun(a, '\n') && n == LeadingRun(a + b, '\n')
    requires CollapseNewlines(a[n..] + b) == CollapseNewlines(a[n..]) + CollapseNewlines(b)
    ensures CollapseNewlines(a + b) == CollapseNewlines(a) + CollapseNewlines(b)
  {
    var head := if n >= 3 then "\n\n" else Copies('\n', n);
    CollapseNewlinesAtRun(a + b, n);
    CollapseNewlinesAtRun(a, n);
    SuffixOfConcat(a, b, n);
    Regroup(head, CollapseNewlines(a[n..]), CollapseNewlines(b));
  }

  lemma SuffixOfConcat(a: string, b: string, n: nat)
    requires n <= |a|
    ensures (a + b)[n..] == a[n..] + b
  {
  }

  lemma Regroup<T>(x: seq<T>, y: seq<T>, z: seq<T>)
    ensures x + (y + z) == (x + y) + z
  {
  }

  /** At a run of line feeds the step emits its replacement and goes on after the run. */
  lemma CollapseNewlinesAtRun(s: string, n: nat)
    requires s != [] && s[0] == '\n' && n == LeadingRun(s, '\n')
    ensures CollapseNewlines(s) == (if n >= 3 then "\n\n" else Copies('\n', n)) + CollapseNewlines(s[n..])
  {
    assert s[..n] == Copies('\n', n);
  }

  /**
   * The pieces: a maximal run of three or more line feeds becomes exactly
   * "\n\n", a shorter run is kept, and any other character is kept.
   */
  lemma CollapseNewlinesPieces(k: nat, c: char)
    ensures CollapseNewlines(Copies('\n', k)) == if k >= 3 then "\n\n" else Copies('\n', k)
    ensures c != '\n' ==> CollapseNewlines([c]) == [c]
  {
    if k > 0 {
      var s := Copies('\n', k);
      LeadingRunCopies('\n', k);
      assert s[0] == '\n';
      assert s[k..] == [];
      assert s[..k] == s;
    }
    if c != '\n' {
      assert [c][1..] == [];
    }
  }

  // ---------------------------------------------------------------------
  // Step 3: .replace(/[^\S\n]+/g, ' ')
  // ---------------------------------------------------------------------

  /** The length of the run of inline whitespace at the start of `s`. */
  function LeadingInline(s: string): (n: nat)
    ensures n <= |s|
    ensures forall i :: 0 <= i < n ==> IsInlineSpace(s[i])
    ensures n < |s| ==> !IsInlineSpace(s[n])
  {
    if s != [] && IsInlineSpace(s[0]) then 1 + LeadingInline(s[1..]) else 0
  }

  function CollapseInlineSpace(s: string): string
    decreases |s|
  {
    if s == [] then []
    else if !IsInlineSpace(s[0]) then [s[0]] + CollapseInlineSpace(s[1..])
    else " " + CollapseInlineSpace(s[LeadingInline(s)..])
  }

  /** Every inline whitespace character is a plain space and no two of them are adjacent. */
  predicate SingleSpaced(s: string) {
    && (forall i :: 0 <= i < |s| && IsInlineSpace(s[i]) ==> s[i] == ' ')
    && (forall i :: 0 <= i && i + 1 < |s| ==> !(IsInlineSpace(s[i]) && IsInlineSpace(s[i + 1])))
  }

  lemma CollapseInlineSpaceHead(s: string)
    requires s != [] && !IsInlineSpace(s[0])
    ensures CollapseInlineSpace(s) != [] && CollapseInlineSpace(s)[0] == s[0]
  {
  }

  /** After the step every maximal run of inline whitespace is a single ' '. */
  lemma {:induction false} CollapseInlineSpaceSingle(s: string)
    ensures SingleSpaced(CollapseInlineSpace(s))
    decreases |s|
  {
    if s == [] {
    } else if !IsInlineSpace(s[0]) {
      CollapseInlineSpaceSingle(s[1..]);
      var t := CollapseInlineSpace(s[1..]);
      var r := CollapseInlineSpace(s);
      assert r == [s[0]] + t;
      forall i | 0 <= i < |r| && IsInlineSpace(r[i])
        ensures r[i] == ' '
      {
        assert r[i] == t[i - 1];
      }
      forall i | 0 <= i && i + 1 < |r|
        ensures !(IsInlineSpace(r[i]) && IsInlineSpace(r[i + 1]))
      {
        if i > 0 {
          assert r[i] == t[i - 1] && r[i + 1] == t[i];
        }
      }
    } else {
      var n := LeadingInline(s);
      var t := CollapseInlineSpace(s[n..]);
      CollapseInlineSpaceSingle(s[n..]);
      if n < |s| {
        CollapseInlineSpaceHead(s[n..]);
      }
      var r := CollapseInlineSpace(s);
      assert r == " " + t;
      forall i | 0 <= i < |r| && IsInlineSpace(r[i])
        ensures r[i] == ' '
      {
        if i > 0 {
          assert r[i] == t[i - 1];
        }
      }
      forall i | 0 <= i && i + 1 < |r|
        ensures !(IsInlineSpace(r[i]) && IsInlineSpace(r[i + 1]))
      {
        if i > 0 {
          assert r[i] == t[i - 1] && r[i + 1] == t[i];
        } else {
          assert r[1] == t[0] && !IsInlineSpace(t[0]);
        }
      }
    }
  }

  /** Single-spaced text is left alone. */
  lemma {:induction false} CollapseInlineSpaceKeepsSingle(s: string)
    requires SingleSpaced(s)
    ensures CollapseInlineSpace(s) == s
    decreases |s|
  {
    if s != [] {
      assert SingleSpaced(s[1..]) by {
        forall i | 0 <= i && i + 1 < |s[1..]|
          ensures !(IsInlineSpace(s[1..][i]) && IsInlineSpace(s[1..][i + 1]))
        {
          assert s[1..][i] == s[i + 1] && s[1..][i + 1] == s[i + 2];
        }
        forall i | 0 <= i < |s[1..]| && IsInlineSpace(s[1..][i])
          ensures s[1..][i] == ' '
        {
          assert s[1..][i] == s[i + 1];
        }
      }
      CollapseInlineSpaceKeepsSingle(s[1..]);
      if IsInlineSpace(s[0]) {
        if |s| > 1 {
          assert !(IsInlineSpace(s[0]) && IsInlineSpace(s[1]));
        }
        assert LeadingInline(s) == 1;
        assert s == " " + s[1..];
      }
    }
  }

  lemma CollapseInlineSpaceIdempotent(s: string)
    ensures CollapseInlineSpace(CollapseInlineSpace(s)) == CollapseInlineSpace(s)
  {
    CollapseInlineSpaceSingle(s);
    CollapseInlineSpaceKeepsSingle(CollapseInlineSpace(s));
  }

  lemma {:induction false} DropInlineRun(s: string, n: nat)
    requires n <= |s| && forall i :: 0 <= i < n ==> IsInlineSpace(s[i])
    ensures DropInline(s[..n]) == []
  {
    if n > 0 {
      assert s[..n][1..] == s[1..][..n - 1];
      DropInlineRun(s[1..], n - 1);
    }
  }

  /** Line feeds and non-whitespace characters keep their order. */
  lemma {:induction false} CollapseInlineSpaceKeepsOthers(s: string)
    ensures DropInline(CollapseInlineSpace(s)) == DropInline(s)
    decreases |s|
  {
    if s == [] {
    } else if !IsInlineSpace(s[0]) {
      CollapseInlineSpaceKeepsOthers(s[1..]);
      assert CollapseInlineSpace(s) == [s[0]] + CollapseInlineSpace(s[1..]);
      DropInlineConcat([s[0]], CollapseInlineSpace(s[1..]));
      assert DropInline([s[0]]) == [s[0]] by {
        assert [s[0]][1..] == [];
      }
    } else {
      var n := LeadingInline(s);
      CollapseInlineSpaceKeepsOthers(s[n..]);
      assert CollapseInlineSpace(s) == " " + CollapseInlineSpace(s[n..]);
      DropInlineConcat(" ", CollapseInlineSpace(s[n..]));
      assert DropInline(" ") == [] by {
        assert " "[1..] == [];
      }
      DropInlineRun(s, n);
      assert s[..n] + s[n..] == s;
      DropInlineConcat(s[..n], s[n..]);
    }
  }

  lemma {:induction false} CollapseInlineSpaceVisible(s: string)
    ensures Visible(CollapseInlineSpace(s)) == Visible(s)
    decreases |s|
  {
    if s == [] {
    } else if !IsInlineSpace(s[0]) {
      CollapseInlineSpaceVisible(s[1..]);
      VisibleConcat([s[0]], CollapseInlineSpace(s[1..]));
    } else {
      var n := LeadingInline(s);
      CollapseInlineSpaceVisible(s[n..]);
      VisibleConcat(" ", CollapseInlineSpace(s[n..]));
      VisibleOfSpaces(s[..n]);
      assert s[..n] + s[n..] == s;
      VisibleConcat(s[..n], s[n..]);
    }
  }

  /** A run that ends inside `a`, or is followed by nothing or by a non-space, is measured within `a`. */
  lemma {:induction false} LeadingInlineConcat(a: string, b: string)
    requires LeadingInline(a) < |a| || b == [] || !IsInlineSpace(b[0])
    ensures LeadingInline(a + b) == LeadingInline(a)
    decreases |a|
  {
    if a == [] {
      assert a + b == b;
    } else if IsInlineSpace(a[0]) {
      assert (a + b)[1..] == a[1..] + b;
      LeadingInlineConcat(a[1..], b);
    }
  }

  lemma {:induction false} LeadingInlineAll(r: string)
    requires forall i :: 0 <= i < |r| ==> IsInlineSpace(r[i])
    ensures LeadingInline(r) == |r|
  {
    if r != [] {
      LeadingInlineAll(r[1..]);
    }
  }

  /**
   * The whitespace step rewrites text piece by piece: cut between two pieces
   * that are not both inline whitespace, each piece is rewritten on its own.
   */
  lemma {:induction false} CollapseInlineSpaceConcat(a: string, b: string)
    requires a == [] || b == [] || !IsInlineSpace(a[|a| - 1]) || !IsInlineSpace(b[0])
    ensures CollapseInlineSpace(a + b) == CollapseInlineSpace(a) + CollapseInlineSpace(b)
    decreases |a|
  {
    if b == [] {
      assert a + b == a;
    } else if a == [] {
      assert a + b == b;
    } else if !IsInlineSpace(a[0]) {
      LastOfSuffix(a, 1);
      CollapseInlineSpaceConcat(a[1..], b);
      CollapseInlineSpaceSplitHead(a, b);
    } else {
      var n := LeadingInline(a);
      LeadingInlineConcat(a, b);
      LastOfSuffix(a, n);
      CollapseInlineSpaceConcat(a[n..], b);
      CollapseInlineSpaceRunSplit(a, b, n);
    }
  }

  lemma CollapseInlineSpaceSplitHead(a: string, b: string)
    requires a != [] && !IsInlineSpace(a[0])
    requires CollapseInlineSpace(a[1..] + b) == CollapseInlineSpace(a[1..]) + CollapseInlineSpace(b)
    ensures CollapseInlineSpace(a + b) == CollapseInlineSpace(a) + CollapseInlineSpace(b)
  {
    TailOfConcat(a, b);
    assert CollapseInlineSpace(a + b) == [a[0]] + CollapseInlineSpace(a[1..] + b);
    Regroup([a[0]], CollapseInlineSpace(a[1..]), CollapseInlineSpace(b));
  }

  lemma CollapseInlineSpaceRunSplit(a: string, b: string, n: nat)
    requires a != [] && IsInlineSpace(a[0]) && n == LeadingInline(a) && n == LeadingInline(a + b)
    requires CollapseInlineSpace(a[n..] + b) == CollapseInlineSpace(a[n..]) + CollapseInlineSpace(b)
    ensures CollapseInlineSpace(a + b) == CollapseInlineSpace(a) + CollapseInlineSpace(b)
  {
    CollapseInlineSpaceAtRun(a + b);
    CollapseInlineSpaceAtRun(a);
    SuffixOfConcat(a, b, n);
    Regroup(" ", CollapseInlineSpace(a[n..]), CollapseInlineSpace(b));
  }

  /** At a run of inline whitespace the step emits one space and goes on after the run. */
  lemma CollapseInlineSpaceAtRun(s: string)
    requires s != [] && IsInlineSpace(s[0])
    ensures CollapseInlineSpace(s) == " " + CollapseInlineSpace(s[LeadingInline(s)..])
  {
  }

  /** The pieces: a maximal run of inline whitespace becomes exactly one ' '; any other character is kept. */
  lemma CollapseInlineSpacePieces(r: string, c: char)
    requires r != [] && forall i :: 0 <= i < |r| ==> IsInlineSpace(r[i])
    ensures CollapseInlineSpace(r) == " "
    ensures !IsInlineSpace(c) ==> CollapseInlineSpace([c]) == [c]
  {
    LeadingInlineAll(r);
    assert r[|r|..] == [];
    if !IsInlineSpace(c) {
      assert [c][1..] == [];
    }
  }

  // ---------------------------------------------------------------------
  // Step 4: .replace(/[^\w\s\n.,!?-]/g, '')
  // ---------------------------------------------------------------------

  function StripSpecial(s: string): string {
    if s == [] then [] else (if IsAllowed(s[0]) then [s[0]] else []) + StripSpecial(s[1..])
  }

  /** `a` can be obtained from `b` by deleting elements. */
  predicate IsSubsequence<T(==)>(a: seq<T>, b: seq<T>)
    decreases |b|
  {
    if a == [] then true
    else if b == [] then false
    else if a[0] == b[0] then IsSubsequence(a[1..], b[1..])
    else IsSubsequence(a, b[1..])
  }

  /** The step is a filter: its output is a subsequence of its input made of allowed characters only. */
  lemma {:induction false} StripSpecialFilters(s: string)
    ensures IsSubsequence(StripSpecial(s), s)
    ensures forall i :: 0 <= i < |StripSpecial(s)| ==> IsAllowed(StripSpecial(s)[i]) && StripSpecial(s)[i] in s
  {
    if s != [] {
      StripSpecialFilters(s[1..]);
      var t := StripSpecial(s[1..]);
      if IsAllowed(s[0]) {
        assert StripSpecial(s) == [s[0]] + t;
        assert ([s[0]] + t)[1..] == t;
      } else {
        assert StripSpecial(s) == t;
        if t != [] {
          assert t[0] != s[0];
        }
      }
    }
  }

  /** Text made of allowed characters only is left alone. */
  lemma {:induction false} StripSpecialKeepsAllowed(s: string)
    requires forall i :: 0 <= i < |s| ==> IsAllowed(s[i])
    ensures StripSpecial(s) == s
  {
    if s != [] {
      StripSpecialKeepsAllowed(s[1..]);
    }
  }

  lemma {:induction false} StripSpecialVisible(s: string)
    ensures Visible(StripSpecial(s)) == Visible(s)
  {
    if s != [] {
      StripSpecialVisible(s[1..]);
      VisibleConcat(if IsAllowed(s[0]) then [s[0]] else [], StripSpecial(s[1..]));
    }
  }

  /**
   * The filter works character by character: it distributes over
   * concatenation and keeps a single character exactly when it is allowed.
   */
  lemma {:induction false} StripSpecialConcat(a: string, b: string)
    ensures StripSpecial(a + b) == StripSpecial(a) + StripSpecial(b)
    ensures |a| == 1 ==> StripSpecial(a) == if IsAllowed(a[0]) then a else []
  {
    if a == [] {
      assert a + b == b;
    } else {
      assert (a + b)[1..] == a[1..] + b;
      StripSpecialConcat(a[1..], b);
      if |a| == 1 {
        assert a[1..] == [];
      }
    }
  }

  // ---------------------------------------------------------------------
  // Step 5: .trim()
  // ---------------------------------------------------------------------

  /** Every character is whitespace. */
  predicate AllSpace(s: string) {
    forall i :: 0 <= i < |s| ==> IsSpace(s[i])
  }
  function TrimStart(s: string): (r: string)
    ensures |r| <= |s| && r == s[|s| - |r|..]
    ensures forall i :: 0 <= i < |s| - |r| ==> IsSpace(s[i])
    ensures r != [] ==> !IsSpace(r[0])
  {
    if s != [] && IsSpace(s[0]) then
      var r := TrimStart(s[1..]);
      assert s[1..][|s[1..]| - |r|..] == s[|s| - |r|..];
      r
    else s
  }

  function TrimEnd(s: string): (r: string)
    ensures |r| <= |s| && r == s[..|r|]
    ensures forall i :: |r| <= i < |s| ==> IsSpace(s[i])
    ensures r != [] ==> !IsSpace(r[|r| - 1])
  {
    if s != [] && IsSpace(s[|s| - 1]) then
      var r := TrimEnd(s[..|s| - 1]);
      assert s[..|s| - 1][..|r|] == s[..|r|];
      r
    else s
  }

  /** Where the trimmed text starts in `s`: the length of the leading whitespace. */
  function TrimOffset(s: string): nat {
    |s| - |TrimStart(s)|
  }

  function Trim(s: string): string {
    TrimEnd(TrimStart(s))
  }

  /**
   * `trim` removes exactly the leading and trailing whitespace: the result is
   * the slice of `s` between them.
   */
  lemma TrimSlice(s: string)
    ensures TrimOffset(s) + |Trim(s)| <= |s| && Trim(s) == s[TrimOffset(s)..TrimOffset(s) + |Trim(s)|]
    ensures forall i :: 0 <= i < TrimOffset(s) ==> IsSpace(s[i])
    ensures forall i :: TrimOffset(s) + |Trim(s)| <= i < |s| ==> IsSpace(s[i])
  {
    var t := TrimStart(s);
    TrimTail(s, t, |s| - |t|, TrimEnd(t));
  }

  /** The trimmed text starts and ends with a non-whitespace character. */
  lemma TrimEnds(s: string)
    ensures Trim(s) != [] ==> !IsSpace(Trim(s)[0]) && !IsSpace(Trim(s)[|Trim(s)| - 1])
  {
    var t := TrimStart(s);
    var r := TrimEnd(t);
    if r != [] {
      assert r[0] == t[0];
    }
  }

  /** The trimmed text is empty exactly when `s` is all whitespace. */
  lemma TrimEmptyIff(s: string)
    ensures Trim(s) == [] <==> AllSpace(s)
  {
    TrimSlice(s);
    TrimEnds(s);
    TrimEmpty(s, TrimOffset(s), Trim(s));
  }

  lemma TrimEmpty(s: string, k: nat, r: string)
    requires k + |r| <= |s| && r == s[k..k + |r|]
    requires forall i :: 0 <= i < k ==> IsSpace(s[i])
    requires forall i :: k + |r| <= i < |s| ==> IsSpace(s[i])
    requires r != [] ==> !IsSpace(r[0])
    ensures r == [] <==> AllSpace(s)
  {
    if r != [] {
      assert s[k] == r[0];
    }
  }

  lemma TrimTail(s: string, t: string, k: nat, r: string)
    requires k <= |s| && t == s[k..]
    requires |r| <= |t| && r == t[..|r|]
    requires forall i :: |r| <= i < |t| ==> IsSpace(t[i])
    ensures r == s[k..k + |r|]
    ensures forall i :: k + |r| <= i < |s| ==> IsSpace(s[i])
  {
    forall i | k + |r| <= i < |s|
      ensures IsSpace(s[i])
    {
      assert s[i] == t[i - k];
    }
  }

  lemma TrimVisible(s: string)
    ensures Visible(Trim(s)) == Visible(s)
  {
    TrimSlice(s);
    VisibleOfSlice(s, TrimOffset(s), TrimOffset(s) + |Trim(s)|);
  }

  /** Cutting whitespace off both ends keeps the visible characters. */
  lemma VisibleOfSlice(s: string, k: nat, m: nat)
    requires k <= m <= |s|
    requires forall i :: 0 <= i < k ==> IsSpace(s[i])
    requires forall i :: m <= i < |s| ==> IsSpace(s[i])
    ensures Visible(s[k..m]) == Visible(s)
  {
    VisibleDropSpaces(s, k);
    VisibleOfSpacesFrom(s, m);
    assert s[k..] == s[k..m] + s[m..];
    VisibleConcat(s[k..m], s[m..]);
  }

  lemma {:induction false} VisibleDropSpaces(s: string, k: nat)
    requires k <= |s|
    requires forall i :: 0 <= i < k ==> IsSpace(s[i])
    ensures Visible(s[k..]) == Visible(s)
  {
    if k > 0 {
      assert !IsVisible(s[0]);
      VisibleDropSpaces(s[1..], k - 1);
      assert s[1..][k - 1..] == s[k..];
    }
  }

  lemma {:induction false} VisibleOfSpacesFrom(s: string, m: nat)
    requires m <= |s|
    requires forall i :: m <= i < |s| ==> IsSpace(s[i])
    ensures Visible(s[m..]) == []
    decreases |s| - m
  {
    if m < |s| {
      assert !IsVisible(s[m]);
      VisibleOfSpacesFrom(s, m + 1);
      assert s[m..][0] == s[m] && s[m..][1..] == s[m + 1..];
    }
  }

  // ---------------------------------------------------------------------
  // The cleaning chain
  // ---------------------------------------------------------------------

  function Clean(s: string): string {
    Trim(StripSpecial(CollapseInlineSpace(CollapseNewlines(NormalizeLineEndings(s)))))
  }

  /** Cleaning keeps every letter, digit, underscore and `.,!?-` of the input, in order. */
  lemma CleanKeepsVisible(s: string)
    ensures Visible(Clean(s)) == Visible(s)
  {
    var s1 := NormalizeLineEndings(s);
    var s2 := CollapseNewlines(s1);
    var s3 := CollapseInlineSpace(s2);
    var s4 := StripSpecial(s3);
    NormalizeVisible(s);
    CollapseNewlinesVisible(s1);
    CollapseInlineSpaceVisible(s2);
    StripSpecialVisible(s3);
    TrimVisible(s4);
  }

  /**
   * Cleaned text is made of ASCII letters, digits, `_`, `' '`, `'\n'` and
   * `.,!?-` only (so no carriage return or tab survives) and has no leading
   * or trailing whitespace.
   */
  lemma CleanAlphabet(s: string)
    ensures forall i :: 0 <= i < |Clean(s)| ==> IsCleanChar(Clean(s)[i])
    ensures Clean(s) != [] ==> !IsSpace(Clean(s)[0]) && !IsSpace(Clean(s)[|Clean(s)| - 1])
  {
    CleanChars(s);
    CleanEnds(s);
  }

  lemma CleanChars(s: string)
    ensures forall i :: 0 <= i < |Clean(s)| ==> IsCleanChar(Clean(s)[i])
  {
    var s2 := CollapseNewlines(NormalizeLineEndings(s));
    StrippedAlphabet(s2);
    TrimKeepsAlphabet(StripSpecial(CollapseInlineSpace(s2)));
  }

  lemma CleanEnds(s: string)
    ensures Clean(s) != [] ==> !IsSpace(Clean(s)[0]) && !IsSpace(Clean(s)[|Clean(s)| - 1])
  {
    TrimEnds(StripSpecial(CollapseInlineSpace(CollapseNewlines(NormalizeLineEndings(s)))));
  }

  /** After the inline-space and filter steps only the cleaned alphabet is left. */
  lemma StrippedAlphabet(s2: string)
    ensures forall i :: 0 <= i < |StripSpecial(CollapseInlineSpace(s2))| ==> IsCleanChar(StripSpecial(CollapseInlineSpace(s2))[i])
  {
    var s3 := CollapseInlineSpace(s2);
    var s4 := StripSpecial(s3);
    CollapseInlineSpaceSingle(s2);
    StripSpecialFilters(s3);
    forall i | 0 <= i < |s4|
      ensures IsCleanChar(s4[i])
    {
      var j :| 0 <= j < |s3| && s3[j] == s4[i];
      assert IsAllowed(s3[j]);
    }
  }

  lemma TrimKeepsAlphabet(s: string)
    requires forall i :: 0 <= i < |s| ==> IsCleanChar(s[i])
    ensures forall i :: 0 <= i < |Trim(s)| ==> IsCleanChar(Trim(s)[i])
  {
    var r := Trim(s);
    TrimSlice(s);
    forall i | 0 <= i < |r|
      ensures IsCleanChar(r[i])
    {
      assert r[i] == s[TrimOffset(s) + i];
    }
  }

  /** The cleaned text is empty exactly when the input has no letter, digit, underscore or `.,!?-`. */
  lemma CleanEmpty(s: string)
    ensures Clean(s) == [] <==> Visible(s) == []
  {
    CleanKeepsVisible(s);
    CleanAlphabet(s);
    var r := Clean(s);
    if r != [] {
      assert IsVisible(r[0]);
      assert Visible(r) == [r[0]] + Visible(r[1..]);
    }
  }

  // ---------------------------------------------------------------------
  // Sections: .split('\n\n').filter(section => section.trim())
  // ---------------------------------------------------------------------

  /** `s.includes(sub)`. */
  function Contains(s: string, sub: string): bool
    decreases |s|
  {
    if |s| < |sub| then false else s[..|sub|] == sub || Contains(s[1..], sub)
  }

  /** `sub` occurs in `s` starting at position `k`. */
  predicate OccursAt(s: string, sub: string, k: int) {
    0 <= k <= |s| - |sub| && s[k..k + |sub|] == sub
  }

  /** Contains agrees with the reference definition: `sub` occurs at some position of `s`. */
  lemma {:induction false} ContainsIff(s: string, sub: string)
    ensures Contains(s, sub) <==> exists k :: OccursAt(s, sub, k)
    decreases |s|
  {
    if |s| >= |sub| {
      if s[..|sub|] == sub {
        assert OccursAt(s, sub, 0);
      } else {
        ContainsIff(s[1..], sub);
        if Contains(s[1..], sub) {
          var k :| OccursAt(s[1..], sub, k);
          assert s[k + 1..k + 1 + |sub|] == s[1..][k..k + |sub|];
          assert OccursAt(s, sub, k + 1);
        }
        if k :| OccursAt(s, sub, k) {
          assert k != 0;
          assert s[1..][k - 1..k - 1 + |sub|] == s[k..k + |sub|];
          assert OccursAt(s[1..], sub, k - 1);
        }
      }
    }
  }

  /** `split` with a non-empty separator: the pieces between the occurrences found left to right. */
  function Split(s: string, sep: string): (parts: seq<string>)
    requires sep != []
    ensures |parts| >= 1
    decreases |s|
  {
    if |s| < |sep| then [s]
    else if s[..|sep|] == sep then [[]] + Split(s[|sep|..], sep)
    else
      var rest := Split(s[1..], sep);
      [[s[0]] + rest[0]] + rest[1..]
  }

  /** `join`: the parts with `sep` between consecutive ones. */
  function Join(parts: seq<string>, sep: string): string {
    if parts == [] then []
    else if |parts| == 1 then parts[0]
    else parts[0] + sep + Join(parts[1..], sep)
  }

  lemma JoinAfterEmpty(ps: seq<string>, sep: string)
    requires ps != []
    ensures Join([[]] + ps, sep) == sep + Join(ps, sep)
  {
    assert ([[]] + ps)[1..] == ps;
  }

  lemma JoinAfterChar(c: char, ps: seq<string>, sep: string)
    requires ps != []
    ensures Join([[c] + ps[0]] + ps[1..], sep) == [c] + Join(ps, sep)
  {
    var qs := [[c] + ps[0]] + ps[1..];
    if |ps| > 1 {
      assert qs[1..] == ps[1..];
    }
  }

  /** Joining the pieces of a split with the same separator gives back the text. */
  lemma {:induction false} JoinSplit(s: string, sep: string)
    requires sep != []
    ensures Join(Split(s, sep), sep) == s
    decreases |s|
  {
    if |s| < |sep| {
    } else if s[..|sep|] == sep {
      JoinSplit(s[|sep|..], sep);
      JoinAfterEmpty(Split(s[|sep|..], sep), sep);
      assert s == sep + s[|sep|..];
    } else {
      JoinSplit(s[1..], sep);
      JoinAfterChar(s[0], Split(s[1..], sep), sep);
      assert s == [s[0]] + s[1..];
    }
  }

  /** The pieces of a split contain no separator. */
  lemma {:induction false} SplitPiecesFree(s: string, sep: string)
    requires sep != []
    ensures forall i :: 0 <= i < |Split(s, sep)| ==> !Contains(Split(s, sep)[i], sep)
    decreases |s|
  {
    if |s| < |sep| {
    } else if s[..|sep|] == sep {
      SplitPiecesFree(s[|sep|..], sep);
      var rest := Split(s[|sep|..], sep);
      assert forall i :: 1 <= i < |[[]] + rest| ==> ([[]] + rest)[i] == rest[i - 1];
    } else {
      SplitPiecesFree(s[1..], sep);
      var rest := Split(s[1..], sep);
      var first := [s[0]] + rest[0];
      FirstPieceFree(s, sep);
      var parts := [first] + rest[1..];
      assert forall i :: 1 <= i < |parts| ==> parts[i] == rest[i];
    }
  }

  /** The first piece of a split is a prefix of the text. */
  lemma {:induction false} SplitFirstPrefix(s: string, sep: string)
    requires sep != []
    ensures |Split(s, sep)[0]| <= |s| && Split(s, sep)[0] == s[..|Split(s, sep)[0]|]
    decreases |s|
  {
    if |s| >= |sep| && s[..|sep|] != sep {
      SplitFirstPrefix(s[1..], sep);
      var p := Split(s[1..], sep)[0];
      assert Split(s, sep)[0] == [s[0]] + p;
      ConsPrefix(s, p);
    }
  }

  /**
   * What it means for `parts` to be the pieces of `s` cut at the leftmost
   * occurrences of `sep`: no occurrence starts inside the first piece; there
   * is a second piece exactly when the separator follows the first piece,
   * and then the remaining pieces split what comes after that separator;
   * a single piece is the whole text.
   */
  predicate CutsLeftmost(s: string, sep: string, parts: seq<string>)
    requires sep != [] && parts != []
  {
    && (forall k :: 0 <= k < |parts[0]| ==> !OccursAt(s, sep, k))
    && (|parts| > 1 <==> OccursAt(s, sep, |parts[0]|))
    && (|parts| > 1 ==> |parts[0]| + |sep| <= |s| && parts[1..] == Split(s[|parts[0]| + |sep|..], sep))
    && (|parts| == 1 ==> parts[0] == s)
  }

  /** `split` cuts at the leftmost occurrence of the separator. */
  lemma {:induction false} SplitLeftmost(s: string, sep: string)
    requires sep != []
    ensures CutsLeftmost(s, sep, Split(s, sep))
    decreases |s|
  {
    if |s| < |sep| {
    } else if s[..|sep|] == sep {
      assert OccursAt(s, sep, 0);
      TailOfCons([], Split(s[|sep|..], sep));
    } else {
      SplitLeftmost(s[1..], sep);
      SplitLeftmostStep(s, sep);
    }
  }

  /** The facts carry over from the tail when the text does not start with the separator. */
  lemma SplitLeftmostStep(s: string, sep: string)
    requires sep != [] && |s| >= |sep| && s[..|sep|] != sep
    requires CutsLeftmost(s[1..], sep, Split(s[1..], sep))
    ensures CutsLeftmost(s, sep, Split(s, sep))
  {
    var rest := Split(s[1..], sep);
    assert Split(s, sep) == [[s[0]] + rest[0]] + rest[1..];
    CutsCons(s, sep, rest);
  }

  /** Putting the first character back in front of the first piece keeps the facts. */
  lemma CutsCons(s: string, sep: string, rest: seq<string>)
    requires sep != [] && |s| >= |sep| && s[..|sep|] != sep && rest != []
    requires CutsLeftmost(s[1..], sep, rest)
    ensures CutsLeftmost(s, sep, [[s[0]] + rest[0]] + rest[1..])
  {
    var parts := [[s[0]] + rest[0]] + rest[1..];
    TailOfCons([s[0]] + rest[0], rest[1..]);
    ShiftFree(s, sep, rest[0]);
    ShiftOccurs(s, sep, |rest[0]|);
    if |rest| > 1 {
      ShiftRest(s, sep, |rest[0]|);
    } else {
      HeadTail(s);
    }
  }

  lemma HeadTail(s: string)
    requires s != []
    ensures [s[0]] + s[1..] == s
  {
  }

  /** No occurrence inside the first piece, carried over from the tail. */
  lemma ShiftFree(s: string, sep: string, p: string)
    requires sep != [] && |s| >= |sep| && s[..|sep|] != sep
    requires forall k :: 0 <= k < |p| ==> !OccursAt(s[1..], sep, k)
    ensures forall k :: 0 <= k < |p| + 1 ==> !OccursAt(s, sep, k)
  {
    assert !OccursAt(s, sep, 0);
    forall k | 1 <= k < |p| + 1 && k <= |s| - |sep|
      ensures !OccursAt(s, sep, k)
    {
      OccursShift(s, sep, k);
    }
  }

  /** An occurrence right after the first piece, in the text and in its tail. */
  lemma ShiftOccurs(s: string, sep: string, n: nat)
    requires s != []
    ensures OccursAt(s, sep, n + 1) <==> OccursAt(s[1..], sep, n)
  {
    if n + 1 <= |s| - |sep| {
      OccursShift(s, sep, n + 1);
    }
  }

  /** What follows the separator, in the text and in its tail. */
  lemma ShiftRest(s: string, sep: string, n: nat)
    requires n + 1 + |sep| <= |s|
    ensures s[n + 1 + |sep|..] == s[1..][n + |sep|..]
  {
  }

  lemma TailOfCons(x: string, xs: seq<string>)
    ensures ([x] + xs)[1..] == xs
  {
  }

  /** An occurrence at `k > 0` is an occurrence at `k - 1` in the tail. */
  lemma OccursShift(s: string, sep: string, k: int)
    requires 1 <= k <= |s| - |sep|
    ensures OccursAt(s, sep, k) <==> OccursAt(s[1..], sep, k - 1)
  {
    var t := s[1..];
    var u, v := s[k..k + |sep|], t[k - 1..k - 1 + |sep|];
    assert |u| == |v|;
    forall i | 0 <= i < |u|
      ensures u[i] == v[i]
    {
      assert u[i] == s[k + i] && v[i] == t[k - 1 + i];
    }
    assert u == v;
  }

  lemma ConsPrefix(s: string, p: string)
    requires s != [] && |p| < |s| && p == s[1..][..|p|]
    ensures [s[0]] + p == s[..|p| + 1]
  {
    assert s[..|p| + 1] == [s[0]] + s[1..][..|p|];
  }

  lemma FirstPieceFree(s: string, sep: string)
    requires sep != [] && |s| >= |sep| && s[..|sep|] != sep
    requires forall i :: 0 <= i < |Split(s[1..], sep)| ==> !Contains(Split(s[1..], sep)[i], sep)
    ensures !Contains([s[0]] + Split(s[1..], sep)[0], sep)
  {
    var p := Split(s[1..], sep)[0];
    var first := [s[0]] + p;
    assert !Contains(p, sep);
    SplitFirstPrefix(s[1..], sep);
    assert first == s[..|first|];
    if |first| >= |sep| {
      assert first[..|sep|] == s[..|sep|];
    }
    assert first[1..] == p;
  }

  /** `filter(section => section.trim())`: the parts whose trim is non-empty. */
  function NonBlank(parts: seq<string>): seq<string> {
    if parts == [] then []
    else (if Trim(parts[0]) != [] then [parts[0]] else []) + NonBlank(parts[1..])
  }

  /** The filter keeps the non-blank parts, in their original order, and only those. */
  lemma NonBlankFilters(parts: seq<string>)
    ensures IsSubsequence(NonBlank(parts), parts)
    ensures forall i :: 0 <= i < |NonBlank(parts)| ==> !AllSpace(NonBlank(parts)[i])
    ensures forall i :: 0 <= i < |parts| && !AllSpace(parts[i]) ==> parts[i] in NonBlank(parts)
  {
    NonBlankOrder(parts);
    NonBlankOnly(parts);
    NonBlankKeeps(parts);
  }

  /**
   * The filter works part by part: it distributes over concatenation and
   * keeps a single part exactly when it is not all whitespace, so equal
   * parts are all kept.
   */
  lemma {:induction false} NonBlankConcat(a: seq<string>, b: seq<string>)
    ensures NonBlank(a + b) == NonBlank(a) + NonBlank(b)
  {
    if a == [] {
      assert a + b == b;
    } else {
      NonBlankConcat(a[1..], b);
      NonBlankStep(a, b);
    }
  }

  lemma NonBlankStep(a: seq<string>, b: seq<string>)
    requires a != []
    requires NonBlank(a[1..] + b) == NonBlank(a[1..]) + NonBlank(b)
    ensures NonBlank(a + b) == NonBlank(a) + NonBlank(b)
  {
    var keep: seq<string> := if Trim(a[0]) != [] then [a[0]] else [];
    TailOfConcat(a, b);
    assert NonBlank(a + b) == keep + NonBlank(a[1..] + b);
    assert NonBlank(a) == keep + NonBlank(a[1..]);
    Regroup(keep, NonBlank(a[1..]), NonBlank(b));
  }

  /** A non-empty suffix ends where the whole sequence ends. */
  lemma LastOfSuffix<T>(a: seq<T>, k: nat)
    requires k <= |a|
    ensures a[k..] == [] || a[k..][|a[k..]| - 1] == a[|a| - 1]
  {
  }

  lemma TailOfConcat<T>(a: seq<T>, b: seq<T>)
    requires a != []
    ensures (a + b)[0] == a[0] && (a + b)[1..] == a[1..] + b
  {
  }

  lemma NonBlankOne(p: string)
    ensures NonBlank([p]) == if AllSpace(p) then [] else [p]
  {
    var keep: seq<string> := if Trim(p) != [] then [p] else [];
    assert [p][1..] == [];
    assert NonBlank([p]) == keep + [];
    assert keep + [] == keep;
    TrimEmptyIff(p);
  }

  lemma NonBlankOnly(parts: seq<string>)
    ensures forall i :: 0 <= i < |NonBlank(parts)| ==> !AllSpace(NonBlank(parts)[i])
  {
    var kept := NonBlank(parts);
    NonBlankMembers(parts);
    forall i | 0 <= i < |kept|
      ensures !AllSpace(kept[i])
    {
      assert kept[i] in kept;
      TrimEmptyIff(kept[i]);
    }
  }

  /** Every kept part has a non-empty trim. */
  lemma {:induction false} NonBlankMembers(parts: seq<string>)
    ensures forall p :: p in NonBlank(parts) ==> Trim(p) != []
  {
    if parts != [] {
      NonBlankMembers(parts[1..]);
    }
  }

  lemma {:induction false} NonBlankOrder(parts: seq<string>)
    ensures IsSubsequence(NonBlank(parts), parts)
  {
    if parts != [] {
      NonBlankOrder(parts[1..]);
      TrimEmptyIff(parts[0]);
      var t := NonBlank(parts[1..]);
      if Trim(parts[0]) != [] {
        assert NonBlank(parts) == [parts[0]] + t;
        assert ([parts[0]] + t)[1..] == t;
      } else {
        assert NonBlank(parts) == t;
        if t != [] {
          NonBlankOnly(parts[1..]);
          assert t[0] != parts[0];
        }
      }
    }
  }

  lemma NonBlankKeeps(parts: seq<string>)
    ensures forall i :: 0 <= i < |parts| && !AllSpace(parts[i]) ==> parts[i] in NonBlank(parts)
  {
    NonBlankKeepsTrimmed(parts);
    forall i | 0 <= i < |parts| && !AllSpace(parts[i])
      ensures parts[i] in NonBlank(parts)
    {
      assert parts[i] in parts;
      TrimEmptyIff(parts[i]);
    }
  }

  /** Every part with a non-empty trim is kept. */
  lemma {:induction false} NonBlankKeepsTrimmed(parts: seq<string>)
    ensures forall p :: p in parts && Trim(p) != [] ==> p in NonBlank(parts)
  {
    if parts != [] {
      NonBlankKeepsTrimmed(parts[1..]);
      forall p | p in parts && Trim(p) != []
        ensures p in NonBlank(parts)
      {
        if p != parts[0] {
          assert p in parts[1..];
        }
      }
    }
  }

  /** The sections of the cleaned text. */
  function Sections(text: string): seq<string> {
    NonBlank(Split(text, "\n\n"))
  }

  lemma {:induction false} JoinOfSpaces(parts: seq<string>, sep: string)
    requires AllSpace(sep)
    requires forall i :: 0 <= i < |parts| ==> AllSpace(parts[i])
    ensures AllSpace(Join(parts, sep))
  {
    if |parts| > 1 {
      JoinOfSpaces(parts[1..], sep);
      var j := Join(parts[1..], sep);
      assert Join(parts, sep) == parts[0] + sep + j;
      assert AllSpace(parts[0]);
      forall i | 0 <= i < |Join(parts, sep)|
        ensures IsSpace(Join(parts, sep)[i])
      {
        if i < |parts[0]| {
          assert Join(parts, sep)[i] == parts[0][i];
        } else if i < |parts[0]| + |sep| {
          assert Join(parts, sep)[i] == sep[i - |parts[0]|];
        } else {
          assert Join(parts, sep)[i] == j[i - |parts[0]| - |sep|];
        }
      }
    } else if |parts| == 1 {
      assert AllSpace(parts[0]);
    }
  }

  /** Text with a non-whitespace character has at least one section. */
  lemma SectionsOfText(text: string)
    requires !AllSpace(text)
    ensures Sections(text) != []
  {
    var parts := Split(text, "\n\n");
    assert AllSpace("\n\n");
    SomePieceNotBlank(text, "\n\n");
    var i :| 0 <= i < |parts| && !AllSpace(parts[i]);
    NonBlankFilters(parts);
    assert parts[i] in NonBlank(parts);
  }

  lemma SomePieceNotBlank(text: string, sep: string)
    requires sep != [] && AllSpace(sep) && !AllSpace(text)
    ensures exists i :: 0 <= i < |Split(text, sep)| && !AllSpace(Split(text, sep)[i])
  {
    var parts := Split(text, sep);
    JoinSplit(text, sep);
    if forall i :: 0 <= i < |parts| ==> AllSpace(parts[i]) {
      JoinOfSpaces(parts, sep);
    }
  }

  // ---------------------------------------------------------------------
  // Header formatting
  // ---------------------------------------------------------------------

  /** `toUpperCase` on ASCII. */
  function UpperChar(c: char): char {
    if 'a' <= c <= 'z' then (c as int - 32) as char else c
  }

  function Upper(s: string): string {
    seq(|s|, i requires 0 <= i < |s| => UpperChar(s[i]))
  }

  /** Upper-casing keeps the length, leaves no ASCII lower-case letter, and changes nothing else. */
  lemma UpperSpec(s: string)
    ensures |Upper(s)| == |s|
    ensures forall i :: 0 <= i < |s| ==> !('a' <= Upper(s)[i] <= 'z')
    ensures forall i :: 0 <= i < |s| && !('a' <= s[i] <= 'z') ==> Upper(s)[i] == s[i]
    ensures forall i :: 0 <= i < |s| && 'a' <= s[i] <= 'z' ==> Upper(s)[i] as int == s[i] as int - 32
    ensures Upper(Upper(s)) == Upper(s)
  {
  }

  const CommonHeaders: seq<string> := ["EDUCATION", "EXPERIENCE", "SKILLS", "PROJECTS", "CERTIFICATIONS"]

  /** `commonHeaders.some(header => line.includes(header))`. */
  predicate HasCommonHeader(line: string) {
    exists i :: 0 <= i < |CommonHeaders| && Contains(line, CommonHeaders[i])
  }

  /** `section.split('\n')[0]`. */
  function FirstLine(section: string): string {
    Split(section, "\n")[0]
  }

  /** `section.split('\n').slice(1).join('\n')`. */
  function RestLines(section: string): string {
    Join(Split(section, "\n")[1..], "\n")
  }

  /** The first line runs up to the first line feed, and the rest follows it. */
  lemma {:induction false} LinesOfSection(s: string)
    ensures '\n' !in FirstLine(s)
    ensures '\n' in s ==> s == FirstLine(s) + "\n" + RestLines(s)
    ensures '\n' !in s ==> FirstLine(s) == s && RestLines(s) == []
    decreases |s|
  {
    if s == [] {
    } else if s[0] == '\n' {
      SplitLineFeed(s);
      assert s == [] + "\n" + s[1..];
    } else {
      LinesOfSection(s[1..]);
      SplitLineStep(s);
      assert s == [s[0]] + s[1..];
      if '\n' in s {
        assert '\n' in s[1..];
        assert s == [s[0]] + (FirstLine(s[1..]) + "\n" + RestLines(s[1..]));
      }
    }
  }

  lemma SplitLineFeed(s: string)
    requires s != [] && s[0] == '\n'
    ensures FirstLine(s) == [] && RestLines(s) == s[1..]
  {
    assert s[..1] == "\n";
    JoinSplit(s[1..], "\n");
    assert ([[]] + Split(s[1..], "\n"))[1..] == Split(s[1..], "\n");
  }

  lemma SplitLineStep(s: string)
    requires s != [] && s[0] != '\n'
    ensures FirstLine(s) == [s[0]] + FirstLine(s[1..])
    ensures RestLines(s) == RestLines(s[1..])
  {
    assert s[..1] != "\n";
    var rest := Split(s[1..], "\n");
    assert Split(s, "\n")[1..] == rest[1..];
  }

  function FormatSection(section: string): string {
    var first := Upper(FirstLine(section));
    if HasCommonHeader(first) then "\n" + first + "\n" + RestLines(section) else section
  }

  /**
   * A section whose upper-cased first line names a common header gets a line
   * feed before it and that line upper-cased; from its first line feed on it
   * is unchanged, and a one-line section gains a final line feed. Every other
   * section is emitted unchanged.
   */
  lemma FormatSectionSpec(section: string)
    ensures var first := FirstLine(section);
      var r := FormatSection(section);
      && (!HasCommonHeader(Upper(first)) ==> r == section)
      && (HasCommonHeader(Upper(first)) ==>
            && |first| <= |section|
            && r == "\n" + Upper(section[..|first|]) + (if '\n' in section then section[|first|..] else "\n"))
  {
    var first := FirstLine(section);
    LinesOfSection(section);
    if '\n' in section {
      assert section[..|first|] == first;
      assert section[|first|..] == "\n" + RestLines(section);
    }
  }

  /** `sections.map(format).join('\n\n')`. */
  function FormatText(sections: seq<string>): string {
    Join(seq(|sections|, i requires 0 <= i < |sections| => FormatSection(sections[i])), "\n\n")
  }

  lemma JoinStartsWithFirst(parts: seq<string>, sep: string)
    requires parts != []
    ensures |parts[0]| <= |Join(parts, sep)| && Join(parts, sep)[..|parts[0]|] == parts[0]
  {
  }

  /** The text the endpoint returns for a file's content; None when cleaning leaves nothing. */
  function ProcessText(content: string): Option<string> {
    var cleaned := Clean(content);
    if cleaned == [] then None else Some(FormatText(Sections(cleaned)))
  }

  /**
   * The endpoint has text to return exactly when the file has a letter,
   * digit, underscore or `.,!?-`, and that text is then not empty.
   */
  lemma ProcessTextSpec(content: string)
    ensures ProcessText(content).None? <==> Visible(content) == []
    ensures ProcessText(content).Some? ==> ProcessText(content).value != []
  {
    CleanEmpty(content);
    var cleaned := Clean(content);
    if cleaned != [] {
      CleanAlphabet(content);
      assert !AllSpace(cleaned);
      SectionsOfText(cleaned);
      var ss := Sections(cleaned);
      NonBlankFilters(Split(cleaned, "\n\n"));
      assert !AllSpace(ss[0]);
      var formatted := seq(|ss|, i requires 0 <= i < |ss| => FormatSection(ss[i]));
      assert formatted[0] != [];
      JoinStartsWithFirst(formatted, "\n\n");
    }
  }
}
