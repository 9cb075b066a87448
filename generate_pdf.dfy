/**
 * Document assembly of the PDF route (src/app/api/generate-pdf/route.ts):
 * the Markdown-to-HTML replace chain, the table-of-contents and citation
 * markup, the page template and the request guard with its file name.
 * Rendering the page to PDF bytes is done by a browser and is not modelled;
 * the route's result here is the HTML handed to it and the download name.
 */
module GeneratePdf {
  import opened Wrappers
  import opened Strings
  import opened Types
  import opened ContentUtils
  import opened TableOfContents

  // ---------------------------------------------------------------------------
  // convertMarkdownToHTML

  /** `s[p..]` starts with exactly the characters `#{k} ` (the pattern `^#{k} ` after its anchor). */
  predicate HashesThenSpace(s: string, p: nat, k: nat) {
    p + k < |s| && (forall i :: p <= i < p + k ==> s[i] == '#') && s[p + k] == ' '
  }

  function HeadingOpen(k: nat): string
    requires 1 <= k <= 6
  {
    "<h" + [DigitChar(k)] + ">"
  }

  function HeadingClose(k: nat): string
    requires 1 <= k <= 6
  {
    "</h" + [DigitChar(k)] + ">"
  }

  /**
   * `.replace(/^#{k} (.*$)/gim, '<hk>$1</hk>')` from `p` on: at a line start
   * holding `k` hashes and a space, the rest of the line is wrapped in the
   * heading tag, which carries no attribute.
   */
  function HeadingRule(s: string, k: nat, p: nat): string
    requires 1 <= k <= 6 && p <= |s|
    decreases |s| - p
  {
    if p == |s| then []
    else if AtLineStart(s, p) && HashesThenSpace(s, p, k) then
      var e := LineEnd(s, p + k + 1);
      HeadingOpen(k) + s[p + k + 1..e] + HeadingClose(k) + HeadingRule(s, k, e)
    else [s[p]] + HeadingRule(s, k, p + 1)
  }

  /** The six heading rules, `#` first. */
  function Headings(s: string, k: nat): string
    requires k <= 6
  {
    if k == 0 then s else HeadingRule(Headings(s, k - 1), k, 0)
  }

  /** The last `q` with `lo <= q` and `q + 2 <= hi` where `**` starts. */
  function LastDoubleStar(s: string, lo: nat, hi: nat): (r: Option<nat>)
    requires lo <= hi <= |s|
    ensures r.Some? ==> lo <= r.value && r.value + 2 <= hi && s[r.value] == '*' && s[r.value + 1] == '*'
    decreases hi
  {
    if hi < lo + 2 then None
    else if s[hi - 2] == '*' && s[hi - 1] == '*' then Some(hi - 2)
    else LastDoubleStar(s, lo, hi - 1)
  }

  // `.replace(/\*\*(.*)\*\*/gim, '<strong>$1</strong>')` from `p` on. The
  // greedy `.*` makes a match run from the first `**` to the last `**` of the
  // same line.
  function StrongRule(s: string, p: nat): string
    requires p <= |s|
    decreases |s| - p
  {
    if p == |s| then []
    else if p + 1 < |s| && s[p] == '*' && s[p + 1] == '*' then
      match LastDoubleStar(s, p + 2, LineEnd(s, p + 2))
      case Some(q) => "<strong>" + s[p + 2..q] + "</strong>" + StrongRule(s, q + 2)
      case None => [s[p]] + StrongRule(s, p + 1)
    else [s[p]] + StrongRule(s, p + 1)
  }

  /** The last `q` in `[lo, hi)` holding `*`. */
  function LastStar(s: string, lo: nat, hi: nat): (r: Option<nat>)
    requires lo <= hi <= |s|
    ensures r.Some? ==> lo <= r.value < hi && s[r.value] == '*'
    decreases hi
  {
    if hi == lo then None
    else if s[hi - 1] == '*' then Some(hi - 1)
    else LastStar(s, lo, hi - 1)
  }

  // `.replace(/\*(.*)\*/gim, '<em>$1</em>')` from `p` on, greedy like the bold rule.
  function EmRule(s: string, p: nat): string
    requires p <= |s|
    decreases |s| - p
  {
    if p == |s| then []
    else if s[p] == '*' then
      match LastStar(s, p + 1, LineEnd(s, p + 1))
      case Some(q) => "<em>" + s[p + 1..q] + "</em>" + EmRule(s, q + 1)
      case None => [s[p]] + EmRule(s, p + 1)
    else [s[p]] + EmRule(s, p + 1)
  }

  /**
   * `.replace(/\[([^\]]*)\]\(([^\)]*)\)/gim, '<a href="$2">$1</a>')` from `p`
   * on: the text runs to the first `]`, which must be followed by `(`, and
   * the target to the first `)` after it; both may span lines.
   */
  function LinkRule(s: string, p: nat): string
    requires p <= |s|
    decreases |s| - p
  {
    if p == |s| then []
    else if s[p] == '[' then
      match FindChar(s, p + 1, ']')
      case Some(j) =>
        if j + 1 < |s| && s[j + 1] == '(' then
          match FindChar(s, j + 2, ')')
          case Some(k) => "<a href=\"" + s[j + 2..k] + "\">" + s[p + 1..j] + "</a>" + LinkRule(s, k + 1)
          case None => [s[p]] + LinkRule(s, p + 1)
        else [s[p]] + LinkRule(s, p + 1)
      case None => [s[p]] + LinkRule(s, p + 1)
    else [s[p]] + LinkRule(s, p + 1)
  }

  /**
   * `.replace(/^(.*)$/gim, '<p>$1</p>')` from the line start `p` on: every
   * line, empty ones included, is wrapped; the line terminators between them
   * stay.
   */
  function WrapLines(s: string, p: nat): string
    requires p <= |s|
    decreases |s| - p
  {
    var e := LineEnd(s, p);
    "<p>" + s[p..e] + "</p>" + if e == |s| then [] else [s[e]] + WrapLines(s, e + 1)
  }

  /** `convertMarkdownToHTML` */
  function ConvertMarkdownToHtml(markdown: string): string {
    var inline := LinkRule(EmRule(StrongRule(Headings(markdown, 6), 0), 0), 0);
    WrapLines(ReplaceAll(ReplaceAll(inline, "\n\n", "</p><p>"), "\n", "<br>"), 0)
  }

  predicate NoNewline(s: string) {
    forall i :: 0 <= i < |s| ==> s[i] != '\n'
  }

  predicate NoLineTerminator(s: string) {
    forall i :: 0 <= i < |s| ==> !IsLineTerminator(s[i])
  }

  /** Wrapping lines adds no newline. */
  lemma {:induction false} WrapLinesNoNewline(s: string, p: nat)
    requires p <= |s| && NoNewline(s)
    ensures NoNewline(WrapLines(s, p))
    decreases |s| - p
  {
    var e := LineEnd(s, p);
    var line := s[p..e];
    assert NoNewline(line) by {
      forall i | 0 <= i < |line| ensures line[i] != '\n' { assert line[i] == s[p + i]; }
    }
    if e < |s| {
      WrapLinesNoNewline(s, e + 1);
    }
  }

  /** The converted text holds no newline: pairs became `</p><p>`, single ones `<br>`. */
  lemma ConvertedHasNoNewline(markdown: string)
    ensures NoNewline(ConvertMarkdownToHtml(markdown))
  {
    var inline := LinkRule(EmRule(StrongRule(Headings(markdown, 6), 0), 0), 0);
    var broken := ReplaceAll(ReplaceAll(inline, "\n\n", "</p><p>"), "\n", "<br>");
    ReplaceCharRemoves(ReplaceAll(inline, "\n\n", "</p><p>"), '\n', "<br>");
    assert NoNewline(broken);
    WrapLinesNoNewline(broken, 0);
  }

  lemma {:induction false} HeadingRuleNoop(s: string, k: nat, p: nat)
    requires 1 <= k <= 6 && p <= |s|
    requires forall i :: p <= i < |s| && AtLineStart(s, i) ==> !HashesThenSpace(s, i, k)
    ensures HeadingRule(s, k, p) == s[p..]
    decreases |s| - p
  {
    if p < |s| {
      HeadingRuleNoop(s, k, p + 1);
      assert s[p..] == [s[p]] + s[p + 1..];
    }
  }

  lemma {:induction false} StrongRuleNoop(s: string, p: nat)
    requires p <= |s|
    requires forall i :: p <= i < |s| ==> s[i] != '*'
    ensures StrongRule(s, p) == s[p..]
    decreases |s| - p
  {
    if p < |s| {
      StrongRuleNoop(s, p + 1);
      assert s[p..] == [s[p]] + s[p + 1..];
    }
  }

  lemma {:induction false} EmRuleNoop(s: string, p: nat)
    requires p <= |s|
    requires forall i :: p <= i < |s| ==> s[i] != '*'
    ensures EmRule(s, p) == s[p..]
    decreases |s| - p
  {
    if p < |s| {
      EmRuleNoop(s, p + 1);
      assert s[p..] == [s[p]] + s[p + 1..];
    }
  }

  lemma {:induction false} LinkRuleNoop(s: string, p: nat)
    requires p <= |s|
    requires forall i :: p <= i < |s| ==> s[i] != '['
    ensures LinkRule(s, p) == s[p..]
    decreases |s| - p
  {
    if p < |s| {
      LinkRuleNoop(s, p + 1);
      assert s[p..] == [s[p]] + s[p + 1..];
    }
  }

  /** A text on one line is wrapped as a single paragraph. */
  lemma WrapOneLine(s: string)
    requires NoLineTerminator(s)
    ensures WrapLines(s, 0) == "<p>" + s + "</p>"
  {
    LineEndUnique(s, 0, |s|);
    assert s[0..|s|] == s;
  }

  /** Without `*` and `[`, the inline rules leave a text alone. */
  lemma InlineNoop(s: string)
    requires forall i :: 0 <= i < |s| ==> s[i] != '*' && s[i] != '['
    ensures LinkRule(EmRule(StrongRule(s, 0), 0), 0) == s
  {
    StrongRuleNoop(s, 0);
    assert s[0..] == s;
    EmRuleNoop(s, 0);
    LinkRuleNoop(s, 0);
  }

  /** No `#`, `*` or `[`, and `\n` as the only line terminator. */
  predicate PlainText(s: string) {
    forall i :: 0 <= i < |s| ==> s[i] != '#' && s[i] != '*' && s[i] != '[' && (IsLineTerminator(s[i]) ==> s[i] == '\n')
  }

  lemma {:induction false} HeadingsOfPlain(s: string, k: nat)
    requires k <= 6 && PlainText(s)
    ensures Headings(s, k) == s
  {
    if k > 0 {
      HeadingsOfPlain(s, k - 1);
      forall i | 0 <= i < |s| && AtLineStart(s, i) ensures !HashesThenSpace(s, i, k) {
        assert s[i] != '#';
      }
      HeadingRuleNoop(s, k, 0);
      assert s[0..] == s;
    }
  }

  /**
   * Plain text becomes one paragraph: each blank-line break (`\n\n`) closes
   * and opens a paragraph, every other newline becomes `<br>`.
   */
  lemma PlainParagraphs(s: string)
    requires PlainText(s)
    ensures ConvertMarkdownToHtml(s) == "<p>" + ReplaceAll(ReplaceAll(s, "\n\n", "</p><p>"), "\n", "<br>") + "</p>"
  {
    HeadingsOfPlain(s, 6);
    InlineNoop(s);
    BreaksLeaveOneLine(s);
    WrapOneLine(ReplaceAll(ReplaceAll(s, "\n\n", "</p><p>"), "\n", "<br>"));
  }

  /** Once both newline replacements are done, plain text holds no line terminator. */
  lemma BreaksLeaveOneLine(s: string)
    requires PlainText(s)
    ensures NoLineTerminator(ReplaceAll(ReplaceAll(s, "\n\n", "</p><p>"), "\n", "<br>"))
  {
    var x1 := ReplaceAll(s, "\n\n", "</p><p>");
    var x2 := ReplaceAll(x1, "\n", "<br>");
    ReplaceAllChars(s, "\n\n", "</p><p>");
    ReplaceAllChars(x1, "\n", "<br>");
    ReplaceCharRemoves(x1, '\n', "<br>");
    assert NoLineTerminator(x2) by {
      forall i | 0 <= i < |x2| ensures !IsLineTerminator(x2[i]) {
        assert x2[i] in x1 || x2[i] in "<br>";
        assert x2[i] != '\n';
      }
    }
  }

  function Hashes(k: nat): (r: string)
    ensures |r| == k && forall i :: 0 <= i < k ==> r[i] == '#'
  {
    if k == 0 then [] else Hashes(k - 1) + "#"
  }

  /** A line free of `*`, `[` and line terminators. */
  predicate PlainLine(t: string) {
    forall i :: 0 <= i < |t| ==> t[i] != '*' && t[i] != '[' && !IsLineTerminator(t[i])
  }

  /** A heading tag around a plain line is a plain line. */
  lemma HeadingTagPlain(k: nat, t: string)
    requires 1 <= k <= 6 && PlainLine(t)
    ensures PlainLine(HeadingOpen(k) + t + HeadingClose(k))
    ensures NoLineTerminator(HeadingOpen(k) + t + HeadingClose(k))
  {
    var h := HeadingOpen(k) + t + HeadingClose(k);
    forall i | 0 <= i < |h| ensures h[i] != '*' && h[i] != '[' && !IsLineTerminator(h[i]) {
      if 4 <= i < 4 + |t| { assert h[i] == t[i - 4]; }
    }
  }

  lemma {:induction false} HeadingsOfLine(k: nat, t: string, j: nat)
    requires 1 <= k <= 6 && j <= 6 && PlainLine(t)
    ensures var s := Hashes(k) + " " + t;
      Headings(s, j) == if j < k then s else HeadingOpen(k) + t + HeadingClose(k)
  {
    var s := Hashes(k) + " " + t;
    var h := HeadingOpen(k) + t + HeadingClose(k);
    assert NoLineTerminator(s) by {
      forall i | 0 <= i < |s| ensures !IsLineTerminator(s[i]) {
        if i > k { assert s[i] == t[i - k - 1]; }
      }
    }
    if j > 0 {
      HeadingsOfLine(k, t, j - 1);
      if j < k {
        assert !HashesThenSpace(s, 0, j) by { assert s[j] == '#'; }
        HeadingRuleNoop(s, j, 0);
        assert s[0..] == s;
      } else if j == k {
        assert HashesThenSpace(s, 0, k);
        LineEndUnique(s, k + 1, |s|);
        assert s[k + 1..|s|] == t;
        assert HeadingRule(s, k, |s|) == [];
        assert HeadingRule(s, k, 0) == HeadingOpen(k) + t + HeadingClose(k) + HeadingRule(s, k, |s|);
      } else {
        HeadingTagPlain(k, t);
        assert !HashesThenSpace(h, 0, j) by { assert h[0] == '<'; }
        HeadingRuleNoop(h, j, 0);
        assert h[0..] == h;
      }
    }
  }

  /**
   * A line of `k` hashes, a space and a title becomes a level-`k` heading
   * tag around the title, without an `id` attribute, in a paragraph.
   */
  lemma HeadingLine(k: nat, t: string)
    requires 1 <= k <= 6 && PlainLine(t)
    ensures ConvertMarkdownToHtml(Hashes(k) + " " + t) == "<p>" + (HeadingOpen(k) + t + HeadingClose(k)) + "</p>"
  {
    var h := HeadingOpen(k) + t + HeadingClose(k);
    HeadingsOfLine(k, t, 6);
    HeadingTagPlain(k, t);
    ConvertOneLine(Hashes(k) + " " + t, h);
  }

  /** A text whose headings become one plain line is that line in a paragraph. */
  lemma ConvertOneLine(m: string, h: string)
    requires Headings(m, 6) == h && PlainLine(h)
    ensures ConvertMarkdownToHtml(m) == "<p>" + h + "</p>"
  {
    InlineNoop(h);
    ReplaceAllAbsent(h, "\n\n", "</p><p>");
    ReplaceAllAbsent(h, "\n", "<br>");
    assert NoLineTerminator(h);
    WrapOneLine(h);
  }

  // The heading rules work line by line: a text cut at a line boundary is
  // converted piece by piece.

  /** `a` and `c` meet at a line boundary: one is empty, or a line terminator sits on either side of the cut. */
  predicate LineBoundary(a: string, c: string) {
    a == [] || c == [] || IsLineTerminator(a[|a| - 1]) || IsLineTerminator(c[0])
  }

  /** The end of the line at `|a| + q` in `a + c` is the end of the line at `q` in `c`, shifted. */
  lemma LineEndShift(a: string, c: string, q: nat)
    requires q <= |c|
    ensures LineEnd(a + c, |a| + q) == |a| + LineEnd(c, q)
  {
    var e := LineEnd(c, q);
    LineEndFacts(c, q);
    LineEndUnique(a + c, |a| + q, |a| + e);
  }

  /** A heading marker in `c` is one in `a + c`, shifted. */
  lemma HashesShift(a: string, c: string, k: nat, q: nat)
    requires q < |c|
    ensures HashesThenSpace(a + c, |a| + q, k) <==> HashesThenSpace(c, q, k)
  {
    var s := a + c;
    var p := |a| + q;
    if HashesThenSpace(c, q, k) {
      forall i | p <= i < p + k ensures s[i] == '#' { assert s[i] == c[i - |a|]; }
    }
    if HashesThenSpace(s, p, k) {
      forall i | q <= i < q + k ensures c[i] == '#' { assert s[i + |a|] == c[i]; }
    }
  }

  /** A heading marker never covers a line terminator, so it ends before one that closes its line. */
  lemma MarkerBeforeTerminator(s: string, p: nat, k: nat, t: nat)
    requires HashesThenSpace(s, p, k) && p <= t < |s| && IsLineTerminator(s[t])
    ensures p + k < t
  {
    assert s[t] != '#' && s[t] != ' ';
  }

  /** Before a line boundary, a heading marker in `a + c` is one in `a`. */
  lemma HashesCut(a: string, c: string, k: nat, p: nat)
    requires p < |a| && LineBoundary(a, c)
    ensures HashesThenSpace(a + c, p, k) <==> HashesThenSpace(a, p, k)
  {
    var s := a + c;
    if c == [] {
      assert s == a;
    } else if HashesThenSpace(s, p, k) {
      if IsLineTerminator(a[|a| - 1]) {
        MarkerBeforeTerminator(s, p, k, |a| - 1);
      } else {
        MarkerBeforeTerminator(s, p, k, |a|);
      }
      forall i | p <= i < p + k ensures a[i] == '#' { assert a[i] == s[i]; }
      assert a[p + k] == s[p + k];
    }
    if HashesThenSpace(a, p, k) {
      forall i | p <= i < p + k ensures s[i] == '#' { assert a[i] == s[i]; }
      assert a[p + k] == s[p + k];
    }
  }

  /** The last element of a concatenation with a non-empty right side is that side's last. */
  lemma LastOfConcat<T>(x: seq<T>, y: seq<T>)
    requires y != []
    ensures x + y != [] && (x + y)[|x + y| - 1] == y[|y| - 1]
  {
  }

  /** Where the heading rule resumes after the step at `p`. */
  function StepNext(s: string, k: nat, p: nat): nat
    requires 1 <= k <= 6 && p < |s|
  {
    if AtLineStart(s, p) && HashesThenSpace(s, p, k) then LineEnd(s, p + k + 1) else p + 1
  }

  /** What the heading rule emits at `p`: a heading line, or one copied character. */
  function StepHead(s: string, k: nat, p: nat): string
    requires 1 <= k <= 6 && p < |s|
  {
    if AtLineStart(s, p) && HashesThenSpace(s, p, k) then
      HeadingOpen(k) + s[p + k + 1..LineEnd(s, p + k + 1)] + HeadingClose(k)
    else [s[p]]
  }

  /** A step moves forward, and stays within the text. */
  lemma StepNextBound(s: string, k: nat, p: nat)
    requires 1 <= k <= 6 && p < |s|
    ensures p < StepNext(s, k, p) <= |s|
  {
  }

  /** The heading rule is its steps, one after another. */
  lemma HeadingRuleByStep(s: string, k: nat, p: nat)
    requires 1 <= k <= 6 && p < |s|
    ensures p < StepNext(s, k, p) <= |s|
    ensures HeadingRule(s, k, p) == StepHead(s, k, p) + HeadingRule(s, k, StepNext(s, k, p))
  {
  }

  /** The heading rule at `p` is the step's head followed by the rule where the step resumes. */
  lemma HeadingRuleAt(s: string, k: nat, p: nat, n: nat, h: string)
    requires 1 <= k <= 6 && p < |s| && StepNext(s, k, p) == n && StepHead(s, k, p) == h
    ensures p < n <= |s| && HeadingRule(s, k, p) == h + HeadingRule(s, k, n)
  {
    HeadingRuleByStep(s, k, p);
  }

  /** A slice of `c` is the same slice of `a + c`, shifted by `|a|`. */
  lemma SliceShift(a: string, c: string, x: nat, y: nat)
    requires x <= y <= |c|
    ensures (a + c)[|a| + x..|a| + y] == c[x..y]
  {
    var s := a + c;
    assert |s[|a| + x..|a| + y]| == |c[x..y]|;
    forall i | 0 <= i < y - x ensures s[|a| + x..|a| + y][i] == c[x..y][i] {
      assert s[|a| + x + i] == c[x + i];
    }
  }

  /** A slice of `a` is the same slice of `a + c`. */
  lemma SliceCut(a: string, c: string, x: nat, y: nat)
    requires x <= y <= |a|
    ensures (a + c)[x..y] == a[x..y]
  {
    var s := a + c;
    forall i | 0 <= i < y - x ensures s[x..y][i] == a[x..y][i] {
      assert s[x + i] == a[x + i];
    }
  }

  /** Past a line boundary, `a + c` has a heading marker where `c` has one. */
  lemma MarkerShift(a: string, c: string, k: nat, q: nat)
    requires 1 <= k && q < |c| && LineBoundary(a, c)
    ensures AtLineStart(a + c, |a| + q) && HashesThenSpace(a + c, |a| + q, k) <==> AtLineStart(c, q) && HashesThenSpace(c, q, k)
  {
    HashesShift(a, c, k, q);
    if q == 0 && a != [] && HashesThenSpace(c, q, k) {
      assert c[0] == '#';
    }
  }

  /** A heading step past a line boundary, in `a + c` and in `c`. */
  lemma HeadingStepShift(a: string, c: string, k: nat, q: nat)
    requires 1 <= k <= 6 && q < |c| && AtLineStart(c, q) && HashesThenSpace(c, q, k)
    requires AtLineStart(a + c, |a| + q) && HashesThenSpace(a + c, |a| + q, k)
    ensures StepNext(a + c, k, |a| + q) == |a| + StepNext(c, k, q)
    ensures StepHead(a + c, k, |a| + q) == StepHead(c, k, q)
  {
    var s, p := a + c, |a| + q;
    var e := LineEnd(c, q + k + 1);
    LineEndShift(a, c, q + k + 1);
    assert p + k + 1 == |a| + (q + k + 1);
    assert LineEnd(s, p + k + 1) == |a| + e;
    SliceShift(a, c, q + k + 1, e);
    var x := s[p + k + 1..|a| + e];
    assert x == c[q + k + 1..e];
    assert StepHead(s, k, p) == HeadingOpen(k) + x + HeadingClose(k);
  }

  /** Past a line boundary, a step in `a + c` is the same step in `c`. */
  lemma StepShift(a: string, c: string, k: nat, q: nat)
    requires 1 <= k <= 6 && q < |c| && LineBoundary(a, c)
    ensures StepNext(a + c, k, |a| + q) == |a| + StepNext(c, k, q)
    ensures StepHead(a + c, k, |a| + q) == StepHead(c, k, q)
  {
    MarkerShift(a, c, k, q);
    if AtLineStart(c, q) && HashesThenSpace(c, q, k) {
      HeadingStepShift(a, c, k, q);
    } else {
      assert (a + c)[|a| + q] == c[q];
    }
  }

  /** Two texts whose steps agree have the same heading rule when they agree where the steps resume. */
  lemma HeadingRuleAgree(s: string, t: string, k: nat, p: nat, q: nat, m: nat, n: nat)
    requires 1 <= k <= 6 && p < |s| && q < |t|
    requires StepNext(s, k, p) == m && StepNext(t, k, q) == n && StepHead(s, k, p) == StepHead(t, k, q)
    requires m <= |s| && n <= |t| && HeadingRule(s, k, m) == HeadingRule(t, k, n)
    ensures HeadingRule(s, k, p) == HeadingRule(t, k, q)
  {
    var h := StepHead(t, k, q);
    HeadingRuleAt(s, k, p, m, h);
    HeadingRuleAt(t, k, q, n, h);
  }

  /** Past a line boundary, the heading rule on `a + c` is the heading rule on `c`. */
  lemma {:induction false} HeadingRuleShift(a: string, c: string, k: nat, q: nat)
    requires 1 <= k <= 6 && q <= |c| && LineBoundary(a, c)
    ensures HeadingRule(a + c, k, |a| + q) == HeadingRule(c, k, q)
    decreases |c| - q
  {
    if q < |c| {
      var n := StepNext(c, k, q);
      StepNextBound(c, k, q);
      HeadingRuleShift(a, c, k, n);
      StepShift(a, c, k, q);
      HeadingRuleAgree(a + c, c, k, |a| + q, q, |a| + n, n);
    } else {
      assert |a| + q == |a + c|;
    }
  }

  /** The end of a heading's line, in `a` and in `a + c` cut at a line boundary. */
  lemma HeadingLineEndCut(a: string, c: string, k: nat, p: nat)
    requires p < |a| && LineBoundary(a, c) && HashesThenSpace(a, p, k)
    ensures p + k + 1 <= |a|
    ensures LineEnd(a + c, p + k + 1) == LineEnd(a, p + k + 1)
  {
    var j := p + k + 1;
    var e := LineEnd(a, j);
    LineEndFacts(a, j);
    if e == |a| && c != [] && IsLineTerminator(a[|a| - 1]) {
      MarkerBeforeTerminator(a, p, k, |a| - 1);
    }
    LineEndUnique(a + c, j, e);
  }

  /** Before a line boundary, a step in `a + c` is the same step in `a`. */
  lemma StepCut(a: string, c: string, k: nat, p: nat)
    requires 1 <= k <= 6 && p < |a| && LineBoundary(a, c)
    ensures StepNext(a + c, k, p) == StepNext(a, k, p)
    ensures StepHead(a + c, k, p) == StepHead(a, k, p)
  {
    var s := a + c;
    HashesCut(a, c, k, p);
    assert AtLineStart(s, p) <==> AtLineStart(a, p);
    if AtLineStart(a, p) && HashesThenSpace(a, p, k) {
      HeadingLineEndCut(a, c, k, p);
      SliceCut(a, c, p + k + 1, LineEnd(a, p + k + 1));
    } else {
      assert s[p] == a[p];
    }
  }

  /** Up to a line boundary, the heading rule on `a + c` is the rule on `a` followed by the rule on `c`. */
  lemma {:induction false} HeadingRuleSplitFrom(a: string, c: string, k: nat, p: nat)
    requires 1 <= k <= 6 && p <= |a| && LineBoundary(a, c)
    ensures HeadingRule(a + c, k, p) == HeadingRule(a, k, p) + HeadingRule(c, k, 0)
    decreases |a| - p
  {
    var rest := HeadingRule(c, k, 0);
    if p == |a| {
      HeadingRuleShift(a, c, k, 0);
      EmptyConcat(rest);
    } else {
      var next, h := StepNext(a, k, p), StepHead(a, k, p);
      HeadingRuleAt(a, k, p, next, h);
      StepCut(a, c, k, p);
      HeadingRuleAt(a + c, k, p, next, h);
      HeadingRuleSplitFrom(a, c, k, next);
      ConcatAssoc(h, HeadingRule(a, k, next), rest);
    }
  }

  /** In a text ending in a line terminator, a step reaches the end only by copying that terminator. */
  lemma StepToEnd(a: string, k: nat, p: nat)
    requires 1 <= k <= 6 && p < |a| && IsLineTerminator(a[|a| - 1])
    ensures StepNext(a, k, p) < |a| || StepHead(a, k, p) == [a[|a| - 1]]
  {
    if AtLineStart(a, p) && HashesThenSpace(a, p, k) {
      MarkerBeforeTerminator(a, p, k, |a| - 1);
      LineEndFacts(a, p + k + 1);
    }
  }

  /** A text ending in a line terminator keeps that terminator last under the heading rule. */
  lemma {:induction false} HeadingRuleLast(a: string, k: nat, p: nat)
    requires 1 <= k <= 6 && p < |a| && IsLineTerminator(a[|a| - 1])
    ensures HeadingRule(a, k, p) != [] && HeadingRule(a, k, p)[|HeadingRule(a, k, p)| - 1] == a[|a| - 1]
    decreases |a| - p
  {
    var next, h := StepNext(a, k, p), StepHead(a, k, p);
    HeadingRuleAt(a, k, p, next, h);
    StepToEnd(a, k, p);
    if next < |a| {
      HeadingRuleLast(a, k, next);
      LastOfConcat(h, HeadingRule(a, k, next));
    } else {
      assert HeadingRule(a, k, next) == [];
      LastOfConcat([], h);
      EmptyConcat(h);
    }
  }

  /** The heading rule keeps a line boundary a line boundary. */
  lemma HeadingRuleBoundary(a: string, c: string, k: nat)
    requires 1 <= k <= 6 && LineBoundary(a, c)
    ensures LineBoundary(HeadingRule(a, k, 0), HeadingRule(c, k, 0))
  {
    if a != [] && c != [] {
      if IsLineTerminator(a[|a| - 1]) {
        HeadingRuleLast(a, k, 0);
      } else {
        assert HeadingRule(c, k, 0) == [c[0]] + HeadingRule(c, k, 1);
      }
    }
  }

  /** The heading passes distribute over a cut at a line boundary. */
  lemma {:induction false} HeadingsSplit(a: string, c: string, j: nat)
    requires j <= 6 && LineBoundary(a, c)
    ensures LineBoundary(Headings(a, j), Headings(c, j))
    ensures Headings(a + c, j) == Headings(a, j) + Headings(c, j)
  {
    if j > 0 {
      HeadingsSplit(a, c, j - 1);
      var x, y := Headings(a, j - 1), Headings(c, j - 1);
      HeadingRuleSplitFrom(x, y, j, 0);
      HeadingRuleBoundary(x, y, j);
    }
  }

  /**
   * Inside a document, a line of `k` hashes, a space and a plain title
   * becomes a level-`k` heading tag around the title; the lines before and
   * after it are converted on their own.
   */
  lemma HeadingLineInDocument(a: string, k: nat, t: string, b: string)
    requires 1 <= k <= 6 && PlainLine(t)
    requires a == [] || IsLineTerminator(a[|a| - 1])
    requires b == [] || IsLineTerminator(b[0])
    ensures Headings(a + (Hashes(k) + " " + t) + b, 6) ==
      Headings(a, 6) + (HeadingOpen(k) + t + HeadingClose(k)) + Headings(b, 6)
  {
    var m := Hashes(k) + " " + t;
    HeadingsOfLine(k, t, 6);
    HeadingsSplit(a, m, 6);
    HeadingsSplit(a + m, b, 6);
  }

  /** The bold rule is greedy: two bold spans on a line become one. */
  lemma BoldIsGreedy()
    ensures StrongRule("**a** **b**", 0) == "<strong>a** **b</strong>"
  {
    var s := "**a** **b**";
    LineEndUnique(s, 2, |s|);
    assert LastDoubleStar(s, 2, 11) == Some(9);
    assert StrongRule(s, 11) == [];
  }

  // ---------------------------------------------------------------------------
  // Option defaults of generatePDFHTML

  /** Which optional sections the page shows. */
  datatype Sections = Sections(tableOfContents: bool, citations: bool, original: bool)

  function OrDefault(b: Option<bool>, d: bool): bool {
    match b
    case Some(v) => v
    case None => d
  }

  /**
   * `const { includeTableOfContents = true, includeCitations = true,
   * includeOriginal = false } = options || {}`: an absent options object or
   * field takes its default.
   */
  function Resolve(options: Option<PdfOptions>): (s: Sections)
    ensures options.None? ==> s == Sections(true, true, false)
    ensures options.Some? ==>
      (s.tableOfContents <==> options.value.includeTableOfContents != Some(false)) &&
      (s.citations <==> options.value.includeCitations != Some(false)) &&
      (s.original <==> options.value.includeOriginal == Some(true))
  {
    var o := if options.Some? then options.value else PdfOptions(None, None, None);
    Sections(OrDefault(o.includeTableOfContents, true), OrDefault(o.includeCitations, true), OrDefault(o.includeOriginal, false))
  }

  // ---------------------------------------------------------------------------
  // generateTOCHTML / generateNestedTOC

  /** `.join('')` */
  function Concat(ss: seq<string>): string {
    if ss == [] then [] else Concat(ss[..|ss| - 1]) + ss[|ss| - 1]
  }

  lemma {:induction false} ConcatAppend(a: seq<string>, b: seq<string>)
    ensures Concat(a + b) == Concat(a) + Concat(b)
    decreases |b|
  {
    if b == [] {
      assert a + b == a;
    } else {
      var b' := b[..|b| - 1];
      assert (a + b)[..|a + b| - 1] == a + b';
      assert Concat(a + b) == Concat(a + b') + b[|b| - 1];
      ConcatAppend(a, b');
      assert Concat(b) == Concat(b') + b[|b| - 1];
    }
  }


  /**
   * The fragments the two TOC generators emit. An item of the top list and
   * an item of a nested list differ only in indentation (`nested`).
   */
  datatype Piece = ListOpen | ListClose | ItemOpen(nested: bool, entry: TOCItem) | ItemClose(nested: bool)

  const NESTED_LIST_OPEN := "\n    <ul>\n      "
  const NESTED_LIST_CLOSE := "\n    </ul>\n  "
  const LEVEL_OPEN := "<li class=\"level-"
  const ANCHOR_OPEN := "<a href=\"#"
  /** The line breaks and indentation of a top-level item and of a nested one. */
  const TOP_ITEM_INDENT := "\n          "
  const TOP_ITEM_INNER := "\n            "
  const TOP_ITEM_CLOSE := "\n          </li>\n        "
  const NESTED_ITEM_INDENT := "\n        "
  const NESTED_ITEM_INNER := "\n          "
  const NESTED_ITEM_CLOSE := "\n        </li>\n      "

  function PieceHtml(p: Piece): string {
    match p
    case ListOpen => NESTED_LIST_OPEN
    case ListClose => NESTED_LIST_CLOSE
    case ItemOpen(nested, e) =>
      var head := LEVEL_OPEN + IntToString(e.level) + "\">";
      var link := ANCHOR_OPEN + e.id + "\">" + e.title + "</a>";
      if nested then NESTED_ITEM_INDENT + head + NESTED_ITEM_INNER + link + NESTED_ITEM_INNER
      else TOP_ITEM_INDENT + head + TOP_ITEM_INNER + link + TOP_ITEM_INNER
    case ItemClose(nested) =>
      if nested then NESTED_ITEM_CLOSE else TOP_ITEM_CLOSE
  }

  /** The markup of a list of pieces, one after another. */
  /** The markup of each piece, in order. */
  function Htmls(ps: seq<Piece>): (hs: seq<string>)
    ensures |hs| == |ps|
  {
    MapSeq(PieceHtml, ps)
  }

  function MapSeq<T, U>(f: T -> U, xs: seq<T>): (ys: seq<U>)
    ensures |ys| == |xs|
  {
    seq(|xs|, i requires 0 <= i < |xs| => f(xs[i]))
  }

  lemma MapSeqAppend<T, U>(f: T -> U, a: seq<T>, b: seq<T>)
    ensures MapSeq(f, a + b) == MapSeq(f, a) + MapSeq(f, b)
  {
    forall i | 0 <= i < |a| + |b| ensures MapSeq(f, a + b)[i] == (MapSeq(f, a) + MapSeq(f, b))[i] {
      if i < |a| {
        assert (a + b)[i] == a[i];
      } else {
        assert (a + b)[i] == b[i - |a|];
      }
    }
  }

  function Render(ps: seq<Piece>): string {
    Concat(Htmls(ps))
  }

  /**
   * `items.map(item => ...).join('')` for one list: each item opens, then its
   * `children`, when the field is there (an empty list is truthy), become a
   * nested `<ul>`, then the item closes.
   */
  function ItemPieces(forest: seq<TOCItem>, nested: bool): seq<Piece> {
    if forest == [] then []
    else
      var last := forest[|forest| - 1];
      ItemPieces(forest[..|forest| - 1], nested) + [ItemOpen(nested, Label(last))] +
      (match last.children
       case NoChildren => []
       case Children(items) => [ListOpen] + ItemPieces(items, true) + [ListClose]) +
      [ItemClose(nested)]
  }

  /** `generateTOCHTML` */
  const TOC_OPEN := "\n    <div class=\"toc\">\n      <h1>Table of Contents</h1>\n      <ul>\n        "
  const TOC_CLOSE := "\n      </ul>\n    </div>\n  "

  function TocHtml(toc: seq<TOCItem>): string {
    TOC_OPEN + Render(ItemPieces(toc, false)) + TOC_CLOSE
  }

  /** The entries whose `<li>` opens, in the order they open. */
  function Anchors(ps: seq<Piece>): seq<TOCItem> {
    if ps == [] then []
    else Anchors(ps[..|ps| - 1]) + match ps[|ps| - 1]
      case ItemOpen(_, e) => [e]
      case _ => []
  }

  lemma AnchorsSnoc(ps: seq<Piece>, p: Piece)
    ensures Anchors(ps + [p]) == Anchors(ps) + Anchors([p])
  {
    assert (ps + [p])[..|ps|] == ps;
    assert [p][..0] == [];
  }

  lemma {:induction false} AnchorsAppend(a: seq<Piece>, b: seq<Piece>)
    ensures Anchors(a + b) == Anchors(a) + Anchors(b)
    decreases |b|
  {
    if b == [] {
      assert a + b == a;
    } else {
      var b' := b[..|b| - 1];
      AnchorsAppend(a, b');
      var last := b[|b| - 1];
      assert a + b == (a + b') + [last];
      assert Anchors((a + b') + [last]) == Anchors(a + b') + Anchors([last]) by {
        AnchorsSnoc(a + b', last);
      }
      AnchorsSnoc(b', last);
      assert b == b' + [last];
    }
  }

  lemma RenderOne(p: Piece)
    ensures Render([p]) == PieceHtml(p)
  {
    var m := Htmls([p]);
    assert m == [PieceHtml(p)];
    assert m[..0] == [];
    assert Concat(m) == Concat([]) + PieceHtml(p);
  }

  lemma RenderAppend(a: seq<Piece>, b: seq<Piece>)
    ensures Render(a + b) == Render(a) + Render(b)
  {
    MapSeqAppend(PieceHtml, a, b);
    ConcatAppend(Htmls(a), Htmls(b));
  }

  /**
   * The list items open in preorder: one `<li>` per node, carrying the
   * node's level, id and title, parents before their children and siblings
   * in order.
   */
  lemma AnchorsOfItem(before: seq<Piece>, nested: bool, e: TOCItem, kids: seq<Piece>)
    ensures Anchors(before + [ItemOpen(nested, e)] + kids + [ItemClose(nested)]) == Anchors(before) + [e] + Anchors(kids)
  {
    var open := before + [ItemOpen(nested, e)];
    AnchorsAppend(before, [ItemOpen(nested, e)]);
    AnchorsAppend(open, kids);
    AnchorsAppend(open + kids, [ItemClose(nested)]);
    assert Anchors([ItemOpen(nested, e)]) == [e];
    assert Anchors([ItemClose(nested)]) == [];
  }

  lemma AnchorsOfList(inner: seq<Piece>)
    ensures Anchors([ListOpen] + inner + [ListClose]) == Anchors(inner)
  {
    AnchorsAppend([ListOpen], inner);
    AnchorsAppend([ListOpen] + inner, [ListClose]);
    assert Anchors([ListOpen]) == [] && Anchors([ListClose]) == [];
  }

  lemma {:induction false} AnchorsArePreorder(forest: seq<TOCItem>, nested: bool)
    ensures Anchors(ItemPieces(forest, nested)) == Preorder(forest)
  {
    if forest != [] {
      var pre := forest[..|forest| - 1];
      var last := forest[|forest| - 1];
      AnchorsArePreorder(pre, nested);
      match last.children
      case NoChildren =>
        AnchorsOfItem(ItemPieces(pre, nested), nested, Label(last), []);
      case Children(items) =>
        var kids := [ListOpen] + ItemPieces(items, true) + [ListClose];
        AnchorsArePreorder(items, true);
        AnchorsOfList(ItemPieces(items, true));
        AnchorsOfItem(ItemPieces(pre, nested), nested, Label(last), kids);
    }
  }

  /**
   * The outline's markup lists every heading of the text once, in text
   * order, with the id `heading-N` it was given.
   */
  lemma OutlineMarkupFollowsText(content: string)
    ensures Anchors(ItemPieces(Outline(content), false)) == FlatToc(content)
  {
    AnchorsArePreorder(Outline(content), false);
    OutlinePreorder(content);
  }

  /** One more root adds its whole subtree's markup after what was there. */
  lemma TocItemMarkup(pre: seq<TOCItem>, t: TOCItem, nested: bool)
    ensures Render(ItemPieces(pre + [t], nested)) ==
      Render(ItemPieces(pre, nested)) + PieceHtml(ItemOpen(nested, Label(t))) +
      (match t.children
       case NoChildren => ""
       case Children(items) => PieceHtml(ListOpen) + Render(ItemPieces(items, true)) + PieceHtml(ListClose)) +
      PieceHtml(ItemClose(nested))
  {
    var f := pre + [t];
    assert f[..|f| - 1] == pre && f[|f| - 1] == t;
    var kids: seq<Piece> := match t.children
      case NoChildren => []
      case Children(items) => [ListOpen] + ItemPieces(items, true) + [ListClose];
    var open := ItemPieces(pre, nested) + [ItemOpen(nested, Label(t))];
    RenderAppend(ItemPieces(pre, nested), [ItemOpen(nested, Label(t))]);
    RenderAppend(open, kids);
    RenderAppend(open + kids, [ItemClose(nested)]);
    RenderOne(ItemOpen(nested, Label(t)));
    RenderOne(ItemClose(nested));
    match t.children
    case NoChildren =>
    case Children(items) =>
      RenderAppend([ListOpen], ItemPieces(items, true));
      RenderAppend([ListOpen] + ItemPieces(items, true), [ListClose]);
      RenderOne(ListOpen);
      RenderOne(ListClose);
  }

  // ---------------------------------------------------------------------------
  // generateCitationsHTML

  /** The markup of one citation, numbered `n`; each optional field shows only when truthy. */
  const CITATION_TITLE_TAG := "\n        <div class=\"citation\">\n          <div class=\"citation-title\">["
  const CITATION_META := "</div>\n          <div class=\"citation-meta\">"
  const CITATION_FIELD := "\n            "
  const CITATION_CLOSE := "\n          </div>\n        </div>\n      "
  const URL_LINK := "URL: <a href=\""
  const DESCRIPTION := "Description: "
  const PUBLISHED := "Published: "

  function CitationHtml(c: Citation, n: nat): string {
    CitationHead(c, n) + CitationFields(c)
  }

  /** The opening of a citation's block: its number in brackets and its title. */
  function CitationHead(c: Citation, n: nat): string {
    CITATION_TITLE_TAG + NatToString(n) + "] " + c.title
  }

  /** The rest of a citation's block: its optional fields, then the closing tags. */
  function CitationFields(c: Citation): string {
    CITATION_META + CITATION_FIELD +
    (if Present(c.author) then "Author: " + c.author.value + "<br>" else "") + CITATION_FIELD +
    (if Present(c.url) then URL_LINK + c.url.value + "\">" + c.url.value + "</a><br>" else "") + CITATION_FIELD +
    (if Present(c.publishedDate) then PUBLISHED + c.publishedDate.value + "<br>" else "") + CITATION_FIELD +
    (if Present(c.description) then DESCRIPTION + c.description.value else "") +
    CITATION_CLOSE
  }

  /** `citations.map((citation, index) => ...)`: the block of each citation, numbered from 1. */
  function CitationBlocks(cs: seq<Citation>): (blocks: seq<string>)
    ensures |blocks| == |cs|
  {
    seq(|cs|, i requires 0 <= i < |cs| => CitationHtml(cs[i], i + 1))
  }

  /** `generateCitationsHTML` */
  const CITATIONS_OPEN := "\n    <div class=\"citations\">\n      <h1>Citations & References</h1>\n      "
  const CITATIONS_CLOSE := "\n    </div>\n  "

  function CitationsHtml(cs: seq<Citation>): string {
    CITATIONS_OPEN + Concat(CitationBlocks(cs)) + CITATIONS_CLOSE
  }

  /**
   * Citation `i` (from 0) is shown under the number `i + 1`, read back as
   * that number, followed by its title.
   */
  lemma CitationNumbering(cs: seq<Citation>, i: nat)
    requires i < |cs|
    ensures StartsWith(CitationBlocks(cs)[i], CITATION_TITLE_TAG + NatToString(i + 1) + "] " + cs[i].title)
    ensures DecimalValue(NatToString(i + 1)) == i + 1
  {
    NatToStringRoundTrip(i + 1);
    StartsWithPrefix(CitationHead(cs[i], i + 1), CitationFields(cs[i]));
  }

  /** Appending a citation appends its block, numbered one past the others. */
  lemma CitationsSnoc(cs: seq<Citation>, c: Citation)
    ensures Concat(CitationBlocks(cs + [c])) == Concat(CitationBlocks(cs)) + CitationHtml(c, |cs| + 1)
  {
    var b := CitationBlocks(cs + [c]);
    assert b[..|b| - 1] == CitationBlocks(cs);
  }

  // ---------------------------------------------------------------------------
  // generatePDFHTML

  const COVER_AUTHOR := "<p class=\"cover-author\">By "
  const SOURCE_LINK := "<p><strong>Original source:</strong> <a href=\""

  /** `${author ? `<p class="cover-author">By ${author}</p>` : ''}` */
  function AuthorLine(author: Option<string>): (r: string)
    ensures r != "" <==> Present(author)
  {
    if Present(author) then COVER_AUTHOR + author.value + "</p>" else ""
  }

  /** `${url ? `<p><strong>Original source:</strong> <a href=...>...</a></p>` : ''}` */
  function SourceLine(url: Option<string>): (r: string)
    ensures r != "" <==> Present(url)
  {
    if Present(url) then SOURCE_LINK + url.value + "\">" + url.value + "</a></p>" else ""
  }

  /** The cover page from the title inside its heading to the source line. */
  const COVER_TITLE_CLOSE := "</h1>\n          "
  const COVER_MODEL := "\n          <div class=\"cover-metadata\">\n            <p><strong>Enhanced with:</strong> "
  const COVER_DATE := ")</p>\n            <p><strong>Generated:</strong> "
  const COVER_MINUTES := "</p>\n            <p><strong>Estimated reading time:</strong> "
  const COVER_SOURCE := " minutes</p>\n            "

  function CoverHtml(original: ExtractedContent, model: string, action: string, date: string, minutes: nat): string {
    original.title + COVER_TITLE_CLOSE + AuthorLine(original.author) + COVER_MODEL + Upper(model) +
    " (" + action + COVER_DATE + date + COVER_MINUTES + NatToString(minutes) + COVER_SOURCE + SourceLine(original.url)
  }

  /** The TOC section: shown when asked for and the content has an outline, even an empty one. */
  function TocSection(show: bool, toc: Option<seq<TOCItem>>): (r: string)
    ensures r != "" <==> show && toc.Some?
  {
    if show && toc.Some? then TocHtml(toc.value) else ""
  }

  /** `content.replace(/\n/g, '</p><p>')` */
  function NewlinesToParagraphs(text: string): (r: string)
    ensures NoNewline(r)
  {
    ReplaceCharRemoves(text, '\n', "</p><p>");
    ReplaceAll(text, "\n", "</p><p>")
  }

  const ORIGINAL_OPEN := "\n        <div class=\"original-content\">\n          <h1>Original Content</h1>\n          <div class=\"content-body\">\n            "
  const ORIGINAL_CLOSE := "\n          </div>\n        </div>\n      "
  const PAGE_BREAK := "\n        <div class=\"page-break\"></div>"

  /** The appendix: a page break, then the original text with each newline turned into a paragraph break. */
  function OriginalSection(show: bool, text: string): (r: string)
    ensures r != "" <==> show
  {
    if show then
      var block := ORIGINAL_OPEN + NewlinesToParagraphs(text) + ORIGINAL_CLOSE;
      PAGE_BREAK + block
    else ""
  }

  /** The appendix opens with the page break. */
  lemma AppendixAfterPageBreak(text: string)
    ensures StartsWith(OriginalSection(true, text), PAGE_BREAK)
  {
    var r := OriginalSection(true, text);
    StartsWithPrefix(PAGE_BREAK, r[|PAGE_BREAK|..]);
    assert r == PAGE_BREAK + r[|PAGE_BREAK|..];
  }

  /** The citations section: shown when asked for and the list is there and not empty. */
  function CitationsSection(show: bool, citations: Option<seq<Citation>>): (r: string)
    ensures r != "" <==> show && citations.Some? && |citations.value| > 0
  {
    if show && citations.Some? && |citations.value| > 0 then CitationsHtml(citations.value) else ""
  }

  const PAGE_HEAD := "\n    <!DOCTYPE html>\n    <html lang=\"en\">\n    <head>\n      <meta charset=\"UTF-8\">\n      <meta name=\"viewport\" content=\"width=device-width, initial-scale=1.0\">\n      <title>"
  const PAGE_STYLE := " - Enhanced</title>\n      <style>\n        "
  const PAGE_COVER := "\n      </style>\n    </head>\n    <body>\n      <!-- Cover Page -->\n      <div class=\"cover-page\">\n        <div class=\"cover-content\">\n          <h1 class=\"cover-title\">"
  const PAGE_TOC := "\n          </div>\n        </div>\n      </div>\n\n      <!-- Table of Contents -->\n      "
  const PAGE_BODY := "\n\n      <!-- Enhanced Content -->\n      <div class=\"main-content\">\n        <h1>Enhanced Content</h1>\n        <div class=\"content-body\">\n          "
  const PAGE_ORIGINAL := "\n        </div>\n      </div>\n\n      <!-- Original Content -->\n      "
  const PAGE_CITATIONS := "\n\n      <!-- Citations -->\n      "
  const PAGE_END := "\n    </body>\n    </html>\n  "

  /** The page template: fixed text around the title, the styles and the five sections. */
  function PageParts(title: string, styles: string, cover: string, toc: string, body: string, original: string, citations: string): (ss: seq<string>)
    ensures |ss| == 15
  {
    [PAGE_HEAD, title, PAGE_STYLE, styles, PAGE_COVER, cover, PAGE_TOC, toc, PAGE_BODY, body,
     PAGE_ORIGINAL, original, PAGE_CITATIONS, citations, PAGE_END]
  }

  function Page(title: string, styles: string, cover: string, toc: string, body: string, original: string, citations: string): string {
    Concat(PageParts(title, styles, cover, toc, body, original, citations))
  }

  /**
   * `generatePDFHTML`, with the date it prints (`new Date().toLocaleDateString()`)
   * and the style sheet (`getPDFStyles()`) as parameters.
   */
  function GeneratePdfHtml(content: EnhancedContent, options: Option<PdfOptions>, date: string, styles: string): string {
    var sel := Resolve(options);
    var o := content.original;
    Page(o.title, styles,
      CoverHtml(o, content.model, content.action, date, EstimateReadingTime(content.enhanced)),
      TocSection(sel.tableOfContents, content.tableOfContents),
      ConvertMarkdownToHtml(content.enhanced),
      OriginalSection(sel.original, o.content),
      CitationsSection(sel.citations, content.citations))
  }

  /** Part `i` of a joined list sits whole right after the parts before it. */
  lemma ConcatSlot(ss: seq<string>, i: nat)
    requires i < |ss|
    ensures |Concat(ss[..i])| + |ss[i]| == |Concat(ss[..i + 1])| <= |Concat(ss)|
    ensures Concat(ss)[|Concat(ss[..i])|..|Concat(ss[..i])| + |ss[i]|] == ss[i]
  {
    assert ss == ss[..i + 1] + ss[i + 1..];
    ConcatAppend(ss[..i + 1], ss[i + 1..]);
    assert ss[..i + 1][..i] == ss[..i];
    assert Concat(ss[..i + 1]) == Concat(ss[..i]) + ss[i];
  }

  /** A longer prefix of a joined list is at least as long. */
  lemma ConcatPrefixGrows(ss: seq<string>, i: nat, j: nat)
    requires i <= j <= |ss|
    ensures |Concat(ss[..i])| <= |Concat(ss[..j])|
  {
    assert ss[..j] == ss[..i] + ss[i..j];
    ConcatAppend(ss[..i], ss[i..j]);
  }

  /** Parts 5, 7, 9, 11 and 13 of any fifteen sit whole, in that order, in the joined string. */
  lemma OddSlotsInOrder(ss: seq<string>) returns (c: nat, t: nat, b: nat, o: nat, z: nat)
    requires |ss| == 15
    ensures var html := Concat(ss);
      c + |ss[5]| <= t && t + |ss[7]| <= b && b + |ss[9]| <= o && o + |ss[11]| <= z && z + |ss[13]| <= |html| &&
      html[c..c + |ss[5]|] == ss[5] && html[t..t + |ss[7]|] == ss[7] && html[b..b + |ss[9]|] == ss[9] &&
      html[o..o + |ss[11]|] == ss[11] && html[z..z + |ss[13]|] == ss[13]
  {
    c, t, b, o, z := |Concat(ss[..5])|, |Concat(ss[..7])|, |Concat(ss[..9])|, |Concat(ss[..11])|, |Concat(ss[..13])|;
    ConcatSlot(ss, 5);
    ConcatSlot(ss, 7);
    ConcatSlot(ss, 9);
    ConcatSlot(ss, 11);
    ConcatSlot(ss, 13);
    ConcatPrefixGrows(ss, 6, 7);
    ConcatPrefixGrows(ss, 8, 9);
    ConcatPrefixGrows(ss, 10, 11);
    ConcatPrefixGrows(ss, 12, 13);
  }

  /**
   * The sections come in the fixed order cover, table of contents, enhanced
   * body, original appendix, citations: each sits whole at its offset, and
   * none starts before the one ahead of it ends.
   */
  lemma SectionOrder(title: string, styles: string, cover: string, toc: string, body: string, original: string, citations: string)
    returns (c: nat, t: nat, b: nat, o: nat, z: nat)
    ensures var html := Page(title, styles, cover, toc, body, original, citations);
      c + |cover| <= t && t + |toc| <= b && b + |body| <= o && o + |original| <= z && z + |citations| <= |html| &&
      html[c..c + |cover|] == cover && html[t..t + |toc|] == toc && html[b..b + |body|] == body &&
      html[o..o + |original|] == original && html[z..z + |citations|] == citations
  {
    var ss := PageParts(title, styles, cover, toc, body, original, citations);
    c, t, b, o, z := OddSlotsInOrder(ss);
  }

  /**
   * The page as received-options decide it: the outline unless it was
   * switched off or is absent, the appendix only when asked for, the
   * citations unless switched off, absent or empty (each section function
   * states when it is empty), around the cover with the reading time of the
   * enhanced text and the converted body.
   */
  lemma PageSections(content: EnhancedContent, options: Option<PdfOptions>, date: string, styles: string)
    ensures var o := content.original;
      GeneratePdfHtml(content, options, date, styles) ==
        Page(o.title, styles, CoverHtml(o, content.model, content.action, date, EstimateReadingTime(content.enhanced)),
             TocSection(options.None? || options.value.includeTableOfContents != Some(false), content.tableOfContents),
             ConvertMarkdownToHtml(content.enhanced),
             OriginalSection(options.Some? && options.value.includeOriginal == Some(true), o.content),
             CitationsSection(options.None? || options.value.includeCitations != Some(false), content.citations))
  {
    var sel := Resolve(options);
    assert sel.tableOfContents == (options.None? || options.value.includeTableOfContents != Some(false));
    assert sel.original == (options.Some? && options.value.includeOriginal == Some(true));
    assert sel.citations == (options.None? || options.value.includeCitations != Some(false));
  }

  // ---------------------------------------------------------------------------
  // The download name

  lemma DashNonAlnumAppend(a: string, b: string)
    ensures DashNonAlnum(a + b) == DashNonAlnum(a) + DashNonAlnum(b)
  {
    var l, r := DashNonAlnum(a + b), DashNonAlnum(a) + DashNonAlnum(b);
    assert |l| == |r|;
    forall i | 0 <= i < |l| ensures l[i] == r[i] {
      if i < |a| { assert (a + b)[i] == a[i]; } else { assert (a + b)[i] == b[i - |a|]; }
    }
  }

  /** Collapsing dashes keeps a dash-led, double-dash-free tail as it is. */
  lemma {:induction false} CollapseDashesKeepsTail(y: string, w: string)
    requires w != [] && w[0] == '-' && NoDoubleDash(w)
    ensures EndsWith(CollapseDashes(y + w), w)
  {
    if y == [] {
      assert y + w == w;
      CollapseDashesNoop(w);
    } else {
      assert (y + w)[1..] == y[1..] + w;
      CollapseDashesKeepsTail(y[1..], w);
    }
  }

  const ENHANCED := "enhanced"
  const DASH_ENHANCED := "-" + ENHANCED

  predicate LowerLetters(s: string) {
    forall i :: 0 <= i < |s| ==> 'a' <= s[i] <= 'z'
  }

  lemma EnhancedLetters()
    ensures LowerLetters(ENHANCED)
  {
  }

  /** A dash followed by lower-case letters survives the first replacement unchanged. */
  lemma DashLettersKept(e: string)
    requires LowerLetters(e)
    ensures DashNonAlnum("-" + e) == "-" + e
  {
    var w := "-" + e;
    var d := DashNonAlnum(w);
    forall i | 0 <= i < |w| ensures d[i] == w[i] {
      if i > 0 {
        assert w[i] == e[i - 1];
      }
    }
  }

  /** The suffix `-enhanced` survives the first replacement unchanged. */
  lemma DashEnhancedKept()
    ensures DashNonAlnum(DASH_ENHANCED) == DASH_ENHANCED
  {
    EnhancedLetters();
    DashLettersKept(ENHANCED);
  }

  /** It starts with its only dash. */
  lemma DashEnhancedShape()
    ensures DASH_ENHANCED[0] == '-' && NoDoubleDash(DASH_ENHANCED)
    ensures DASH_ENHANCED[1..] == ENHANCED && ENHANCED[|ENHANCED| - 1] != '-'
  {
    var w := DASH_ENHANCED;
    assert forall i :: 1 <= i < |w| ==> w[i] == ENHANCED[i - 1];
  }

  /** Stripping edge dashes keeps all but the first character of a tail that does not end in a dash. */
  lemma StripEdgeDashesKeepsTail(z: string, w: string)
    requires EndsWith(z, w) && |w| >= 2 && w[|w| - 1] != '-'
    ensures EndsWith(StripEdgeDashes(z), w[1..])
  {
    var lo, hi := StripEdgeDashesSlice(z);
    assert z[|z| - 1] == w[|w| - 1];
    assert hi == |z|;
    var r := StripEdgeDashes(z);
    forall i | |r| - (|w| - 1) <= i < |r| ensures r[i] == w[1..][i - (|r| - (|w| - 1))] {
      assert r[i] == z[lo + i];
    }
  }

  /** ASCII lower-casing keeps a tail of lower-case letters. */
  lemma LowerKeepsTail(st: string, e: string)
    requires EndsWith(st, e) && LowerLetters(e)
    ensures EndsWith(Lower(st), e)
  {
    var l := Lower(st);
    var o := |l| - |e|;
    forall i | o <= i < |l| ensures l[i] == e[i - o] {
      assert st[i] == st[o..][i - o];
    }
    assert l[o..] == e;
  }

  /** `sanitizeFilename(`${title}-enhanced`)` keeps the closing `enhanced`. */
  lemma SanitizedSuffix(title: string)
    ensures EndsWith(SanitizeFilename(title + DASH_ENHANCED), ENHANCED)
  {
    var w := DASH_ENHANCED;
    DashEnhancedKept();
    DashEnhancedShape();
    EnhancedLetters();
    DashNonAlnumAppend(title, w);
    var y := DashNonAlnum(title);
    CollapseDashesKeepsTail(y, w);
    var z := CollapseDashes(y + w);
    StripEdgeDashesKeepsTail(z, w);
    LowerKeepsTail(StripEdgeDashes(z), ENHANCED);
  }

  /**
   * The download name `sanitizeFilename(`${title}-enhanced`) + '.pdf'`: it
   * always ends in `enhanced.pdf`, and before `.pdf` uses only `[a-z0-9-]`
   * with no `--` and no dash at either end.
   */
  function PdfFilename(title: string): (name: string)
    ensures EndsWith(name, ENHANCED + ".pdf")
    ensures |name| >= 4 && CleanFileName(name[..|name| - 4])
  {
    var base := SanitizeFilename(title + DASH_ENHANCED);
    SanitizedSuffix(title);
    SanitizeFilenameClean(title + DASH_ENHANCED);
    PdfNameShape(base);
    base + ".pdf"
  }

  lemma PdfNameShape(base: string)
    requires EndsWith(base, ENHANCED)
    ensures EndsWith(base + ".pdf", ENHANCED + ".pdf")
    ensures (base + ".pdf")[..|base + ".pdf"| - 4] == base
  {
    var n := base + ".pdf";
    assert n[..|base|] == base;
    assert n[|n| - 12..] == base[|base| - 8..] + ".pdf";
  }

  // ---------------------------------------------------------------------------
  // POST

  /** The request body: parsed, or `request.json()` threw. */
  datatype RequestBody = Parsed(request: PdfGenerationRequest) | Unparsable(thrown: Thrown)

  /** What a successful call hands back: the page given to the browser and the download headers. */
  datatype PdfDownload = PdfDownload(html: string, filename: string, contentDisposition: string)

  const CONTENT_REQUIRED := "Content is required for PDF generation"
  const GENERIC_FAILURE := "Failed to generate PDF"
  const ATTACHMENT := "attachment; filename=\""

  /** `error instanceof Error ? error.message : 'Failed to generate PDF'` */
  function CaughtMessage(t: Thrown): string {
    MessageOr(t, GENERIC_FAILURE)
  }

  /** The page handed to the browser and the download headers of the response. */
  function Download(content: EnhancedContent, options: Option<PdfOptions>, date: string, styles: string): PdfDownload {
    var filename := PdfFilename(content.original.title);
    PdfDownload(GeneratePdfHtml(content, options, date, styles), filename, ATTACHMENT + filename + "\"")
  }

  /**
   * `POST /api/generate-pdf`. The browser render is the input `renderFailure`:
   * `None` when launching, loading and printing succeed, otherwise what it threw.
   */
  function Post(body: RequestBody, date: string, styles: string, renderFailure: Option<Thrown>): (r: ApiResponse<PdfDownload>)
    ensures body.Parsed? && body.request.content.None? ==> r == Failure(CONTENT_REQUIRED)
    ensures body.Unparsable? ==> r == Failure(CaughtMessage(body.thrown))
    ensures r.Success? <==> body.Parsed? && body.request.content.Some? && renderFailure.None?
    ensures body.Parsed? && body.request.content.Some? && renderFailure.Some? ==> r == Failure(CaughtMessage(renderFailure.value))
  {
    match body
    case Unparsable(t) => Failure(CaughtMessage(t))
    case Parsed(req) =>
      if req.content.None? then Failure(CONTENT_REQUIRED)
      else
        match renderFailure
        case Some(t) => Failure(CaughtMessage(t))
        case None => Success(Download(req.content.value, req.options, date, styles))
  }

  /**
   * No answer of the route is given a `status`: `NextResponse.json` and
   * `new NextResponse` then send 200, for the error bodies too.
   */
  const DEFAULT_STATUS := 200

  /** The HTTP status an answer of `Post` is sent with. */
  function HttpStatus(r: ApiResponse<PdfDownload>): nat {
    DEFAULT_STATUS
  }

  /**
   * A successful call hands the browser the page `generatePDFHTML` builds
   * and offers it for download under its sanitised name.
   */
  lemma PostSuccess(body: RequestBody, date: string, styles: string)
    requires body.Parsed? && body.request.content.Some?
    ensures var r := Post(body, date, styles, None);
      var content := body.request.content.value;
      r.Success? &&
      r.data.html == GeneratePdfHtml(content, body.request.options, date, styles) &&
      r.data.filename == PdfFilename(content.original.title) &&
      EndsWith(r.data.filename, ENHANCED + ".pdf") &&
      r.data.contentDisposition == ATTACHMENT + r.data.filename + "\""
  {
  }
}
