/**
 * The text utilities of src/lib/content-utils.ts: HTML-to-text, reading-time
 * estimate, truncation, file-name sanitising, Markdown spacing and the
 * content validator. Each `replace` of the source is a function here with
 * the regular expression's left-to-right, non-overlapping semantics.
 */
module ContentUtils {
  import opened Wrappers
  import opened Strings
  import opened Types

  // ---------------------------------------------------------------------------
  // Scanning helpers

  /** `s[p..]` starts with `pat` under the `i` flag (ASCII case folding). */
  predicate MatchesAtCI(s: string, p: nat, pat: string) {
    p + |pat| <= |s| && Lower(s[p..p + |pat|]) == Lower(pat)
  }

  /** The first index at or after `from` that holds `c`. */
  function FindChar(s: string, from: nat, c: char): (r: Option<nat>)
    ensures r.Some? ==> from <= r.value < |s| && s[r.value] == c
    ensures r.Some? ==> forall k :: from <= k < r.value ==> s[k] != c
    ensures r.None? ==> forall k :: from <= k < |s| ==> s[k] != c
    decreases |s| - from
  {
    if from >= |s| then None
    else if s[from] == c then Some(from)
    else FindChar(s, from + 1, c)
  }

  /** The first index at or after `from` where `pat` occurs, case-insensitively. */
  function FindCI(s: string, from: nat, pat: string): (r: Option<nat>)
    ensures r.Some? ==> from <= r.value && MatchesAtCI(s, r.value, pat)
    ensures r.Some? ==> forall k :: from <= k < r.value ==> !MatchesAtCI(s, k, pat)
    decreases |s| - from
  {
    if from + |pat| > |s| then None
    else if MatchesAtCI(s, from, pat) then Some(from)
    else FindCI(s, from + 1, pat)
  }

  // ---------------------------------------------------------------------------
  // extractTextContent

  /**
   * End of a match of `<name[^>]*>[\s\S]*?<\/name>` (flags `gi`) starting at
   * `s[0]`: the opening tag runs to the first `>`, the element to the first
   * closing tag after it.
   */
  function ElementMatchEnd(s: string, name: string): (r: Option<nat>)
    ensures r.Some? ==> 0 < r.value <= |s|
  {
    if !MatchesAtCI(s, 0, "<" + name) then None
    else match FindChar(s, 1 + |name|, '>')
      case None => None
      case Some(g) =>
        match FindCI(s, g + 1, "</" + name + ">")
        case None => None
        case Some(e) => Some(e + |name| + 3)
  }

  /** `s.replace(/<name[^>]*>[\s\S]*?<\/name>/gi, '')`: every complete element is deleted. */
  function RemoveElements(s: string, name: string): (r: string)
    ensures |r| <= |s|
  {
    if s == [] then []
    else match ElementMatchEnd(s, name)
      case Some(e) => RemoveElements(s[e..], name)
      case None => [s[0]] + RemoveElements(s[1..], name)
  }

  /** A match of `<[^>]+>` starts at `s[p]`: a `<` with at least one character before the next `>`. */
  predicate TagAt(s: string, p: nat) {
    p < |s| && s[p] == '<' && var g := FindChar(s, p + 1, '>'); g.Some? && g.value > p + 1
  }

  /** `s.replace(/<[^>]+>/g, ' ')`: every tag becomes one space. */
  function ReplaceTags(s: string): (r: string)
    ensures |r| <= |s|
    ensures (forall i :: 0 <= i < |s| ==> s[i] != '>') ==> forall i :: 0 <= i < |r| ==> r[i] != '>'
  {
    if s == [] then []
    else if TagAt(s, 0) then " " + ReplaceTags(s[FindChar(s, 1, '>').value + 1..])
    else [s[0]] + ReplaceTags(s[1..])
  }

  /** No match of `<[^>]+>` is left after the replacement. */
  lemma {:induction false} ReplaceTagsLeavesNoTag(s: string)
    ensures forall p :: 0 <= p < |ReplaceTags(s)| ==> !TagAt(ReplaceTags(s), p)
  {
    if s != [] {
      var r := ReplaceTags(s);
      if TagAt(s, 0) {
        var rest := s[FindChar(s, 1, '>').value + 1..];
        ReplaceTagsLeavesNoTag(rest);
        forall p | 0 <= p < |r| ensures !TagAt(r, p) {
          if p > 0 { TagShift(r, " ", ReplaceTags(rest), p); }
        }
      } else {
        var tail := ReplaceTags(s[1..]);
        ReplaceTagsLeavesNoTag(s[1..]);
        assert r == [s[0]] + tail;
        forall p | 0 <= p < |r| ensures !TagAt(r, p) {
          if p > 0 {
            TagShift(r, [s[0]], tail, p);
          } else if s[0] == '<' {
            // no tag at s[0]: either `<>` or no `>` at all further on
            if s[1..] != [] && s[1] == '>' {
              assert !TagAt(s[1..], 0);
              assert tail[0] == '>';
              assert r[1] == '>';
            } else {
              assert FindChar(s, 1, '>').None?;
              forall i | 0 <= i < |s[1..]| ensures s[1..][i] != '>' { assert s[1..][i] == s[i + 1]; }
            }
          }
        }
      }
    }
  }

  /** A tag in `a + b` at a position inside `b` is a tag of `b`. */
  lemma TagShift(r: string, a: string, b: string, p: nat)
    requires r == a + b && |a| <= p < |r|
    ensures TagAt(r, p) <==> TagAt(b, p - |a|)
  {
    var q := p - |a|;
    if r[p] == '<' {
      FindCharShift(r, a, b, p + 1);
    }
  }

  lemma {:induction false} FindCharShift(r: string, a: string, b: string, from: nat)
    requires r == a + b && |a| <= from
    ensures FindChar(r, from, '>').Some? <==> FindChar(b, from - |a|, '>').Some?
    ensures FindChar(r, from, '>').Some? ==> FindChar(r, from, '>').value == FindChar(b, from - |a|, '>').value + |a|
    decreases |r| - from
  {
    if from < |r| {
      assert r[from] == b[from - |a|];
      FindCharShift(r, a, b, from + 1);
    }
  }

  /** `s.replace(/\s+/g, ' ')`: every run of white space becomes one space. */
  function CollapseSpaces(s: string): (r: string)
    ensures r == [] <==> s == []
    ensures r != [] ==> (IsSpace(r[0]) <==> IsSpace(s[0]))
    ensures forall i :: 0 <= i < |r| && IsSpace(r[i]) ==> r[i] == ' '
    ensures forall i :: 0 <= i < |r| - 1 ==> !(IsSpace(r[i]) && IsSpace(r[i + 1]))
  {
    if s == [] then []
    else if IsSpace(s[0]) then " " + CollapseSpaces(TrimStart(s[1..]))
    else [s[0]] + CollapseSpaces(s[1..])
  }

  /** `extractTextContent`: strip scripts, styles and tags, collapse white space, trim. */
  function ExtractTextContent(html: string): string {
    Trim(CollapseSpaces(ReplaceTags(RemoveElements(RemoveElements(html, "script"), "style"))))
  }

  /** Only plain spaces, never two white-space characters in a row. */
  predicate SingleSpaced(s: string) {
    (forall i :: 0 <= i < |s| && IsSpace(s[i]) ==> s[i] == ' ') &&
    (forall i :: 0 <= i < |s| - 1 ==> !(IsSpace(s[i]) && IsSpace(s[i + 1])))
  }

  /** Every slice of a single-spaced string is single-spaced. */
  lemma SliceSingleSpaced(c: string, lo: nat, hi: nat)
    requires SingleSpaced(c) && lo <= hi <= |c|
    ensures SingleSpaced(c[lo..hi])
  {
    var r := c[lo..hi];
    forall i | 0 <= i < |r| ensures r[i] == c[lo + i] { }
  }

  /** Trimming keeps single spacing, since it returns a slice. */
  lemma TrimKeepsSingleSpaced(c: string)
    requires SingleSpaced(c)
    ensures SingleSpaced(Trim(c)) && Trimmed(Trim(c))
  {
    TrimShape(c);
    var i, j :| 0 <= i <= j <= |c| && Trim(c) == c[i..j] && AllSpace(c[..i]) && AllSpace(c[j..]);
    SliceSingleSpaced(c, i, j);
  }

  /** The extracted text has no white space at its ends, none but plain spaces, and never two in a row. */
  lemma ExtractTextContentNormalised(html: string)
    ensures Trimmed(ExtractTextContent(html)) && SingleSpaced(ExtractTextContent(html))
  {
    var c := CollapseSpaces(ReplaceTags(RemoveElements(RemoveElements(html, "script"), "style")));
    TrimKeepsSingleSpaced(c);
  }

  // ---------------------------------------------------------------------------
  // estimateReadingTime

  /** `s.split(/\s+/)`: the pieces between maximal runs of white space, empty ends included. */
  function SplitOnSpace(s: string): (pieces: seq<string>)
    ensures |pieces| >= 1
  {
    if s == [] then [""]
    else if IsSpace(s[0]) then [""] + SplitOnSpace(TrimStart(s[1..]))
    else
      var rest := SplitOnSpace(s[1..]);
      [[s[0]] + rest[0]] + rest[1..]
  }

  /** No piece of the split holds white space. */
  lemma {:induction false} SplitOnSpacePiece(s: string, k: nat)
    requires k < |SplitOnSpace(s)|
    ensures NoSpace(SplitOnSpace(s)[k])
  {
    if s != [] {
      if IsSpace(s[0]) {
        if k > 0 { SplitOnSpacePiece(TrimStart(s[1..]), k - 1); }
      } else {
        var rest := SplitOnSpace(s[1..]);
        if k > 0 {
          SplitOnSpacePiece(s[1..], k);
        } else {
          SplitOnSpacePiece(s[1..], 0);
          var first := [s[0]] + rest[0];
          forall i | 0 <= i < |first| ensures !IsSpace(first[i]) {
            if i > 0 { assert first[i] == rest[0][i - 1]; }
          }
        }
      }
    }
  }

  /** The pieces joined with single spaces. */
  function JoinWithSpace(pieces: seq<string>): string {
    if pieces == [] then ""
    else if |pieces| == 1 then pieces[0]
    else pieces[0] + " " + JoinWithSpace(pieces[1..])
  }

  /** Splitting and re-joining with single spaces gives the white-space-collapsed text. */
  lemma {:induction false} SplitJoinCollapses(s: string)
    ensures JoinWithSpace(SplitOnSpace(s)) == CollapseSpaces(s)
  {
    if s != [] {
      if IsSpace(s[0]) {
        var t := TrimStart(s[1..]);
        SplitJoinCollapses(t);
        assert SplitOnSpace(s) == [""] + SplitOnSpace(t);
        assert CollapseSpaces(s) == " " + CollapseSpaces(t);
        JoinEmptyFirst(SplitOnSpace(t));
      } else {
        SplitJoinCollapses(s[1..]);
        JoinFirstExtends(s[0], SplitOnSpace(s[1..]));
      }
    }
  }

  /** An empty first piece puts one space in front of the rest. */
  lemma JoinEmptyFirst(ps: seq<string>)
    requires |ps| >= 1
    ensures JoinWithSpace([""] + ps) == " " + JoinWithSpace(ps)
  {
    assert ([""] + ps)[1..] == ps;
  }

  /** Extending the first piece extends the joined text at its front. */
  lemma JoinFirstExtends(c: char, rest: seq<string>)
    requires |rest| >= 1
    ensures JoinWithSpace([[c] + rest[0]] + rest[1..]) == [c] + JoinWithSpace(rest)
  {
    var ps := [[c] + rest[0]] + rest[1..];
    if |rest| > 1 {
      assert ps[1..] == rest[1..];
    }
  }

  /** Splitting words joined by single spaces gives the words back. */
  lemma {:induction false} SplitJoinRoundTrip(words: seq<string>)
    requires |words| >= 1
    requires forall k :: 0 <= k < |words| ==> words[k] != "" && NoSpace(words[k])
    ensures SplitOnSpace(JoinWithSpace(words)) == words
  {
    if |words| == 1 {
      SplitWord(words[0], "", [""]);
      assert words[0] + "" == words[0];
    } else {
      var tail := JoinWithSpace(words[1..]);
      SplitJoinRoundTrip(words[1..]);
      JoinHead(words[1..]);
      SpaceThenWord(tail, words[1..]);
      var pieces := [""] + words[1..];
      SplitWord(words[0], " " + tail, pieces);
      assert JoinWithSpace(words) == words[0] + (" " + tail);
      assert pieces[0] == "" && pieces[1..] == words[1..];
      assert words[0] + pieces[0] == words[0];
      assert words == [words[0]] + words[1..];
    }
  }

  /** The joined text starts with the first piece's first character. */
  lemma JoinHead(words: seq<string>)
    requires |words| >= 1 && words[0] != ""
    ensures JoinWithSpace(words) != [] && JoinWithSpace(words)[0] == words[0][0]
  {
  }

  lemma SpaceThenWord(tail: string, words: seq<string>)
    requires SplitOnSpace(tail) == words
    requires tail != [] && !IsSpace(tail[0])
    ensures SplitOnSpace(" " + tail) == [""] + words
  {
    var s := " " + tail;
    assert s[1..] == tail;
  }

  /** A space-free word in front of a text that starts with white space (or is empty) extends its first piece. */
  lemma {:induction false} SplitWord(w: string, after: string, pieces: seq<string>)
    requires NoSpace(w)
    requires SplitOnSpace(after) == pieces
    requires after == [] || IsSpace(after[0])
    ensures SplitOnSpace(w + after) == [w + pieces[0]] + pieces[1..]
  {
    if w == [] {
      assert w + after == after;
    } else {
      var s := w + after;
      assert s[0] == w[0] && s[1..] == w[1..] + after;
      assert NoSpace(w[1..]) by {
        forall i | 0 <= i < |w| - 1 ensures !IsSpace(w[1..][i]) { assert w[1..][i] == w[i + 1]; }
      }
      SplitWord(w[1..], after, pieces);
      assert [w[0]] + (w[1..] + pieces[0]) == w + pieces[0];
    }
  }

  /** `estimateReadingTime`: pieces of the split, divided by 200 words per minute, rounded up. */
  function EstimateReadingTime(content: string): (minutes: nat)
    ensures minutes >= 1
    ensures (minutes - 1) * 200 < |SplitOnSpace(content)| <= minutes * 200
  {
    (|SplitOnSpace(content)| + 199) / 200
  }

  /** The empty text splits into one (empty) piece, so it still reads in one minute. */
  lemma ReadingTimeOfEmpty()
    ensures |SplitOnSpace("")| == 1 && EstimateReadingTime("") == 1
  {
  }

  /** Words separated by single spaces read in their number divided by 200, rounded up, minutes. */
  lemma ReadingTimeOfWords(words: seq<string>)
    requires |words| >= 1
    requires forall k :: 0 <= k < |words| ==> words[k] != "" && NoSpace(words[k])
    ensures EstimateReadingTime(JoinWithSpace(words)) == (|words| + 199) / 200
    ensures |words| == 400 ==> EstimateReadingTime(JoinWithSpace(words)) == 2
  {
    SplitJoinRoundTrip(words);
  }

  // ---------------------------------------------------------------------------
  // truncateText

  /** `truncateText`: short texts are kept, longer ones cut to `maxLength - 3` characters plus `...`. */
  function TruncateText(text: string, maxLength: int): (r: string)
    ensures |text| <= maxLength ==> r == text
    ensures |text| > maxLength ==> |r| == (if maxLength >= 3 then maxLength else 3)
    ensures |text| > maxLength ==> EndsWith(r, "...") && StartsWith(text, r[..|r| - 3])
  {
    if |text| <= maxLength then text
    else
      // `substr(0, n)` with a negative `n` takes nothing
      var keep := if maxLength - 3 < 0 then 0 else maxLength - 3;
      TruncatedShape(text, keep);
      text[..keep] + ELLIPSIS
  }

  const ELLIPSIS := "..."

  lemma TruncatedShape(text: string, keep: nat)
    requires keep <= |text|
    ensures var r := text[..keep] + ELLIPSIS;
      |r| == keep + 3 && EndsWith(r, "...") && StartsWith(text, r[..|r| - 3])
  {
    var r := text[..keep] + ELLIPSIS;
    EndsWithSuffix(text[..keep], ELLIPSIS);
    assert r[..|r| - 3] == text[..keep];
  }

  // ---------------------------------------------------------------------------
  // sanitizeFilename

  /** `.replace(/[^a-z0-9]/gi, '-')` */
  function DashNonAlnum(s: string): (r: string)
    ensures |r| == |s|
    ensures forall i :: 0 <= i < |s| ==> r[i] == if IsAsciiAlnum(s[i]) then s[i] else '-'
  {
    if s == [] then [] else [if IsAsciiAlnum(s[0]) then s[0] else '-'] + DashNonAlnum(s[1..])
  }

  /** `.replace(/-+/g, '-')`: a dash followed by another dash is dropped. */
  function CollapseDashes(s: string): (r: string)
    ensures |r| <= |s|
  {
    if s == [] then []
    else if s[0] == '-' && |s| > 1 && s[1] == '-' then CollapseDashes(s[1..])
    else [s[0]] + CollapseDashes(s[1..])
  }

  /** `.replace(/^-|-$/g, '')` */
  function StripEdgeDashes(s: string): (r: string)
    ensures |r| <= |s|
  {
    var a := if s != [] && s[0] == '-' then s[1..] else s;
    if a != [] && a[|a| - 1] == '-' then a[..|a| - 1] else a
  }

  /** `sanitizeFilename` */
  function SanitizeFilename(filename: string): string {
    Lower(StripEdgeDashes(CollapseDashes(DashNonAlnum(filename))))
  }

  predicate FileNameChar(c: char) {
    ('a' <= c <= 'z') || IsDigit(c) || c == '-'
  }

  /** Only ASCII letters, digits and dashes. */
  predicate DashAlnumChars(s: string) {
    forall i :: 0 <= i < |s| ==> IsAsciiAlnum(s[i]) || s[i] == '-'
  }

  /** No two dashes in a row. */
  predicate NoDoubleDash(s: string) {
    forall i :: 0 <= i < |s| - 1 ==> !(s[i] == '-' && s[i + 1] == '-')
  }

  /** No dash at either end. */
  predicate NoEdgeDash(s: string) {
    s != [] ==> s[0] != '-' && s[|s| - 1] != '-'
  }

  /** Only `[a-z0-9-]`, no `--`, no dash at either end. */
  predicate CleanFileName(s: string) {
    (forall i :: 0 <= i < |s| ==> FileNameChar(s[i])) && NoDoubleDash(s) && NoEdgeDash(s)
  }

  /** The ASCII letters and digits of a string, in order. */
  function Alnums(s: string): string {
    if s == [] then [] else (if IsAsciiAlnum(s[0]) then [s[0]] else []) + Alnums(s[1..])
  }

  lemma {:induction false} AlnumsAppend(a: string, b: string)
    ensures Alnums(a + b) == Alnums(a) + Alnums(b)
  {
    if a != [] {
      AlnumsAppend(a[1..], b);
      assert (a + b)[1..] == a[1..] + b;
    } else {
      assert a + b == b;
    }
  }

  lemma {:induction false} DashNonAlnumFacts(s: string)
    ensures DashAlnumChars(DashNonAlnum(s))
    ensures Alnums(DashNonAlnum(s)) == Alnums(s)
  {
    if s != [] {
      DashNonAlnumFacts(s[1..]);
      assert DashNonAlnum(s)[1..] == DashNonAlnum(s[1..]);
    }
  }

  lemma {:induction false} CollapseDashesFacts(s: string)
    requires DashAlnumChars(s)
    ensures var r := CollapseDashes(s);
      DashAlnumChars(r) && NoDoubleDash(r) &&
      (r != [] ==> r[0] == s[0] && r[|r| - 1] == s[|s| - 1]) &&
      (r == [] <==> s == []) &&
      Alnums(r) == Alnums(s)
  {
    if s != [] {
      assert DashAlnumChars(s[1..]) by {
        forall i | 0 <= i < |s| - 1 ensures IsAsciiAlnum(s[1..][i]) || s[1..][i] == '-' { assert s[1..][i] == s[i + 1]; }
      }
      CollapseDashesFacts(s[1..]);
      AlnumsAppend([s[0]], s[1..]);
      assert s == [s[0]] + s[1..];
      if !(s[0] == '-' && |s| > 1 && s[1] == '-') {
        var r := CollapseDashes(s);
        var t := CollapseDashes(s[1..]);
        assert r == [s[0]] + t;
        AlnumsAppend([s[0]], t);
        forall i | 0 <= i < |r| - 1 ensures !(r[i] == '-' && r[i + 1] == '-') {
          if i > 0 { assert r[i] == t[i - 1] && r[i + 1] == t[i]; }
        }
      }
    }
  }

  /** A slice of a string of letters, digits and single dashes is one too. */
  lemma DashedSlice(s: string, lo: nat, hi: nat)
    requires DashAlnumChars(s) && NoDoubleDash(s) && lo <= hi <= |s|
    ensures DashAlnumChars(s[lo..hi]) && NoDoubleDash(s[lo..hi])
  {
    var r := s[lo..hi];
    forall i | 0 <= i < |r| ensures r[i] == s[lo + i] { }
  }

  /** All dashes: no letter or digit. */
  lemma AlnumsOfDashes(d: string)
    requires d == [] || d == "-"
    ensures Alnums(d) == []
  {
  }

  /** Stripping the edge dashes leaves a slice of the input that only loses dashes. */
  lemma StripEdgeDashesSlice(s: string) returns (lo: nat, hi: nat)
    ensures lo <= hi <= |s| && StripEdgeDashes(s) == s[lo..hi]
    ensures s[..lo] == [] || s[..lo] == "-"
    ensures s[hi..] == [] || s[hi..] == "-"
    ensures lo == 1 ==> s[0] == '-'
    ensures hi < |s| ==> s[hi] == '-'
  {
    lo := if s != [] && s[0] == '-' then 1 else 0;
    var a := s[lo..];
    hi := if a != [] && a[|a| - 1] == '-' then |s| - 1 else |s|;
    if hi < |s| {
      assert s[hi..] == [s[hi]];
    }
  }

  /** Dropping at most a dash at each end keeps the letters and digits. */
  lemma AlnumsOfMiddle(s: string, lo: nat, hi: nat)
    requires lo <= hi <= |s|
    requires s[..lo] == [] || s[..lo] == "-"
    requires s[hi..] == [] || s[hi..] == "-"
    ensures Alnums(s[lo..hi]) == Alnums(s)
  {
    var a, m, b := s[..lo], s[lo..hi], s[hi..];
    SplitThree(s, lo, hi);
    AlnumsOfDashes(a);
    AlnumsOfDashes(b);
    AlnumsAppend(a, m + b);
    AlnumsAppend(m, b);
    assert Alnums(s) == [] + (Alnums(m) + []);
  }

  lemma StripEdgeDashesFacts(s: string)
    requires DashAlnumChars(s) && NoDoubleDash(s)
    ensures DashAlnumChars(StripEdgeDashes(s)) && NoDoubleDash(StripEdgeDashes(s)) && NoEdgeDash(StripEdgeDashes(s))
    ensures Alnums(StripEdgeDashes(s)) == Alnums(s)
  {
    var lo, hi := StripEdgeDashesSlice(s);
    var r := s[lo..hi];
    DashedSlice(s, lo, hi);
    AlnumsOfMiddle(s, lo, hi);
    if r != [] {
      // a dash at one end of `r` would be the second of two dashes in `s`
      assert r[0] == s[lo];
      assert r[|r| - 1] == s[hi - 1];
    }
  }

  lemma {:induction false} LowerAlnums(s: string)
    ensures Alnums(Lower(s)) == Lower(Alnums(s))
  {
    if s != [] {
      LowerAlnums(s[1..]);
      assert Lower(s)[1..] == Lower(s[1..]);
      AlnumsAppend([LowerChar(s[0])], Lower(s[1..]));
      assert Lower(s) == [LowerChar(s[0])] + Lower(s[1..]);
      if IsAsciiAlnum(s[0]) {
        assert Lower([s[0]] + Alnums(s[1..])) == [LowerChar(s[0])] + Lower(Alnums(s[1..]));
      }
    }
  }

  /** ASCII lower-casing keeps dashes where they are and turns letters into `[a-z]`. */
  lemma LowerClean(c: string)
    requires DashAlnumChars(c) && NoDoubleDash(c) && NoEdgeDash(c)
    ensures CleanFileName(Lower(c))
  {
    var r := Lower(c);
    forall i | 0 <= i < |r| ensures FileNameChar(r[i]) && (r[i] == '-' <==> c[i] == '-') {
      assert r[i] == LowerChar(c[i]);
    }
  }

  /** A non-empty string of letters, digits and dashes that does not start with a dash has a letter or digit. */
  lemma AlnumsOfClean(c: string)
    requires c != [] && c[0] != '-' && DashAlnumChars(c)
    ensures Alnums(c) != ""
  {
    AlnumsAppend([c[0]], c[1..]);
    assert c == [c[0]] + c[1..];
  }

  /**
   * The sanitised name uses only `[a-z0-9-]`, has no `--` and no dash at
   * either end, and keeps the input's ASCII letters and digits (lower-cased)
   * in order; so it is "" exactly when the input has none.
   */
  lemma SanitizeFilenameClean(filename: string)
    ensures CleanFileName(SanitizeFilename(filename))
    ensures Alnums(SanitizeFilename(filename)) == Lower(Alnums(filename))
    ensures SanitizeFilename(filename) == "" <==> Alnums(filename) == ""
    ensures |SanitizeFilename(filename)| <= |filename|
  {
    var a := DashNonAlnum(filename);
    DashNonAlnumFacts(filename);
    var b := CollapseDashes(a);
    CollapseDashesFacts(a);
    var c := StripEdgeDashes(b);
    StripEdgeDashesFacts(b);
    LowerClean(c);
    LowerAlnums(c);
    assert Alnums(c) == Alnums(filename);
    if c != "" {
      AlnumsOfClean(c);
    }
  }

  lemma {:induction false} CollapseDashesNoop(s: string)
    requires NoDoubleDash(s)
    ensures CollapseDashes(s) == s
  {
    if s != [] {
      assert NoDoubleDash(s[1..]) by {
        forall i | 0 <= i < |s| - 2 ensures !(s[1..][i] == '-' && s[1..][i + 1] == '-') {
          assert s[1..][i] == s[i + 1] && s[1..][i + 1] == s[i + 2];
        }
      }
      CollapseDashesNoop(s[1..]);
    }
  }

  /** Sanitising a sanitised name changes nothing. */
  lemma SanitizeFilenameIdempotent(filename: string)
    ensures SanitizeFilename(SanitizeFilename(filename)) == SanitizeFilename(filename)
  {
    var t := SanitizeFilename(filename);
    SanitizeFilenameClean(filename);
    assert DashNonAlnum(t) == t by {
      forall i | 0 <= i < |t| ensures DashNonAlnum(t)[i] == t[i] {
        assert FileNameChar(t[i]);
      }
    }
    CollapseDashesNoop(t);
    assert StripEdgeDashes(t) == t;
    assert Lower(t) == t by {
      forall i | 0 <= i < |t| ensures Lower(t)[i] == t[i] {
        assert FileNameChar(t[i]);
      }
    }
  }

  // ---------------------------------------------------------------------------
  // formatMarkdownContent

  /** `.replace(/\n{3,}/g, '\n\n')`: runs of three or more newlines shrink to two. */
  function LimitNewlines(s: string): (r: string)
    ensures |r| <= |s|
  {
    if s == [] then []
    else if s[0] == '\n' then
      var k := RunLength(s, '\n');
      (if k >= 3 then "\n\n" else s[..k]) + LimitNewlines(s[k..])
    else [s[0]] + LimitNewlines(s[1..])
  }

  predicate NoTripleNewline(s: string) {
    forall i :: 0 <= i < |s| - 2 ==> !(s[i] == '\n' && s[i + 1] == '\n' && s[i + 2] == '\n')
  }

  /** After the first replacement no three newlines are adjacent. */
  lemma {:induction false} LimitNewlinesBound(s: string)
    ensures NoTripleNewline(LimitNewlines(s))
    ensures LimitNewlines(s) != [] ==> (LimitNewlines(s)[0] == '\n' <==> s[0] == '\n')
  {
    if s != [] {
      var r := LimitNewlines(s);
      if s[0] == '\n' {
        var k := RunLength(s, '\n');
        var head: string := if k >= 3 then "\n\n" else s[..k];
        var tail := LimitNewlines(s[k..]);
        LimitNewlinesBound(s[k..]);
        assert r == head + tail;
        assert |head| <= 2 && forall i :: 0 <= i < |head| ==> head[i] == '\n';
        assert tail != [] ==> tail[0] != '\n';
        forall i | 0 <= i < |r| - 2 ensures !(r[i] == '\n' && r[i + 1] == '\n' && r[i + 2] == '\n') {
          if i >= |head| {
            assert r[i] == tail[i - |head|] && r[i + 1] == tail[i - |head| + 1] && r[i + 2] == tail[i - |head| + 2];
          } else if |head| == 2 && i == 0 {
            assert r[2] == tail[0];
          } else {
            assert r[i + 1] == tail[i + 1 - |head|];
          }
        }
      } else {
        LimitNewlinesBound(s[1..]);
        var tail := LimitNewlines(s[1..]);
        assert r == [s[0]] + tail;
        forall i | 0 <= i < |r| - 2 ensures !(r[i] == '\n' && r[i + 1] == '\n' && r[i + 2] == '\n') {
          if i > 0 { assert r[i] == tail[i - 1] && r[i + 1] == tail[i] && r[i + 2] == tail[i + 1]; }
        }
      }
    }
  }

  /** End of a match of `^#{1,6}\s+` (flags `gm`) at `p`, if there is one. */
  function HeadingMarkerEnd(s: string, p: nat): (r: Option<nat>)
    requires p <= |s|
    ensures r.Some? ==> p < r.value <= |s|
  {
    if !AtLineStart(s, p) then None
    else
      var k := RunLength(s[p..], '#');
      if 1 <= k <= 6 && p + k < |s| && IsSpace(s[p + k]) then
        Some(p + k + |s[p + k..]| - |TrimStart(s[p + k..])|)
      else None
  }

  /** `.replace(/^#{1,6}\s+/gm, (match) => `\n${match}`)`, scanning from `p`. */
  function AddHeadingBreaks(s: string, p: nat): (r: string)
    requires p <= |s|
    decreases |s| - p
  {
    if p == |s| then []
    else match HeadingMarkerEnd(s, p)
      case Some(e) => "\n" + s[p..e] + AddHeadingBreaks(s, e)
      case None => [s[p]] + AddHeadingBreaks(s, p + 1)
  }

  /** The characters of `s` other than newlines, in order. */
  function WithoutNewlines(s: string): string {
    if s == [] then [] else (if s[0] == '\n' then [] else [s[0]]) + WithoutNewlines(s[1..])
  }

  lemma {:induction false} WithoutNewlinesAppend(a: string, b: string)
    ensures WithoutNewlines(a + b) == WithoutNewlines(a) + WithoutNewlines(b)
  {
    if a != [] {
      WithoutNewlinesAppend(a[1..], b);
      assert (a + b)[1..] == a[1..] + b;
    } else {
      assert a + b == b;
    }
  }

  /** The heading pass only inserts newlines: everything else is kept, in order. */
  lemma {:induction false} AddHeadingBreaksOnlyInsertsNewlines(s: string, p: nat)
    requires p <= |s|
    ensures WithoutNewlines(AddHeadingBreaks(s, p)) == WithoutNewlines(s[p..])
    ensures |AddHeadingBreaks(s, p)| >= |s| - p
    decreases |s| - p
  {
    if p < |s| {
      var m := HeadingMarkerEnd(s, p);
      if m.Some? {
        var e := m.value;
        var rest := AddHeadingBreaks(s, e);
        assert AddHeadingBreaks(s, p) == "\n" + s[p..e] + rest;
        AddHeadingBreaksOnlyInsertsNewlines(s, e);
        KeptAroundBreak(s[p..e], rest, s[e..]);
        assert s[p..] == s[p..e] + s[e..];
      } else {
        var rest := AddHeadingBreaks(s, p + 1);
        assert AddHeadingBreaks(s, p) == [s[p]] + rest;
        AddHeadingBreaksOnlyInsertsNewlines(s, p + 1);
        WithoutNewlinesAppend([s[p]], rest);
        WithoutNewlinesAppend([s[p]], s[p + 1..]);
        assert s[p..] == [s[p]] + s[p + 1..];
      }
    }
  }

  /** A newline inserted before a kept piece disappears from `WithoutNewlines`. */
  lemma KeptAroundBreak(piece: string, rest: string, orig: string)
    requires WithoutNewlines(rest) == WithoutNewlines(orig)
    ensures WithoutNewlines("\n" + piece + rest) == WithoutNewlines(piece + orig)
  {
    WithoutNewlinesAppend("\n" + piece, rest);
    WithoutNewlinesAppend("\n", piece);
    WithoutNewlinesAppend(piece, orig);
  }

  /** `formatMarkdownContent` */
  function FormatMarkdownContent(content: string): string {
    var limited := LimitNewlines(content);
    Trim(AddHeadingBreaks(limited, 0))
  }

  /** The formatted text is trimmed and keeps every non-newline character of the limited text in order. */
  lemma FormatMarkdownContentShape(content: string)
    ensures Trimmed(FormatMarkdownContent(content))
    ensures NoTripleNewline(LimitNewlines(content))
    ensures WithoutNewlines(AddHeadingBreaks(LimitNewlines(content), 0)) == WithoutNewlines(LimitNewlines(content))
  {
    TrimShape(AddHeadingBreaks(LimitNewlines(content), 0));
    LimitNewlinesBound(content);
    AddHeadingBreaksOnlyInsertsNewlines(LimitNewlines(content), 0);
    assert LimitNewlines(content)[0..] == LimitNewlines(content);
  }

  /** The example text has no run of three newlines, so the limit keeps it. */
  lemma LimitKeepsExample(s: string)
    requires s == "a\n\n# b"
    ensures LimitNewlines(s) == s
  {
    var u := s[1..];
    assert u[0] == '\n' && u[1] == '\n' && u[2] == '#';
    assert RunLength(u, '\n') == 2;
    var w := u[2..];
    assert LimitNewlines(w[2..]) == w[2..];
    assert LimitNewlines(w[1..]) == w[1..];
    assert LimitNewlines(w) == w;
    assert u == u[..2] + w;
  }

  /** The heading pass puts a newline in front of the example's heading marker. */
  lemma HeadingBreaksOfExample(s: string)
    requires s == "a\n\n# b"
    ensures AddHeadingBreaks(s, 0) == "a\n\n\n# b"
  {
    assert HeadingMarkerEnd(s, 5) == None;
    assert AddHeadingBreaks(s, 5) == s[5..];
    assert s[3..][0] == '#' && s[3..][1] == ' ';
    assert RunLength(s[3..], '#') == 1;
    var t := s[4..];
    assert IsSpace(t[0]) && !IsSpace(t[1]);
    assert SpacesFrom(t, 0) == 1;
    assert TrimStart(t) == s[5..];
    assert HeadingMarkerEnd(s, 3) == Some(5);
    assert AddHeadingBreaks(s, 3) == "\n" + s[3..];
    assert HeadingMarkerEnd(s, 2) == None;
    assert AddHeadingBreaks(s, 2) == [s[2]] + AddHeadingBreaks(s, 3);
    assert HeadingMarkerEnd(s, 1) == None;
    assert AddHeadingBreaks(s, 1) == [s[1]] + AddHeadingBreaks(s, 2);
    assert HeadingMarkerEnd(s, 0) == None;
    assert AddHeadingBreaks(s, 0) == [s[0]] + AddHeadingBreaks(s, 1);
  }

  /**
   * The heading pass runs after the newline limit, so it can bring a triple
   * newline back: a blank line before a heading becomes two.
   */
  lemma HeadingBreakRestoresTripleNewline(s: string)
    requires s == "a\n\n# b"
    ensures FormatMarkdownContent(s) == "a\n\n\n# b"
    ensures !NoTripleNewline(FormatMarkdownContent(s))
  {
    LimitKeepsExample(s);
    HeadingBreaksOfExample(s);
    var broken := AddHeadingBreaks(s, 0);
    assert Trimmed(broken);
    TrimNoop(broken);
    var r := FormatMarkdownContent(s);
    assert r[1] == '\n' && r[2] == '\n' && r[3] == '\n';
  }

  // ---------------------------------------------------------------------------
  // validateContent

  const TITLE_REQUIRED := "Content title is required"
  const CONTENT_TOO_SHORT := "Content must be at least 50 characters long"
  const INVALID_URL := "Invalid URL format"

  /** Position of each message in the order the validator checks. */
  function ErrorRank(e: string): nat {
    if e == TITLE_REQUIRED then 0 else if e == CONTENT_TOO_SHORT then 1 else 2
  }

  datatype Validation = Validation(isValid: bool, errors: seq<string>)

  /** The messages of the failed checks, in the order the validator runs them. */
  function Messages(titleMissing: bool, tooShort: bool, badUrl: bool): (errors: seq<string>)
    ensures |errors| <= 3
    ensures TITLE_REQUIRED in errors <==> titleMissing
    ensures CONTENT_TOO_SHORT in errors <==> tooShort
    ensures INVALID_URL in errors <==> badUrl
    ensures errors == [] <==> !titleMissing && !tooShort && !badUrl
    ensures forall i, j :: 0 <= i < j < |errors| ==> ErrorRank(errors[i]) < ErrorRank(errors[j])
  {
    Push(Push(Push([], titleMissing, TITLE_REQUIRED), tooShort, CONTENT_TOO_SHORT), badUrl, INVALID_URL)
  }

  /** `if (failed) errors.push(message)` */
  function Push(errors: seq<string>, failed: bool, message: string): seq<string> {
    if failed then errors + [message] else errors
  }

  /**
   * `validateContent`, with `isValidUrl` as the predicate `validUrl`: each
   * failed check appends its message, in the order title, content length, URL.
   */
  method ValidateContent(content: ExtractedContent, validUrl: string -> bool) returns (v: Validation)
    ensures v.errors == Messages(Trim(content.title) == "", |Trim(content.content)| < 50,
      Present(content.url) && !validUrl(content.url.value))
    ensures v.isValid <==> v.errors == []
    ensures |v.errors| <= 3
    ensures TITLE_REQUIRED in v.errors <==> Trim(content.title) == ""
    ensures CONTENT_TOO_SHORT in v.errors <==> |Trim(content.content)| < 50
    ensures INVALID_URL in v.errors <==> Present(content.url) && !validUrl(content.url.value)
    ensures forall i, j :: 0 <= i < j < |v.errors| ==> ErrorRank(v.errors[i]) < ErrorRank(v.errors[j])
  {
    var titleMissing := content.title == "" || |Trim(content.title)| == 0;
    var tooShort := content.content == "" || |Trim(content.content)| < 50;
    var badUrl := Present(content.url) && !validUrl(content.url.value);
    var errors: seq<string> := [];
    if titleMissing {
      errors := errors + [TITLE_REQUIRED];
    }
    assert errors == Push([], titleMissing, TITLE_REQUIRED);
    ghost var e1 := errors;
    if tooShort {
      errors := errors + [CONTENT_TOO_SHORT];
    }
    assert errors == Push(e1, tooShort, CONTENT_TOO_SHORT);
    ghost var e2 := errors;
    if badUrl {
      errors := errors + [INVALID_URL];
    }
    assert errors == Push(e2, badUrl, INVALID_URL);
    assert titleMissing == (Trim(content.title) == "");
    assert tooShort == (|Trim(content.content)| < 50);
    v := Validation(|errors| == 0, errors);
  }
}
