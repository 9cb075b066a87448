/**
 * The outline of a Markdown text (src/lib/content-utils.ts,
 * `generateTableOfContents` and `buildHierarchicalTOC`).
 *
 * The scan repeats `exec` of `^(#{1,6})\s+(.+)$` with the flags `g` and `m`:
 * each search starts where the previous match ended and finds the leftmost
 * match from there. Matching follows the regular expression's backtracking
 * order: the hash run is taken whole, `\s+` as long as `(.+)` can still match
 * one character that is not a line terminator, and `(.+)` up to the end of
 * its line. `\s` includes line terminators, so the white space after the
 * hashes may run over into the following lines.
 */
module TableOfContents {
  import opened Wrappers
  import opened Strings
  import opened Types

  // ---------------------------------------------------------------------------
  // One match of the heading pattern

  /** A match: where it starts, the length of the first group, and where the second group starts and the match ends. */
  datatype HeadingMatch = HeadingMatch(start: nat, level: nat, textStart: nat, end: nat)

  /** The positions of a match lie in order inside `s`. */
  predicate Inside(s: string, m: HeadingMatch) {
    m.start < m.textStart < m.end <= |s|
  }

  /** The number of `#` from `p` on. */
  function HashRun(s: string, p: nat): (n: nat)
    requires p <= |s|
    ensures p + n <= |s|
    ensures p + n < |s| ==> s[p + n] != '#'
    decreases |s| - p
  {
    if p == |s| || s[p] != '#' then 0 else 1 + HashRun(s, p + 1)
  }

  lemma {:induction false} HashRunFacts(s: string, p: nat)
    requires p <= |s|
    ensures forall k :: p <= k < p + HashRun(s, p) ==> s[k] == '#'
    decreases |s| - p
  {
    if p < |s| && s[p] == '#' {
      HashRunFacts(s, p + 1);
    }
  }

  /** The last index in `[lo, hi)` that does not hold a line terminator. */
  function LastOnLine(s: string, lo: nat, hi: nat): (r: Option<nat>)
    requires lo <= hi <= |s|
    ensures r.Some? ==> lo <= r.value < hi && !IsLineTerminator(s[r.value])
    decreases hi
  {
    if hi == lo then None
    else if !IsLineTerminator(s[hi - 1]) then Some(hi - 1)
    else LastOnLine(s, lo, hi - 1)
  }

  lemma {:induction false} LastOnLineFacts(s: string, lo: nat, hi: nat)
    requires lo <= hi <= |s|
    ensures var r := LastOnLine(s, lo, hi);
      (r.Some? ==> forall k :: r.value < k < hi ==> IsLineTerminator(s[k])) &&
      (r.None? ==> forall k :: lo <= k < hi ==> IsLineTerminator(s[k]))
    decreases hi
  {
    if hi > lo && IsLineTerminator(s[hi - 1]) {
      LastOnLineFacts(s, lo, hi - 1);
    }
  }

  /**
   * Where `\s+(.+)` tried at `q` starts its group: right after the
   * white-space run if the text goes on, otherwise at the last character of
   * the run that is not a line terminator (`\s+` gives characters back).
   */
  function TextStart(s: string, q: nat): (r: Option<nat>)
    requires q <= |s|
    ensures r.Some? ==> q < r.value < |s| && !IsLineTerminator(s[r.value])
  {
    var w := SpacesFrom(s, q);
    if w == 0 then None
    else if q + w < |s| then
      assert !IsLineTerminator(s[q + w]) by { assert !IsSpace(s[q + w]); }
      Some(q + w)
    else LastOnLine(s, q + 1, q + w)
  }

  /**
   * The match `exec` reports when it tries position `p`: a line start, a
   * whole run of one to six hashes, then the white space and the text.
   */
  function HeadingAt(s: string, p: nat): (r: Option<HeadingMatch>)
    ensures r.Some? ==> r.value.start == p && 1 <= r.value.level <= 6 && Inside(s, r.value)
    ensures r.Some? ==> p + r.value.level < r.value.textStart
  {
    if p >= |s| || !AtLineStart(s, p) then None
    else
      var k := HashRun(s, p);
      if k < 1 || 6 < k then None
      else match TextStart(s, p + k)
        case None => None
        case Some(j) => Some(HeadingMatch(p, k, j, LineEnd(s, j)))
  }

  /**
   * `s[p..e]` matches `^(#{1,6})\s+(.+)$` (flag `m`) along some path of the
   * regular expression, with `k` characters in the first group and the
   * second group starting at `j`.
   */
  predicate HeadingMatchAt(s: string, p: nat, k: nat, j: nat, e: nat) {
    AtLineStart(s, p) && 1 <= k <= 6 && p + k < j < e <= |s| &&
    (forall i :: p <= i < p + k ==> s[i] == '#') &&
    (forall i :: p + k <= i < j ==> IsSpace(s[i])) &&
    (forall i :: j <= i < e ==> !IsLineTerminator(s[i])) &&
    (e == |s| || IsLineTerminator(s[e]))
  }

  /** What `HeadingAt` reports is a match of the pattern. */
  lemma HeadingAtSound(s: string, p: nat)
    requires HeadingAt(s, p).Some?
    ensures var m := HeadingAt(s, p).value; HeadingMatchAt(s, p, m.level, m.textStart, m.end)
  {
    var m := HeadingAt(s, p).value;
    var q := p + m.level;
    HashRunFacts(s, p);
    SpacesFromFacts(s, q);
    var w := SpacesFrom(s, q);
    if q + w == |s| {
      LastOnLineFacts(s, q + 1, q + w);
    }
    LineEndFacts(s, m.textStart);
  }

  /**
   * Whenever the pattern matches at `p`, `HeadingAt` reports a match there:
   * with the same hash count, its second group starting no earlier (the
   * greedy `\s+`), and running to the same end when it starts at the same
   * place.
   */
  lemma HeadingAtComplete(s: string, p: nat, k: nat, j: nat, e: nat)
    requires HeadingMatchAt(s, p, k, j, e)
    ensures HeadingAt(s, p).Some?
    ensures var m := HeadingAt(s, p).value;
      m.level == k && j <= m.textStart && (m.textStart == j ==> m.end == e)
  {
    assert IsSpace(s[p + k]);
    HashRunFacts(s, p);
    HashRunExact(s, p, k);
    var q := p + k;
    var w := SpacesFrom(s, q);
    SpacesFromAtLeast(s, q, j);
    if q + w == |s| {
      LastOnLineAtLeast(s, q + 1, q + w, j);
    }
    var m := HeadingAt(s, p).value;
    if m.textStart == j {
      LineEndUnique(s, j, e);
    }
  }

  lemma HashRunExact(s: string, p: nat, k: nat)
    requires p + k < |s| && s[p + k] != '#'
    requires forall i :: p <= i < p + k ==> s[i] == '#'
    ensures HashRun(s, p) == k
    decreases k
  {
    if k > 0 {
      HashRunExact(s, p + 1, k - 1);
    }
  }

  lemma LastOnLineAtLeast(s: string, lo: nat, hi: nat, j: nat)
    requires lo <= j < hi <= |s| && !IsLineTerminator(s[j])
    ensures LastOnLine(s, lo, hi).Some? && LastOnLine(s, lo, hi).value >= j
    decreases hi
  {
    if hi - 1 > j && IsLineTerminator(s[hi - 1]) {
      LastOnLineAtLeast(s, lo, hi - 1, j);
    }
  }

  /** Seven or more hashes, or no white space after them, never start a heading. */
  lemma NoHeadingWithoutMarker(s: string, p: nat)
    requires p < |s|
    requires HashRun(s, p) > 6 || !(p + HashRun(s, p) < |s| && IsSpace(s[p + HashRun(s, p)]))
    ensures HeadingAt(s, p).None?
  {
  }

  // ---------------------------------------------------------------------------
  // The `while ((match = headingRegex.exec(content)) !== null)` scan

  /** `exec` from `lastIndex == from`: the leftmost match starting at or after `from`. */
  function NextHeading(s: string, from: nat): (r: Option<HeadingMatch>)
    ensures r.Some? ==> from <= r.value.start && Inside(s, r.value) && 1 <= r.value.level <= 6
    decreases |s| - from
  {
    if from >= |s| then None
    else match HeadingAt(s, from)
      case Some(m) => Some(m)
      case None => NextHeading(s, from + 1)
  }

  /** A match `NextHeading` reports is the one at its start, and no earlier position from `from` on has one. */
  lemma {:induction false} NextHeadingLeftmost(s: string, from: nat)
    requires NextHeading(s, from).Some?
    ensures var m := NextHeading(s, from).value;
      HeadingAt(s, m.start) == Some(m) && forall p :: from <= p < m.start ==> HeadingAt(s, p).None?
    decreases |s| - from
  {
    if HeadingAt(s, from).None? {
      NextHeadingLeftmost(s, from + 1);
    }
  }

  /** When `NextHeading` finds nothing, no position from `from` on starts a match. */
  lemma {:induction false} NextHeadingNone(s: string, from: nat)
    requires NextHeading(s, from).None?
    ensures forall p :: from <= p ==> HeadingAt(s, p).None?
    decreases |s| - from
  {
    if from < |s| {
      NextHeadingNone(s, from + 1);
    }
  }

  /** The entry for a match, numbered `n` (`heading-${++idCounter}`), its title the trimmed second group. */
  function Entry(s: string, m: HeadingMatch, n: nat): TOCItem
    requires Inside(s, m)
  {
    TOCItem("heading-" + NatToString(n), Trim(s[m.textStart..m.end]), m.level, NoChildren)
  }

  /** The successive matches the scan finds from `lastIndex == from` on. */
  function Matches(s: string, from: nat): (ms: seq<HeadingMatch>)
    ensures forall i :: 0 <= i < |ms| ==> Inside(s, ms[i]) && 1 <= ms[i].level <= 6
    decreases |s| - from
  {
    match NextHeading(s, from)
    case None => []
    case Some(m) => [m] + Matches(s, m.end)
  }

  /** The entries for `ms`, numbered from `n`. */
  function Entries(s: string, ms: seq<HeadingMatch>, n: nat): (es: seq<TOCItem>)
    requires forall i :: 0 <= i < |ms| ==> Inside(s, ms[i])
    ensures |es| == |ms|
  {
    seq(|ms|, i requires 0 <= i < |ms| => Entry(s, ms[i], n + i))
  }

  /** Numbering one more match continues the list. */
  lemma EntriesSnoc(s: string, ms: seq<HeadingMatch>, m: HeadingMatch, n: nat)
    requires forall i :: 0 <= i < |ms| ==> Inside(s, ms[i])
    requires Inside(s, m)
    ensures forall i :: 0 <= i < |ms + [m]| ==> Inside(s, (ms + [m])[i])
    ensures Entries(s, ms + [m], n) == Entries(s, ms, n) + [Entry(s, m, n + |ms|)]
  {
    var a := Entries(s, ms + [m], n);
    var b := Entries(s, ms, n) + [Entry(s, m, n + |ms|)];
    forall i | 0 <= i < |a|
      ensures a[i] == b[i]
    {
      if i < |ms| {
        assert (ms + [m])[i] == ms[i];
      }
    }
  }

  /** The entries the scan collects from `lastIndex == from` on, numbered from `n`. */
  function Toc(s: string, from: nat, n: nat): (es: seq<TOCItem>) {
    Entries(s, Matches(s, from), n)
  }

  /** The flat list `generateTableOfContents` collects before building the tree. */
  function FlatToc(content: string): seq<TOCItem> {
    Toc(content, 0, 1)
  }

  /** The loop of `generateTableOfContents` that collects the flat list. */
  method CollectHeadings(content: string) returns (headings: seq<TOCItem>)
    ensures headings == FlatToc(content)
  {
    headings := [];
    var idCounter := 0;
    var lastIndex := 0;
    var found := NextHeading(content, lastIndex);
    ghost var done: seq<HeadingMatch> := [];
    EmptyConcat(Matches(content, 0));
    while found.Some?
      invariant found == NextHeading(content, lastIndex)
      invariant done + Matches(content, lastIndex) == Matches(content, 0)
      invariant |done| == idCounter
      invariant forall k :: 0 <= k < |done| ==> Inside(content, done[k])
      invariant headings == Entries(content, done, 1)
      decreases |content| - lastIndex
    {
      var m := found.value;
      ConcatAssoc(done, [m], Matches(content, m.end));
      EntriesSnoc(content, done, m, 1);
      done := done + [m];
      idCounter := idCounter + 1;
      headings := headings + [Entry(content, m, idCounter)];
      lastIndex := m.end;
      found := NextHeading(content, lastIndex);
    }
    assert done == Matches(content, 0);
  }

  // ---------------------------------------------------------------------------
  // `buildHierarchicalTOC`

  /** `{ ...item, children: [] }`. */
  function Fresh(item: TOCItem): TOCItem {
    item.(children := Children([]))
  }

  /** An entry without its children: what a heading contributes by itself. */
  function Label(item: TOCItem): TOCItem {
    item.(children := NoChildren)
  }

  function Labels(items: seq<TOCItem>): (ls: seq<TOCItem>)
    ensures |ls| == |items|
  {
    if items == [] then [] else Labels(items[..|items| - 1]) + [Label(items[|items| - 1])]
  }

  /**
   * Where a new entry goes: under the last root when that root has a lower
   * level, recursively among its children; otherwise after the roots.
   */
  function Insert(forest: seq<TOCItem>, x: TOCItem): seq<TOCItem> {
    if forest == [] || forest[|forest| - 1].level >= x.level then forest + [x]
    else
      var last := forest[|forest| - 1];
      match last.children
      case NoChildren => forest[..|forest| - 1] + [last.(children := Children([x]))]
      case Children(items) => forest[..|forest| - 1] + [last.(children := Children(Insert(items, x)))]
  }

  /** The outline of a flat list: each entry inserted in turn. */
  function Hierarchy(flat: seq<TOCItem>): seq<TOCItem> {
    if flat == [] then [] else Insert(Hierarchy(flat[..|flat| - 1]), Fresh(flat[|flat| - 1]))
  }

  /** The levels along the path of last entries: what the loop keeps on its `stack`. */
  function Spine(forest: seq<TOCItem>): seq<int> {
    if forest == [] then []
    else
      var last := forest[|forest| - 1];
      [last.level] + match last.children
        case NoChildren => []
        case Children(items) => Spine(items)
  }

  predicate Increasing(levels: seq<int>) {
    forall i, j :: 0 <= i < j < |levels| ==> levels[i] < levels[j]
  }

  /** How many levels at the front of `levels` are below `level`. */
  function Depth(levels: seq<int>, level: int): (d: nat)
    ensures d <= |levels|
    ensures d < |levels| ==> levels[d] >= level
  {
    if levels == [] || levels[0] >= level then 0 else 1 + Depth(levels[1..], level)
  }

  lemma {:induction false} DepthFacts(levels: seq<int>, level: int)
    ensures forall k :: 0 <= k < Depth(levels, level) ==> levels[k] < level
  {
    if levels != [] && levels[0] < level {
      DepthFacts(levels[1..], level);
    }
  }

  /**
   * `x` appended to the children of the entry `d` steps down the spine
   * (`parent.children.push(newItem)`), or to the roots when `d == 0`.
   */
  function AppendUnder(forest: seq<TOCItem>, d: nat, x: TOCItem): seq<TOCItem>
    requires d <= |Spine(forest)|
  {
    if d == 0 then forest + [x]
    else
      var last := forest[|forest| - 1];
      match last.children
      case NoChildren => forest[..|forest| - 1] + [last.(children := Children([x]))]
      case Children(items) => forest[..|forest| - 1] + [last.(children := Children(AppendUnder(items, d - 1, x)))]
  }

  /** Descending while the level is lower is appending under the spine entry `Depth` picks. */
  lemma {:induction false} InsertIsAppendUnder(forest: seq<TOCItem>, x: TOCItem)
    ensures Insert(forest, x) == AppendUnder(forest, Depth(Spine(forest), x.level), x)
  {
    if forest != [] && forest[|forest| - 1].level < x.level {
      var last := forest[|forest| - 1];
      match last.children
      case NoChildren =>
        assert Depth(Spine(forest), x.level) == 1;
      case Children(items) =>
        InsertIsAppendUnder(items, x);
        InsertUnderLast(forest, x, items);
    }
  }

  /** The step of `InsertIsAppendUnder` that descends into the children of the last root. */
  lemma InsertUnderLast(forest: seq<TOCItem>, x: TOCItem, items: seq<TOCItem>)
    requires forest != [] && forest[|forest| - 1].level < x.level
    requires forest[|forest| - 1].children == Children(items)
    requires Insert(items, x) == AppendUnder(items, Depth(Spine(items), x.level), x)
    ensures Insert(forest, x) == AppendUnder(forest, Depth(Spine(forest), x.level), x)
  {
    var last := forest[|forest| - 1];
    var sp := Spine(forest);
    assert sp == [last.level] + Spine(items);
    assert sp[1..] == Spine(items);
    var d := Depth(Spine(items), x.level);
    assert Depth(sp, x.level) == 1 + d;
  }

  /** The spine of a forest ending in `t` starts with the level of `t`. */
  lemma SpineSnoc(pre: seq<TOCItem>, t: TOCItem)
    ensures Spine(pre + [t]) == [t.level] + match t.children
      case NoChildren => []
      case Children(items) => Spine(items)
  {
    var f := pre + [t];
    assert f[|f| - 1] == t;
  }

  /** Appending a childless-so-far entry cuts the spine at `d` and ends it with the new level. */
  lemma {:induction false} SpineAfterAppend(forest: seq<TOCItem>, d: nat, x: TOCItem)
    requires d <= |Spine(forest)|
    requires x.children == Children([])
    ensures Spine(AppendUnder(forest, d, x)) == Spine(forest)[..d] + [x.level]
  {
    if d == 0 {
      SpineSnoc(forest, x);
    } else {
      var last := forest[|forest| - 1];
      var pre := forest[..|forest| - 1];
      match last.children
      case NoChildren =>
        SpineSnoc(pre, last.(children := Children([x])));
        SpineSnoc([], x);
      case Children(items) =>
        var sub := Spine(items);
        assert forest == pre + [last];
        SpineSnoc(pre, last);
        SpineAfterAppend(items, d - 1, x);
        var last' := last.(children := Children(AppendUnder(items, d - 1, x)));
        assert AppendUnder(forest, d, x) == pre + [last'];
        SpineSnoc(pre, last');
        ConsTake(last.level, sub, d - 1);
        ConcatAssoc([last.level], sub[..d - 1], [x.level]);
    }
  }

  /** Cutting an increasing spine below `level` and ending it with `level` keeps it increasing. */
  lemma IncreasingCut(levels: seq<int>, level: int)
    requires Increasing(levels)
    ensures Increasing(levels[..Depth(levels, level)] + [level])
  {
    DepthFacts(levels, level);
  }

  /** Inserting an entry makes it the end of the spine, below the spine entries of lower level. */
  lemma InsertSpine(forest: seq<TOCItem>, x: TOCItem)
    requires Increasing(Spine(forest))
    requires x.children == Children([])
    ensures Spine(Insert(forest, x)) == Spine(forest)[..Depth(Spine(forest), x.level)] + [x.level]
    ensures Increasing(Spine(Insert(forest, x)))
  {
    InsertIsAppendUnder(forest, x);
    SpineAfterAppend(forest, Depth(Spine(forest), x.level), x);
    IncreasingCut(Spine(forest), x.level);
  }

  /** Along the path of last entries of an outline, levels strictly increase. */
  lemma {:induction false} HierarchySpine(flat: seq<TOCItem>)
    ensures Increasing(Spine(Hierarchy(flat)))
  {
    if flat != [] {
      HierarchySpine(flat[..|flat| - 1]);
      InsertSpine(Hierarchy(flat[..|flat| - 1]), Fresh(flat[|flat| - 1]));
    }
  }

  /** Popping an increasing stack while its top is not below `level` leaves `Depth` entries. */
  lemma DepthAtExit(levels: seq<int>, level: int, n: nat)
    requires Increasing(levels)
    requires Depth(levels, level) <= n <= |levels|
    requires n == 0 || levels[n - 1] < level
    ensures n == Depth(levels, level)
  {
  }

  /** A top entry that is not below `level` lies at or beyond `Depth`. */
  lemma PopKeepsDepth(levels: seq<int>, level: int, n: nat)
    requires Depth(levels, level) <= n <= |levels|
    requires 0 < n && levels[n - 1] >= level
    ensures Depth(levels, level) <= n - 1
  {
    DepthFacts(levels, level);
  }

  lemma HierarchySnoc(flat: seq<TOCItem>, i: nat)
    requires i < |flat|
    ensures Hierarchy(flat[..i + 1]) == Insert(Hierarchy(flat[..i]), Fresh(flat[i]))
  {
    assert flat[..i + 1][..i] == flat[..i];
  }

  /** The inner loop of `buildHierarchicalTOC`: pop while the top level is not below the new one. */
  method PopWhileNotBelow(stack: seq<int>, level: int) returns (kept: seq<int>)
    requires Increasing(stack)
    ensures kept == stack[..Depth(stack, level)]
  {
    kept := stack;
    while |kept| > 0 && kept[|kept| - 1] >= level
      invariant Depth(stack, level) <= |kept| <= |stack| && kept == stack[..|kept|]
      decreases |kept|
    {
      PopKeepsDepth(stack, level, |kept|);
      kept := kept[..|kept| - 1];
    }
    DepthAtExit(stack, level, |kept|);
  }

  /**
   * `buildHierarchicalTOC`. The loop keeps the levels of the entries on its
   * stack; the entry on top of the stack after popping is the one `d` steps
   * down the path of last entries, which is where the new item is pushed.
   */
  method BuildHierarchicalToc(flat: seq<TOCItem>) returns (result: seq<TOCItem>)
    ensures result == Hierarchy(flat)
  {
    result := [];
    var stack: seq<int> := [];
    for i := 0 to |flat|
      invariant result == Hierarchy(flat[..i])
      invariant stack == Spine(result) && Increasing(stack)
    {
      var item := flat[i];
      stack := PopWhileNotBelow(stack, item.level);
      var newItem := item.(children := Children([]));
      ghost var before := result;
      if |stack| == 0 {
        result := result + [newItem];
      } else {
        result := AppendUnder(result, |stack|, newItem);
      }
      InsertIsAppendUnder(before, newItem);
      HierarchySnoc(flat, i);
      InsertSpine(before, newItem);
      stack := stack + [newItem.level];
      assert stack == Spine(result);
    }
    assert flat[..|flat|] == flat;
  }

  // ---------------------------------------------------------------------------
  // What the outline is

  /** The entries of an outline in document order (parents before their children), without their children. */
  function Preorder(forest: seq<TOCItem>): seq<TOCItem> {
    if forest == [] then []
    else
      var last := forest[|forest| - 1];
      Preorder(forest[..|forest| - 1]) + [Label(last)] + match last.children
        case NoChildren => []
        case Children(items) => Preorder(items)
  }

  lemma PreorderSnoc(pre: seq<TOCItem>, t: TOCItem)
    ensures Preorder(pre + [t]) == Preorder(pre) + [Label(t)] + match t.children
      case NoChildren => []
      case Children(items) => Preorder(items)
  {
    var f := pre + [t];
    assert f[..|f| - 1] == pre && f[|f| - 1] == t;
  }

  /** Inserting a childless entry adds it at the end of the document order. */
  lemma {:induction false} PreorderInsert(forest: seq<TOCItem>, x: TOCItem)
    requires x.children == Children([])
    ensures Preorder(Insert(forest, x)) == Preorder(forest) + [Label(x)]
  {
    if forest == [] || forest[|forest| - 1].level >= x.level {
      PreorderSnoc(forest, x);
    } else {
      var last := forest[|forest| - 1];
      var pre := forest[..|forest| - 1];
      assert forest == pre + [last];
      PreorderSnoc(pre, last);
      match last.children
      case NoChildren =>
        PreorderSnoc(pre, last.(children := Children([x])));
        PreorderSnoc([], x);
      case Children(items) =>
        PreorderInsert(items, x);
        var last' := last.(children := Children(Insert(items, x)));
        assert Insert(forest, x) == pre + [last'];
        PreorderSnoc(pre, last');
    }
  }

  lemma LabelsSnoc(pre: seq<TOCItem>, t: TOCItem)
    ensures Labels(pre + [t]) == Labels(pre) + [Label(t)]
  {
    var f := pre + [t];
    assert f[..|f| - 1] == pre;
  }

  /** Every entry of the flat list appears in the outline exactly once, in the original order. */
  lemma {:induction false} HierarchyPreorder(flat: seq<TOCItem>)
    ensures Preorder(Hierarchy(flat)) == Labels(flat)
  {
    if flat != [] {
      var init := flat[..|flat| - 1];
      HierarchyPreorder(init);
      PreorderInsert(Hierarchy(init), Fresh(flat[|flat| - 1]));
      assert flat == init + [flat[|flat| - 1]];
      LabelsSnoc(init, flat[|flat| - 1]);
    }
  }

  /** All entries of `items` have a level above `level`. */
  predicate Deeper(items: seq<TOCItem>, level: int) {
    forall j :: 0 <= j < |items| ==> items[j].level > level
  }

  /** Every entry carries a list of children, and every child has a higher level than its parent. */
  predicate WellFormed(forest: seq<TOCItem>) {
    forest == [] ||
    (var last := forest[|forest| - 1];
     WellFormed(forest[..|forest| - 1]) &&
     match last.children
     case NoChildren => false
     case Children(items) => Deeper(items, last.level) && WellFormed(items))
  }

  lemma WellFormedSnoc(pre: seq<TOCItem>, t: TOCItem)
    ensures WellFormed(pre + [t]) <==> WellFormed(pre) && match t.children
      case NoChildren => false
      case Children(items) => Deeper(items, t.level) && WellFormed(items)
  {
    var f := pre + [t];
    assert f[..|f| - 1] == pre && f[|f| - 1] == t;
  }

  /** Insertion keeps the roots and their levels, possibly adding `x` after them. */
  lemma InsertRoots(forest: seq<TOCItem>, x: TOCItem)
    ensures var r := Insert(forest, x);
      (|r| == |forest| || (|r| == |forest| + 1 && r[|forest|] == x)) &&
      forall i :: 0 <= i < |forest| ==> r[i].level == forest[i].level
  {
  }

  /** Inserting a childless entry keeps an outline well formed. */
  lemma {:induction false} InsertWellFormed(forest: seq<TOCItem>, x: TOCItem)
    requires WellFormed(forest)
    requires x.children == Children([])
    ensures WellFormed(Insert(forest, x))
  {
    if forest == [] || forest[|forest| - 1].level >= x.level {
      WellFormedSnoc(forest, x);
      WellFormedSnoc([], x);
    } else {
      var last := forest[|forest| - 1];
      var pre := forest[..|forest| - 1];
      assert forest == pre + [last];
      WellFormedSnoc(pre, last);
      var items := last.children.items;
      InsertWellFormed(items, x);
      InsertRoots(items, x);
      var last' := last.(children := Children(Insert(items, x)));
      assert Insert(forest, x) == pre + [last'];
      WellFormedSnoc(pre, last');
    }
  }

  /** The outline `buildHierarchicalTOC` returns is well formed, whatever the levels. */
  lemma {:induction false} HierarchyWellFormed(flat: seq<TOCItem>)
    ensures WellFormed(Hierarchy(flat))
  {
    if flat != [] {
      HierarchyWellFormed(flat[..|flat| - 1]);
      InsertWellFormed(Hierarchy(flat[..|flat| - 1]), Fresh(flat[|flat| - 1]));
    }
  }

  /** The lowest level in a non-empty list. */
  function MinLevel(items: seq<TOCItem>): (m: int)
    requires items != []
    ensures forall i :: 0 <= i < |items| ==> m <= items[i].level
    ensures exists i :: 0 <= i < |items| && m == items[i].level
  {
    if |items| == 1 then items[0].level
    else
      var m := MinLevel(items[..|items| - 1]);
      if items[|items| - 1].level < m then items[|items| - 1].level else m
  }

  /** The entries whose level is not above any earlier one's: the ones the loop leaves with an empty stack. */
  function Minima(flat: seq<TOCItem>): seq<TOCItem> {
    if flat == [] then []
    else
      var init := flat[..|flat| - 1];
      var last := flat[|flat| - 1];
      Minima(init) + if init == [] || last.level <= MinLevel(init) then [Label(last)] else []
  }

  /** The last root of an outline has the lowest level seen so far. */
  lemma {:induction false} LastRootIsMinimal(flat: seq<TOCItem>)
    requires flat != []
    ensures var h := Hierarchy(flat); h != [] && h[|h| - 1].level == MinLevel(flat)
  {
    var init := flat[..|flat| - 1];
    var x := Fresh(flat[|flat| - 1]);
    if init != [] {
      LastRootIsMinimal(init);
      var h := Hierarchy(init);
      InsertRoots(h, x);
      assert init == flat[..|flat| - 1];
    }
  }

  /** The roots of the outline are exactly the entries no earlier entry lies above in level (a lower number). */
  lemma {:induction false} HierarchyRoots(flat: seq<TOCItem>)
    ensures Labels(Hierarchy(flat)) == Minima(flat)
  {
    if flat != [] {
      var init := flat[..|flat| - 1];
      var x := Fresh(flat[|flat| - 1]);
      HierarchyRoots(init);
      var h := Hierarchy(init);
      if init != [] {
        LastRootIsMinimal(init);
      }
      if h == [] || h[|h| - 1].level >= x.level {
        LabelsSnoc(h, x);
      } else {
        InsertKeepsLabels(h, x);
      }
    }
  }

  /** Inserting below the last root leaves the roots' labels as they were. */
  lemma InsertKeepsLabels(h: seq<TOCItem>, x: TOCItem)
    requires h != [] && h[|h| - 1].level < x.level
    ensures Labels(Insert(h, x)) == Labels(h)
  {
    var last := h[|h| - 1];
    var last' := Insert(h, x)[|h| - 1];
    assert Insert(h, x) == h[..|h| - 1] + [last'];
    assert h == h[..|h| - 1] + [last];
    LabelsSnoc(h[..|h| - 1], last);
    LabelsSnoc(h[..|h| - 1], last');
  }

  // ---------------------------------------------------------------------------
  // `generateTableOfContents`

  /** The outline of a Markdown text. */
  function Outline(content: string): seq<TOCItem> {
    Hierarchy(FlatToc(content))
  }

  /** The outline has a root exactly when the text has a heading. */
  lemma OutlineEmpty(content: string)
    ensures Outline(content) == [] <==> FlatToc(content) == []
  {
    var flat := FlatToc(content);
    if flat != [] {
      var pre := Hierarchy(flat[..|flat| - 1]);
      assert |Insert(pre, Fresh(flat[|flat| - 1]))| > 0;
    }
  }

  /** `generateTableOfContents`: collect the headings, then build the tree. */
  method GenerateTableOfContents(content: string) returns (toc: seq<TOCItem>)
    ensures toc == Outline(content)
  {
    var headings := CollectHeadings(content);
    toc := BuildHierarchicalToc(headings);
  }

  lemma EntryFacts(s: string, m: HeadingMatch, n: nat)
    requires Inside(s, m)
    ensures Trimmed(Entry(s, m, n).title) && Entry(s, m, n).children == NoChildren
  {
    TrimShape(s[m.textStart..m.end]);
  }

  /** The entry `i` of a scan numbered from `n` has the id `heading-(n + i)`. */
  lemma TocEntryId(s: string, from: nat, n: nat, i: nat)
    requires i < |Toc(s, from, n)|
    ensures Toc(s, from, n)[i].id == "heading-" + NatToString(n + i)
  {
  }

  /** Every entry has a level from 1 to 6, a trimmed title and no children. */
  lemma TocEntryShape(s: string, from: nat, n: nat, i: nat)
    requires i < |Toc(s, from, n)|
    ensures var e := Toc(s, from, n)[i]; 1 <= e.level <= 6 && Trimmed(e.title) && e.children == NoChildren
  {
    EntryFacts(s, Matches(s, from)[i], n + i);
  }

  /** The ids `heading-1`, `heading-2`, ... are given in order, so no two entries share one. */
  lemma FlatTocIds(content: string, i: nat, j: nat)
    requires i < j < |FlatToc(content)|
    ensures FlatToc(content)[i].id == "heading-" + NatToString(i + 1)
    ensures FlatToc(content)[i].id != FlatToc(content)[j].id
  {
    TocEntryId(content, 0, 1, i);
    TocEntryId(content, 0, 1, j);
    var a := NatToString(1 + i);
    var b := NatToString(1 + j);
    if "heading-" + a == "heading-" + b {
      assert ("heading-" + a)[8..] == a && ("heading-" + b)[8..] == b;
      NatToStringInjective(1 + i, 1 + j);
    }
  }

  /** The list is empty exactly when no position of the text starts a heading. */
  lemma FlatTocEmpty(content: string)
    ensures FlatToc(content) == [] <==> forall p: nat :: HeadingAt(content, p).None?
  {
    if NextHeading(content, 0).None? {
      NextHeadingNone(content, 0);
    } else {
      NextHeadingLeftmost(content, 0);
    }
  }

  /** A list of childless entries is its own list of labels. */
  lemma {:induction false} LabelsOfChildless(items: seq<TOCItem>)
    requires forall i :: 0 <= i < |items| ==> items[i].children == NoChildren
    ensures Labels(items) == items
  {
    if items != [] {
      LabelsOfChildless(items[..|items| - 1]);
      assert items == items[..|items| - 1] + [items[|items| - 1]];
    }
  }

  /** Reading the outline in document order gives back the flat list of headings; the outline is well formed. */
  lemma OutlinePreorder(content: string)
    ensures Preorder(Outline(content)) == FlatToc(content)
    ensures WellFormed(Outline(content))
  {
    var flat := FlatToc(content);
    forall i | 0 <= i < |flat|
      ensures flat[i].children == NoChildren
    {
      TocEntryShape(content, 0, 1, i);
    }
    LabelsOfChildless(flat);
    HierarchyPreorder(flat);
    HierarchyWellFormed(flat);
  }

  lemma LoneHashScan()
    ensures NextHeading("#\n# b", 0) == Some(HeadingMatch(0, 1, 2, 5))
    ensures NextHeading("#\n# b", 5) == None
  {
    var s := "#\n# b";
    assert HashRun(s, 0) == 1;
    assert SpacesFrom(s, 1) == 1;
    assert LineEnd(s, 2) == 5;
  }

  lemma LoneHashEntry()
    ensures Inside("#\n# b", HeadingMatch(0, 1, 2, 5))
    ensures Entry("#\n# b", HeadingMatch(0, 1, 2, 5), 1) == TOCItem("heading-1", "# b", 1, NoChildren)
  {
    var s := "#\n# b";
    assert s[2..5] == "# b";
    assert SpacesFrom("# b", 0) == 0;
    assert SpacesBefore("# b", 3) == 0;
    assert NatToString(1) == "1";
  }

  /** `\s+` runs over a line break: a lone `#` line followed by `# b` gives one level-1 heading titled `# b`. */
  lemma WhiteSpaceCrossesLines(s: string)
    requires s == "#\n# b"
    ensures FlatToc(s) == [TOCItem("heading-1", "# b", 1, NoChildren)]
  {
    var m := HeadingMatch(0, 1, 2, 5);
    LoneHashScan();
    assert Matches(s, 5) == [];
    assert Matches(s, 0) == [m];
    LoneHashEntry();
    assert Entries(s, [m], 1)[0] == Entry(s, m, 1);
  }
}
