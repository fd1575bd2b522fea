/** Keeping Baron's block inside a project's AGENTS.md (internal/project/agents.go). */
module ManagedAgents {
  import opened Text

  const START := "<!-- BARON:MANAGED:START"
  const END := "<!-- BARON:MANAGED:END -->"

  // ------------------------------------------------------------------- searching

  /** strings.Index from a position on. */
  function IndexFrom(s: string, sub: string, i: nat): (r: Option<nat>)
    ensures r.Some? ==> i <= r.value && OccursAt(s, sub, r.value) && forall j: nat :: i <= j < r.value ==>
              !OccursAt(s, sub, j)
    ensures r.None? ==> forall j: nat :: i <= j ==> !OccursAt(s, sub, j)
    decreases |s| - i
  {
    if i + |sub| > |s| then None
    else if OccursAt(s, sub, i) then Some(i)
    else IndexFrom(s, sub, i + 1)
  }

  /** strings.Count from a position on: occurrences that do not overlap. */
  function CountFrom(s: string, sub: string, i: nat): nat
    requires sub != ""
    decreases |s| - i
  {
    var at := IndexFrom(s, sub, i);
    if at.None? then 0 else 1 + CountFrom(s, sub, at.value + |sub|)
  }

  function Count(s: string, sub: string): nat
    requires sub != ""
  {
    CountFrom(s, sub, 0)
  }

  ghost predicate OnlyAt(s: string, sub: string, i: nat) {
    OccursAt(s, sub, i) && forall j: nat :: OccursAt(s, sub, j) ==> j == i
  }

  ghost predicate Nowhere(s: string, sub: string) { forall j: nat :: !OccursAt(s, sub, j) }

  /** A marker whose first character appears nowhere else in it: its occurrences
      cannot overlap. */
  ghost predicate Marker(sub: string) { sub != "" && forall k :: 0 < k < |sub| ==> sub[k] != sub[0] && sub[k] != '\n' }

  lemma OccursChar(s: string, sub: string, i: nat, k: nat)
    requires OccursAt(s, sub, i) && k < |sub|
    ensures s[i + k] == sub[k]
  {
  }

  lemma NoOverlap(s: string, sub: string, i: nat, j: nat)
    requires Marker(sub) && OccursAt(s, sub, i) && OccursAt(s, sub, j) && i < j
    ensures i + |sub| <= j
  {
    OccursChar(s, sub, j, 0);
    if j < i + |sub| { OccursChar(s, sub, i, j - i); }
  }

  lemma CountZero(s: string, sub: string)
    requires Marker(sub)
    ensures Count(s, sub) == 0 <==> Nowhere(s, sub)
  {
  }

  lemma CountOne(s: string, sub: string)
    requires Marker(sub)
    ensures Count(s, sub) == 1 <==> IndexFrom(s, sub, 0).Some? && OnlyAt(s, sub, IndexFrom(s, sub, 0).value)
  {
    var first := IndexFrom(s, sub, 0);
    if first.Some? {
      var next := IndexFrom(s, sub, first.value + |sub|);
      assert Count(s, sub) == 1 + CountFrom(s, sub, first.value + |sub|);
      if next.None? {
        assert Count(s, sub) == 1;
        forall j: nat | OccursAt(s, sub, j) ensures j == first.value {
          if j > first.value { NoOverlap(s, sub, first.value, j); }
        }
      }
    }
  }

  // --------------------------------------------------------------------- merging

  datatype Merge = Merged(text: string, changed: bool) | SeveralBlocks | IncompleteBlock | InvalidBlock

  /** strings.TrimRight(managed, "\r\n"). */
  function Block(managed: string): (r: string)
    ensures r <= managed
    ensures r != "" ==> r[|r| - 1] != '\r' && r[|r| - 1] != '\n'
    ensures managed != "" && managed[|managed| - 1] != '\r' && managed[|managed| - 1] != '\n' ==> r == managed
  {
    if managed != "" && (managed[|managed| - 1] == '\r' || managed[|managed| - 1] == '\n')
    then Block(managed[..|managed| - 1]) else managed
  }

  function Separator(existing: string): string { if HasSuffix(existing, "\n") then "\n" else "\n\n" }

  /** mergeManagedAgents. */
  function MergeManagedAgents(existing: string, managed: string): Merge {
    var block := Block(managed);
    var starts, ends := Count(existing, START), Count(existing, END);
    if starts > 1 || ends > 1 then SeveralBlocks
    else if starts != ends then IncompleteBlock
    else if starts == 0 then
      if Trim(existing) == "" then Merged(block + "\n", true)
      else Merged(existing + Separator(existing) + block + "\n", true)
    else
      var start, end := IndexFrom(existing, START, 0), IndexFrom(existing, END, 0);
      if start.None? || end.None? || end.value < start.value then InvalidBlock
      else
        var updated := existing[..start.value] + block + existing[end.value + |END|..];
        Merged(updated, updated != existing)
  }

  /** A template that is one block: it begins with the start marker, ends with
      the end marker, and has each of them once. */
  ghost predicate OneBlock(block: string) {
    && OnlyAt(block, START, 0) && |block| >= |START| + |END| && OnlyAt(block, END, |block| - |END|)
  }

  lemma Markers()
    ensures Marker(START) && Marker(END) && |START| < |END| && START[19] != END[19]
    ensures START[0] == END[0] == '<'
  {
  }

  /** No marker starts before a '<' or a line break and reaches past it. */
  lemma NoCrossing(before: string, after: string, sub: string, j: nat)
    requires Marker(sub) && sub[0] == '<' && OccursAt(before + after, sub, j)
    requires (before != "" && before[|before| - 1] == '\n') || (after != "" && (after[0] == '<' || after[0] == '\n'))
    ensures j + |sub| <= |before| || j >= |before|
  {
    var s := before + after;
    if j < |before| < j + |sub| {
      OccursChar(s, sub, j, |before| - j);
      if |before| - 1 >= j { OccursChar(s, sub, j, |before| - 1 - j); }
    }
  }

  lemma OccursInPart(before: string, after: string, sub: string, j: nat)
    ensures j + |sub| <= |before| ==> (OccursAt(before + after, sub, j) <==> OccursAt(before, sub, j))
    ensures j >= |before| ==> (OccursAt(before + after, sub, j) <==> OccursAt(after, sub, j - |before|))
  {
  }

  /** The end marker keeps its neighbours apart: nothing starts inside it. */
  lemma NothingStartsInEnd(s: string, sub: string, e: nat, j: nat)
    requires (sub == START || sub == END) && OccursAt(s, END, e) && OccursAt(s, sub, j)
    requires j < e + |END| < j + |sub| || (e <= j < e + |END|)
    ensures j == e && sub == END
  {
    Markers();
    OccursChar(s, sub, j, 0);
    OccursChar(s, sub, j, 19);
    OccursChar(s, END, e, 19);
    if j > e { OccursChar(s, END, e, j - e); }
  }

  lemma NowhereInPrefix(s: string, sub: string, n: nat)
    requires n <= |s| && sub != "" && forall j: nat :: OccursAt(s, sub, j) ==> j >= n
    ensures Nowhere(s[..n], sub)
  {
    forall j: nat | OccursAt(s[..n], sub, j) ensures false {
      assert s[..n] + s[n..] == s;
      OccursInPart(s[..n], s[n..], sub, j);
    }
  }

  lemma NowhereInSuffix(s: string, sub: string, n: nat)
    requires n <= |s| && forall j: nat :: OccursAt(s, sub, j) ==> j < n
    ensures Nowhere(s[n..], sub)
  {
    forall j: nat | OccursAt(s[n..], sub, j) ensures false {
      assert s[..n] + s[n..] == s;
      OccursInPart(s[..n], s[n..], sub, n + j);
    }
  }

  lemma NowhereInSum(a: string, b: string, sub: string)
    requires Marker(sub) && sub[0] == '<' && Nowhere(a, sub) && Nowhere(b, sub) && b != "" && b[0] == '\n'
    ensures Nowhere(a + b, sub)
  {
    forall j: nat | OccursAt(a + b, sub, j) ensures false {
      NoCrossing(a, b, sub, j);
      OccursInPart(a, b, sub, j);
    }
  }

  /** A block set between texts without markers is the only one. */
  lemma MarkerInContext(before: string, block: string, after: string, sub: string, k: nat)
    requires OneBlock(block) && (sub == START || sub == END) && OnlyAt(block, sub, k)
    requires Nowhere(before, sub) && Nowhere(after, sub)
    ensures OnlyAt(before + block + after, sub, |before| + k)
  {
    Markers();
    OccursChar(block, START, 0, 0);
    var front := before + block;
    var e := |front| - |END|;
    OccursInPart(before, block, sub, |before| + k);
    OccursInPart(before, block, END, e);
    OccursInPart(front, after, sub, |before| + k);
    OccursInPart(front, after, END, e);
    forall j: nat | OccursAt(front + after, sub, j) ensures j == |before| + k {
      if j < |front| < j + |sub| { NothingStartsInEnd(front + after, sub, e, j); }
      OccursInPart(front, after, sub, j);
      if j + |sub| <= |front| {
        NoCrossing(before, block, sub, j);
        OccursInPart(before, block, sub, j);
      }
    }
  }

  lemma OnlyAtIsIndex(s: string, sub: string, i: nat)
    requires OnlyAt(s, sub, i)
    ensures IndexFrom(s, sub, 0) == Some(i)
  {
  }

  /** Merging into a text that holds exactly this block finds nothing to do. */
  lemma BlockInContextIsFixed(before: string, after: string, managed: string)
    requires OneBlock(Block(managed))
    requires Nowhere(before, START) && Nowhere(before, END) && Nowhere(after, START) && Nowhere(after, END)
    ensures MergeManagedAgents(before + Block(managed) + after, managed)
              == Merged(before + Block(managed) + after, false)
  {
    hide CountFrom, IndexFrom, Nowhere, Block, OccursAt;
    var block := Block(managed);
    var s := before + block + after;
    Markers();
    MarkerInContext(before, block, after, START, 0);
    MarkerInContext(before, block, after, END, |block| - |END|);
    OnlyAtIsIndex(s, START, |before|);
    OnlyAtIsIndex(s, END, |before| + (|block| - |END|));
    CountOne(s, START);
    CountOne(s, END);
    assert s[..|before|] == before && s[|before| + |block|..] == after;
  }

  /** The text around the block, or all of it when there is none. */
  ghost function Outside(s: string): (string, string) {
    var start, end := IndexFrom(s, START, 0), IndexFrom(s, END, 0);
    if start.Some? && end.Some? && start.value <= end.value then (s[..start.value], s[end.value + |END|..]) else (s, "")
  }

  /** What a merge writes: the template's block between two marker-free texts. */
  lemma MergeShape(existing: string, managed: string) returns (before: string, after: string)
    requires MergeManagedAgents(existing, managed).Merged?
    ensures MergeManagedAgents(existing, managed).text == before + Block(managed) + after
    ensures Nowhere(before, START) && Nowhere(before, END) && Nowhere(after, START) && Nowhere(after, END)
    ensures Count(existing, START) == 1 ==> (before, after) == Outside(existing)
    ensures Count(existing, START) == 0 && Trim(existing) != "" ==>
              before == existing + Separator(existing) && after == "\n"
    ensures Count(existing, START) == 0 && Trim(existing) == "" ==> before == "" && after == "\n"
  {
    Markers();
    CountZero(existing, START);
    CountZero(existing, END);
    hide CountFrom, Trim, Block, Nowhere;
    if Count(existing, START) == 0 {
      after := "\n";
      before := if Trim(existing) == "" then "" else existing + Separator(existing);
      NowhereInBreaks(existing);
      NowhereInSum(existing, Separator(existing), START);
      NowhereInSum(existing, Separator(existing), END);
    } else {
      hide IndexFrom;
      var start, end := IndexFrom(existing, START, 0).value, IndexFrom(existing, END, 0).value;
      before, after := existing[..start], existing[end + |END|..];
      AroundMarkers(existing, start, end);
    }
  }

  lemma NowhereInBreaks(existing: string)
    ensures Nowhere("", START) && Nowhere("", END) && Nowhere("\n", START) && Nowhere("\n", END)
    ensures Nowhere(Separator(existing), START) && Nowhere(Separator(existing), END)
  {
  }

  lemma AroundMarkers(existing: string, start: nat, end: nat)
    requires Count(existing, START) == 1 && Count(existing, END) == 1 && start <= end
    requires IndexFrom(existing, START, 0) == Some(start) && IndexFrom(existing, END, 0) == Some(end)
    ensures start <= end + |END| <= |existing|
    ensures Nowhere(existing[..start], START) && Nowhere(existing[..start], END)
    ensures Nowhere(existing[end + |END|..], START) && Nowhere(existing[end + |END|..], END)
  {
    Markers();
    CountOne(existing, START);
    CountOne(existing, END);
    hide CountFrom, IndexFrom, Nowhere;
    NowhereInPrefix(existing, START, start);
    NowhereInPrefix(existing, END, start);
    NowhereInSuffix(existing, START, end + |END|);
    NowhereInSuffix(existing, END, end + |END|);
  }

  ghost predicate Twice(s: string, sub: string) {
    exists i: nat, j: nat :: i < j && OccursAt(s, sub, i) && OccursAt(s, sub, j)
  }

  lemma CountMany(s: string, sub: string)
    requires Marker(sub)
    ensures Count(s, sub) > 1 <==> Twice(s, sub)
    ensures Count(s, sub) == 1 <==> !Twice(s, sub) && !Nowhere(s, sub)
  {
    CountZero(s, sub);
    CountOne(s, sub);
    var first := IndexFrom(s, sub, 0);
    hide Count, IndexFrom;
    if first.Some? && !OnlyAt(s, sub, first.value) {
      var j: nat :| OccursAt(s, sub, j) && j != first.value;
      assert first.value < j;
    }
  }

  /** The marker is in the text, and at one place. */
  ghost predicate Single(s: string, sub: string) { !Twice(s, sub) && !Nowhere(s, sub) }

  ghost predicate EndFirst(s: string) {
    exists i: nat, j: nat :: j < i && OccursAt(s, START, i) && OccursAt(s, END, j)
  }

  /** When a merge is refused: a marker twice, one without the other, the end in
      front of the start. */
  lemma RefusedExactly(existing: string, managed: string)
    ensures MergeManagedAgents(existing, managed).SeveralBlocks? <==> Twice(existing, START) || Twice(existing, END)
    ensures (|| (Single(existing, START) && Nowhere(existing, END))
             || (Nowhere(existing, START) && Single(existing, END)))
            <==> MergeManagedAgents(existing, managed).IncompleteBlock?
    ensures (Single(existing, START) && Single(existing, END) && EndFirst(existing))
            <==> MergeManagedAgents(existing, managed).InvalidBlock?
  {
    Markers();
    CountMany(existing, START);
    CountMany(existing, END);
    CountZero(existing, START);
    CountZero(existing, END);
    if Single(existing, START) && Single(existing, END) { SinglesApart(existing); }
    hide Count, Trim, Block, OccursAt, HasSuffix, IndexFrom, Separator, Nowhere, Twice, EndFirst;
  }

  lemma SinglesApart(s: string)
    requires Single(s, START) && Single(s, END)
    ensures IndexFrom(s, START, 0).Some? && IndexFrom(s, END, 0).Some?
    ensures EndFirst(s) <==> IndexFrom(s, END, 0).value < IndexFrom(s, START, 0).value
  {
    Markers();
    CountMany(s, START);
    CountMany(s, END);
    CountOne(s, START);
    CountOne(s, END);
    hide Count, IndexFrom, OccursAt;
  }

  /** A text without markers gets the block behind a blank line. */
  lemma AppendedExactly(existing: string, managed: string)
    requires Nowhere(existing, START) && Nowhere(existing, END)
    ensures MergeManagedAgents(existing, managed)
              == Merged((if Blank(existing) then "" else if existing[|existing| - 1] == '\n' then existing + "\n"
                         else existing + "\n\n") + Block(managed) + "\n", true)
  {
    Markers();
    CountZero(existing, START);
    CountZero(existing, END);
    BlankIsTrimmed(existing);
    assert existing != "" ==> (HasSuffix(existing, "\n") <==> existing[|existing| - 1] == '\n');
    hide Count, Trim, Block, OccursAt, HasSuffix, Nowhere, IndexFrom, Blank;
    var block := Block(managed);
    if Trim(existing) == "" {
      assert "" + block == block;
    }
  }

  /** A text with one block gets it replaced, and nothing else. */
  lemma ReplacedExactly(existing: string, managed: string, i: nat, j: nat)
    requires i < j && OnlyAt(existing, START, i) && OnlyAt(existing, END, j)
    ensures j + |END| <= |existing|
    ensures var updated := existing[..i] + Block(managed) + existing[j + |END|..];
            MergeManagedAgents(existing, managed) == Merged(updated, updated != existing)
  {
    Markers();
    OnlyAtIsIndex(existing, START, i);
    OnlyAtIsIndex(existing, END, j);
    CountOne(existing, START);
    CountOne(existing, END);
    EndWithin(existing, j);
    hide Count, Trim, Block, OccursAt, HasSuffix, IndexFrom, Separator, OnlyAt;
  }

  lemma EndWithin(s: string, j: nat)
    requires OccursAt(s, END, j)
    ensures j + |END| <= |s|
  {
  }

  /** A merge is stable: applied to its own output it reports no change. */
  lemma MergeIsIdempotent(existing: string, managed: string)
    requires OneBlock(Block(managed)) && MergeManagedAgents(existing, managed).Merged?
    ensures var once := MergeManagedAgents(existing, managed).text;
            MergeManagedAgents(once, managed) == Merged(once, false)
  {
    var before, after := MergeShape(existing, managed);
    BlockInContextIsFixed(before, after, managed);
  }

  lemma OutsideOfBlock(before: string, block: string, after: string)
    requires OneBlock(block)
    requires Nowhere(before, START) && Nowhere(before, END) && Nowhere(after, START) && Nowhere(after, END)
    ensures Outside(before + block + after) == (before, after)
  {
    hide IndexFrom, Nowhere;
    var once := before + block + after;
    Markers();
    MarkerInContext(before, block, after, START, 0);
    MarkerInContext(before, block, after, END, |block| - |END|);
    OnlyAtIsIndex(once, START, |before|);
    OnlyAtIsIndex(once, END, |before| + (|block| - |END|));
    assert once[..|before|] == before && once[|before| + |block|..] == after;
  }

  /** Everything outside the managed block is kept verbatim; a text without a
      block is kept whole in front of it. */
  lemma MergeKeepsTheRest(existing: string, managed: string)
    requires OneBlock(Block(managed)) && MergeManagedAgents(existing, managed).Merged?
    ensures var once := MergeManagedAgents(existing, managed).text;
            && (Count(existing, START) == 1 ==> Outside(once) == Outside(existing))
            && (Count(existing, START) == 0 && Trim(existing) != "" ==>
                Outside(once) == (existing + Separator(existing), "\n"))
  {
    var before, after := MergeShape(existing, managed);
    hide Count, IndexFrom, Nowhere, Block;
    OutsideOfBlock(before, Block(managed), after);
  }

  /** Merging is stable for every project exactly when the template is one block. */
  lemma MergeIsIdempotentExactly(managed: string)
    ensures (forall existing :: MergeManagedAgents(existing, managed).Merged? ==>
               MergeManagedAgents(MergeManagedAgents(existing, managed).text, managed)
               == Merged(MergeManagedAgents(existing, managed).text, false))
            <==> OneBlock(Block(managed))
  {
    if OneBlock(Block(managed)) {
      forall existing | MergeManagedAgents(existing, managed).Merged?
        ensures MergeManagedAgents(MergeManagedAgents(existing, managed).text, managed)
                == Merged(MergeManagedAgents(existing, managed).text, false)
      {
        MergeIsIdempotent(existing, managed);
      }
    } else if forall existing :: MergeManagedAgents(existing, managed).Merged? ==>
                MergeManagedAgents(MergeManagedAgents(existing, managed).text, managed)
                == Merged(MergeManagedAgents(existing, managed).text, false)
    {
      EmptyMerge(managed);
      StableFirstMergeIsOneBlock(managed);
    }
  }

  lemma EmptyMerge(managed: string)
    ensures MergeManagedAgents("", managed) == Merged(Block(managed) + "\n", true)
  {
  }

  lemma StableFirstMergeIsOneBlock(managed: string)
    requires MergeManagedAgents(Block(managed) + "\n", managed) == Merged(Block(managed) + "\n", false)
    ensures OneBlock(Block(managed))
  {
    hide CountFrom, IndexFrom, Trim, Block;
    var block := Block(managed);
    var s := block + "\n";
    Markers();
    CountOne(s, START);
    CountOne(s, END);
    var start, end := IndexFrom(s, START, 0).value, IndexFrom(s, END, 0).value;
    assert |s[..start] + block + s[end + |END|..]| == |s|;
    OccursChar(s, END, end, |END| - 1);
    assert start == 0 && end + |END| == |block|;
    OnlyInBlock(block, end);
  }

  lemma OnlyInBlock(block: string, end: nat)
    requires OnlyAt(block + "\n", START, 0) && OnlyAt(block + "\n", END, end) && end + |END| == |block|
    ensures OneBlock(block)
  {
    var s := block + "\n";
    Markers();
    forall sub, j: nat | sub == START || sub == END
      ensures OccursAt(block, sub, j) <==> OccursAt(s, sub, j)
    {
      OccursInPart(block, "\n", sub, j);
      if OccursAt(s, sub, j) { NoCrossing(block, "\n", sub, j); }
    }
    OccursChar(s, END, end, 0);
    OccursChar(s, END, end, 19);
    OccursChar(s, START, 0, 19);
    forall k | 0 <= k < |START| ensures s[k] == START[k] { OccursChar(s, START, 0, k); }
  }
}
