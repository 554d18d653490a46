/** The heading-aware parent/child chunker (app/spec/chunking.py). */
module HeadingChunker {
  import opened Text

  const CHILD_CHARS: nat := 400
  const SEPARATORS: seq<string> := ["\n\n", "\n", ". ", " "]

  datatype ChunkType = Parent | Child
  type Metadata = map<string, string>

  datatype ChunkRecord = ChunkRecord(
    content: string,
    embedText: string,
    chunkType: ChunkType,
    chunkIndex: int,
    sectionHeading: Option<string>,
    parentChunkIndex: Option<int>,
    metadata: Metadata)

  /** One match of the heading pattern: its span, and the text of its group. */
  datatype Heading = Heading(start: nat, end: nat, title: string)

  datatype Section = Section(heading: Option<string>, body: string)

  /** What `finditer` promises: non-empty spans, in order, disjoint. */
  ghost predicate ValidHeadings(text: string, hs: seq<Heading>) {
    && (forall i :: 0 <= i < |hs| ==> hs[i].start < hs[i].end <= |text|)
    && (forall i, j :: 0 <= i < j < |hs| ==> hs[i].end <= hs[j].start)
  }

  // ---- _split_text ----

  /** Where the window opened at `start` closes, given the separators still to try. */
  function CutAt(text: string, start: nat, lo: nat, hi: nat, seps: seq<string>): (end: nat)
    requires start <= lo <= hi <= |text| && start < hi
    ensures start < end <= hi
  {
    if seps == [] then hi
    else
      var idx := RFind(text, seps[0], lo, hi);
      if idx > start then idx + |seps[0]| else CutAt(text, start, lo, hi, seps[1..])
  }

  function WindowEnd(text: string, size: nat, start: nat): (end: nat)
    requires 1 <= size && start < |text|
    ensures start < end <= |text| && end - start <= size
  {
    var hi := Min(start + size, |text|);
    if hi < |text| then CutAt(text, start, start + size / 3, hi, SEPARATORS) else hi
  }

  function Keep(piece: string): seq<string> {
    if piece == [] then [] else [piece]
  }

  function SplitFrom(text: string, size: nat, ws: Space, start: nat): seq<string>
    requires 1 <= size && start <= |text|
    decreases |text| - start
  {
    if start == |text| then []
    else
      var end := WindowEnd(text, size, start);
      Keep(Strip(text[start..end], ws)) + SplitFrom(text, size, ws, end)
  }

  function SplitText(text: string, size: nat, ws: Space): seq<string>
    requires 1 <= size
  {
    if |text| <= size then Keep(Strip(text, ws)) else SplitFrom(text, size, ws, 0)
  }

  /** The separator scan inside one window: the first separator found past `start` decides. */
  method ScanSeparators(text: string, start: nat, lo: nat, hi: nat, seps: seq<string>) returns (end: nat)
    requires start <= lo <= hi <= |text| && start < hi
    ensures end == CutAt(text, start, lo, hi, seps)
  {
    end := hi;
    assert seps[0..] == seps;
    for k := 0 to |seps|
      invariant end == hi
      invariant CutAt(text, start, lo, hi, seps[k..]) == CutAt(text, start, lo, hi, seps)
    {
      assert seps[k..][1..] == seps[k + 1..];
      var idx := RFind(text, seps[k], lo, hi);
      if idx > start {
        end := idx + |seps[k]|;
        break;
      }
    }
  }

  method CloseWindow(text: string, size: nat, start: nat) returns (end: nat)
    requires 1 <= size && start < |text|
    ensures end == WindowEnd(text, size, start)
  {
    end := Min(start + size, |text|);
    if end < |text| {
      end := ScanSeparators(text, start, start + size / 3, end, SEPARATORS);
    }
  }

  lemma SplitStep(text: string, size: nat, ws: Space, done: seq<string>, start: nat, end: nat, piece: string)
    requires 1 <= size && start < |text| && end == WindowEnd(text, size, start)
    requires piece == Strip(text[start..end], ws)
    ensures done + Keep(piece) + SplitFrom(text, size, ws, end) == done + SplitFrom(text, size, ws, start)
  {
  }

  method SplitTextLoop(text: string, size: nat, ws: Space) returns (chunks: seq<string>)
    requires 1 <= size
    ensures chunks == SplitText(text, size, ws)
  {
    if |text| <= size {
      var whole := Strip(text, ws);
      return if whole != [] then [whole] else [];
    }
    chunks := [];
    var start := 0;
    while start < |text|
      invariant 0 <= start <= |text|
      invariant chunks + SplitFrom(text, size, ws, start) == SplitFrom(text, size, ws, 0)
    {
      var end := CloseWindow(text, size, start);
      var piece := Strip(text[start..end], ws);
      ghost var before := chunks;
      if piece != [] {
        chunks := chunks + [piece];
      }
      assert chunks == before + Keep(piece);
      SplitStep(text, size, ws, before, start, end, piece);
      start := end;
    }
  }

  // ---- _split_by_headings ----

  function SectionsAfter(text: string, hs: seq<Heading>, ws: Space): seq<Section>
    requires ValidHeadings(text, hs)
  {
    if hs == [] then []
    else
      var end := if |hs| > 1 then hs[1].start else |text|;
      [Section(Some(Strip(hs[0].title, ws)), text[hs[0].end..end])] + SectionsAfter(text, hs[1..], ws)
  }

  function Preamble(text: string, hs: seq<Heading>, ws: Space): seq<Section>
    requires ValidHeadings(text, hs) && hs != []
  {
    var pre := Strip(text[..hs[0].start], ws);
    if pre != [] then [Section(None, pre)] else []
  }

  function SplitByHeadings(text: string, hs: seq<Heading>, ws: Space): seq<Section>
    requires ValidHeadings(text, hs)
  {
    if hs == [] then [Section(None, text)]
    else Preamble(text, hs, ws) + SectionsAfter(text, hs, ws)
  }

  lemma SectionsUnfold(text: string, hs: seq<Heading>, ws: Space, i: nat, next: Section)
    requires ValidHeadings(text, hs) && i < |hs|
    requires next
      == Section(Some(Strip(hs[i].title, ws)), text[hs[i].end..if i + 1 < |hs| then hs[i + 1].start else |text|])
    ensures SectionsAfter(text, hs[i..], ws) == [next] + SectionsAfter(text, hs[i + 1..], ws)
  {
    assert hs[i..][1..] == hs[i + 1..];
  }

  lemma SectionsStep(text: string, hs: seq<Heading>, ws: Space, done: seq<Section>, i: nat, next: Section)
    requires ValidHeadings(text, hs) && i < |hs|
    requires next
      == Section(Some(Strip(hs[i].title, ws)), text[hs[i].end..if i + 1 < |hs| then hs[i + 1].start else |text|])
    ensures done + [next] + SectionsAfter(text, hs[i + 1..], ws) == done + SectionsAfter(text, hs[i..], ws)
  {
    SectionsUnfold(text, hs, ws, i, next);
    Assoc(done, [next], SectionsAfter(text, hs[i + 1..], ws));
  }

  method HeadingLoop(text: string, hs: seq<Heading>, ws: Space, front: seq<Section>) returns (sections: seq<Section>)
    requires ValidHeadings(text, hs)
    ensures sections == front + SectionsAfter(text, hs, ws)
  {
    sections := front;
    assert hs[0..] == hs;
    for i := 0 to |hs|
      invariant sections + SectionsAfter(text, hs[i..], ws) == front + SectionsAfter(text, hs, ws)
    {
      var heading := Strip(hs[i].title, ws);
      var start := hs[i].end;
      var end := if i + 1 < |hs| then hs[i + 1].start else |text|;
      SectionsStep(text, hs, ws, sections, i, Section(Some(heading), text[start..end]));
      sections := sections + [Section(Some(heading), text[start..end])];
    }
  }

  method SplitByHeadingsLoop(text: string, hs: seq<Heading>, ws: Space) returns (sections: seq<Section>)
    requires ValidHeadings(text, hs)
    ensures sections == SplitByHeadings(text, hs, ws)
  {
    if hs == [] {
      return [Section(None, text)];
    }
    sections := [];
    var pre := Strip(text[..hs[0].start], ws);
    if pre != [] {
      sections := sections + [Section(None, pre)];
    }
    sections := HeadingLoop(text, hs, ws, sections);
  }

  // ---- chunk ----

  function Truthy(meta: Metadata, key: string): bool {
    key in meta && meta[key] != ""
  }

  function Enrich(text: string, meta: Metadata): string {
    var title := if Truthy(meta, "spec_title") then "[기획서: " + meta["spec_title"] + "]" else "";
    var heading := if Truthy(meta, "section_heading") then "[섹션: " + meta["section_heading"] + "]" else "";
    var gap := if title != "" && heading != "" then " " else "";
    if title == "" && heading == "" then text else title + gap + heading + "\n" + text
  }

  function SectionMeta(heading: Option<string>, base: Metadata): Metadata {
    if heading.Some? && heading.value != "" then base["section_heading" := heading.value] else base
  }

  /** One section as the chunk loop sees it: trimmed, and cut into pieces. */
  datatype Group = Group(heading: Option<string>, body: string, pieces: seq<string>)

  function GroupOf(s: Section, ws: Space): Group {
    var body := Strip(s.body, ws);
    Group(s.heading, body, SplitText(body, CHILD_CHARS, ws))
  }

  function Groups(sections: seq<Section>, ws: Space): seq<Group> {
    if sections == [] then [] else [GroupOf(sections[0], ws)] + Groups(sections[1..], ws)
  }

  predicate NeedsParent(g: Group) {
    |g.body| > CHILD_CHARS
  }

  function ParentRecord(g: Group, base: Metadata, index: int): ChunkRecord {
    ChunkRecord(g.body, g.body, Parent, index, g.heading, None, SectionMeta(g.heading, base))
  }

  function ChildRecord(piece: string, heading: Option<string>, base: Metadata, index: int,
                       parent: Option<int>): ChunkRecord {
    var meta := SectionMeta(heading, base);
    ChunkRecord(piece, Enrich(piece, meta), Child, index, heading, parent, meta)
  }

  function ChildRecords(pieces: seq<string>, heading: Option<string>, base: Metadata, index: int,
                        parent: Option<int>): seq<ChunkRecord> {
    if pieces == [] then []
    else [ChildRecord(pieces[0], heading, base, index, parent)]
         + ChildRecords(pieces[1..], heading, base, index + 1, parent)
  }

  /** The records of one group: a parent if the body is long, then the children. */
  function GroupRecords(g: Group, base: Metadata, parentSeq: int, childSeq: int): seq<ChunkRecord> {
    if NeedsParent(g)
    then [ParentRecord(g, base, parentSeq)] + ChildRecords(g.pieces, g.heading, base, childSeq, Some(parentSeq))
    else ChildRecords(g.pieces, g.heading, base, childSeq, None)
  }

  function NextParent(g: Group, parentSeq: int): int {
    if NeedsParent(g) then parentSeq - 1 else parentSeq
  }

  /** All records, numbered from `parentSeq` down and from `childSeq` up. */
  function Number(groups: seq<Group>, base: Metadata, parentSeq: int, childSeq: int): seq<ChunkRecord> {
    if groups == [] then []
    else
      GroupRecords(groups[0], base, parentSeq, childSeq)
      + Number(groups[1..], base, NextParent(groups[0], parentSeq), childSeq + |groups[0].pieces|)
  }

  function Chunk(text: string, hs: seq<Heading>, base: Metadata, ws: Space): seq<ChunkRecord>
    requires ValidHeadings(text, hs)
  {
    Number(Groups(SplitByHeadings(text, hs, ws), ws), base, -1, 0)
  }

  lemma Assoc<T>(a: seq<T>, b: seq<T>, c: seq<T>)
    ensures a + (b + c) == a + b + c
  {
  }

  method AppendChildren(records: seq<ChunkRecord>, pieces: seq<string>, heading: Option<string>, base: Metadata,
                        childSeq: int, parent: Option<int>)
    returns (out: seq<ChunkRecord>, nextChild: int)
    ensures out == records + ChildRecords(pieces, heading, base, childSeq, parent)
    ensures nextChild == childSeq + |pieces|
  {
    out, nextChild := records, childSeq;
    var meta := SectionMeta(heading, base);
    assert pieces[0..] == pieces;
    for i := 0 to |pieces|
      invariant nextChild == childSeq + i
      invariant out + ChildRecords(pieces[i..], heading, base, nextChild, parent)
        == records + ChildRecords(pieces, heading, base, childSeq, parent)
    {
      var record := ChunkRecord(pieces[i], Enrich(pieces[i], meta), Child, nextChild, heading, parent, meta);
      assert pieces[i..][1..] == pieces[i + 1..];
      Assoc(out, [record], ChildRecords(pieces[i + 1..], heading, base, nextChild + 1, parent));
      out := out + [record];
      nextChild := nextChild + 1;
    }
  }

  lemma NumberStep(groups: seq<Group>, base: Metadata, p: int, c: int, k: nat, done: seq<ChunkRecord>,
                   done': seq<ChunkRecord>, p': int, c': int)
    requires k < |groups|
    requires done' == done + GroupRecords(groups[k], base, p, c)
    requires p' == NextParent(groups[k], p) && c' == c + |groups[k].pieces|
    ensures done' + Number(groups[k + 1..], base, p', c') == done + Number(groups[k..], base, p, c)
  {
    assert groups[k..][1..] == groups[k + 1..];
    Assoc(done, GroupRecords(groups[k], base, p, c), Number(groups[k + 1..], base, p', c'));
  }

  lemma SkipStep(groups: seq<Group>, base: Metadata, p: int, c: int, k: nat)
    requires k < |groups| && groups[k].body == [] && groups[k].pieces == []
    ensures Number(groups[k + 1..], base, p, c) == Number(groups[k..], base, p, c)
  {
    assert groups[k..][1..] == groups[k + 1..];
    assert GroupRecords(groups[k], base, p, c) == [];
  }

  lemma {:induction false} GroupsAt(sections: seq<Section>, ws: Space)
    ensures |Groups(sections, ws)| == |sections|
    ensures forall k :: 0 <= k < |sections| ==> Groups(sections, ws)[k] == GroupOf(sections[k], ws)
  {
    if sections != [] {
      GroupsAt(sections[1..], ws);
    }
  }

  method CutSection(s: Section, ws: Space) returns (g: Group)
    ensures g == GroupOf(s, ws)
    ensures g.pieces == [] ==> g.body == []
    ensures g.body == [] ==> g.pieces == []
  {
    var body := Strip(s.body, ws);
    var pieces := SplitTextLoop(body, CHILD_CHARS, ws);
    StripTwice(s.body, ws);
    if body != [] {
      SectionSplits(body, ws);
    }
    g := Group(s.heading, body, pieces);
  }

  /** One turn of the section loop, once a section has pieces. */
  method AppendGroup(records: seq<ChunkRecord>, g: Group, base: Metadata, parentSeq: int, childSeq: int)
    returns (out: seq<ChunkRecord>, nextParent: int, nextChild: int)
    ensures out == records + GroupRecords(g, base, parentSeq, childSeq)
    ensures nextParent == NextParent(g, parentSeq) && nextChild == childSeq + |g.pieces|
  {
    out, nextParent := records, parentSeq;
    var needsParent := |g.body| > CHILD_CHARS;
    if needsParent {
      out := out + [ChunkRecord(g.body, g.body, Parent, parentSeq, g.heading, None, SectionMeta(g.heading, base))];
    }
    var parent := if needsParent then Some(parentSeq) else None;
    out, nextChild := AppendChildren(out, g.pieces, g.heading, base, childSeq, parent);
    if needsParent {
      Assoc(records, [ParentRecord(g, base, parentSeq)], ChildRecords(g.pieces, g.heading, base, childSeq, parent));
      nextParent := nextParent - 1;
    }
  }

  /** The section loop: a blank body and a body without pieces are skipped, and leave the counters alone. */
  method SectionLoop(sections: seq<Section>, ghost groups: seq<Group>, base: Metadata, ws: Space)
    returns (records: seq<ChunkRecord>)
    requires |groups| == |sections| && forall k :: 0 <= k < |groups| ==> groups[k] == GroupOf(sections[k], ws)
    ensures records == Number(groups, base, -1, 0)
  {
    records := [];
    var parentSeq, childSeq := -1, 0;
    ghost var whole := Number(groups, base, -1, 0);
    assert groups[0..] == groups;
    for k := 0 to |sections|
      invariant records + Number(groups[k..], base, parentSeq, childSeq) == whole
    {
      var g := CutSection(sections[k], ws);
      if g.body == [] || g.pieces == [] {
        SkipStep(groups, base, parentSeq, childSeq, k);
        continue;
      }
      ghost var before, p, c := records, parentSeq, childSeq;
      records, parentSeq, childSeq := AppendGroup(records, g, base, parentSeq, childSeq);
      NumberStep(groups, base, p, c, k, before, records, parentSeq, childSeq);
    }
  }

  method ChunkLoop(text: string, hs: seq<Heading>, base: Metadata, ws: Space) returns (records: seq<ChunkRecord>)
    requires ValidHeadings(text, hs)
    ensures records == Chunk(text, hs, base, ws)
  {
    var sections := SplitByHeadingsLoop(text, hs, ws);
    GroupsAt(sections, ws);
    records := SectionLoop(sections, Groups(sections, ws), base, ws);
  }

  // ---- the split of one section ----

  ghost predicate Piece(text: string, size: nat, ws: Space, p: string) {
    p != [] && |p| <= size && Strip(p, ws) == p && Contains(text, p)
  }

  lemma StripPiece(text: string, ws: Space, start: nat, end: nat)
    requires start <= end <= |text|
    ensures forall p :: p in Keep(Strip(text[start..end], ws)) ==> Piece(text, end - start, ws, p)
  {
    var window := text[start..end];
    var i, j := StripIsSlice(window, ws);
    StripTwice(window, ws);
    SliceOfSlice(text, start, end, i, j);
    assert At(text, Strip(window, ws), start + i, |text|);
  }

  lemma {:induction false} SplitPieces(text: string, size: nat, ws: Space, start: nat)
    requires 1 <= size && start <= |text|
    ensures forall p :: p in SplitFrom(text, size, ws, start) ==> Piece(text, size, ws, p)
    decreases |text| - start
  {
    if start < |text| {
      var end := WindowEnd(text, size, start);
      StripPiece(text, ws, start, end);
      SplitPieces(text, size, ws, end);
    }
  }

  /** Every piece is non-empty, within the size, trimmed, and cut contiguously out of the text. */
  lemma SplitBounds(text: string, size: nat, ws: Space)
    requires 1 <= size
    ensures forall p :: p in SplitText(text, size, ws) ==> Piece(text, size, ws, p)
  {
    if |text| <= size {
      assert text[0..|text|] == text;
      StripPiece(text, ws, 0, |text|);
    } else {
      SplitPieces(text, size, ws, 0);
    }
  }

  lemma FlattenKeep(p: string)
    ensures Flatten(Keep(p)) == p
  {
  }

  lemma {:induction false} SplitConservesFrom(text: string, size: nat, ws: Space, start: nat)
    requires 1 <= size && start <= |text|
    ensures Visible(Flatten(SplitFrom(text, size, ws, start)), ws) == Visible(text[start..], ws)
    decreases |text| - start
  {
    if start < |text| {
      var end := WindowEnd(text, size, start);
      SplitConservesFrom(text, size, ws, end);
      PieceConserves(Strip(text[start..end], ws), SplitFrom(text, size, ws, end), ws);
      VisibleStrip(text[start..end], ws);
      assert text[start..] == text[start..end] + text[end..];
      VisibleConcat(text[start..end], text[end..], ws);
    }
  }

  lemma PieceConserves(piece: string, rest: seq<string>, ws: Space)
    ensures Visible(Flatten(Keep(piece) + rest), ws) == Visible(piece, ws) + Visible(Flatten(rest), ws)
  {
    FlattenConcat(Keep(piece), rest);
    FlattenKeep(piece);
    VisibleConcat(piece, Flatten(rest), ws);
  }

  /** No visible character is lost, repeated or moved by the split. */
  lemma SplitConserves(text: string, size: nat, ws: Space)
    requires 1 <= size
    ensures Visible(Flatten(SplitText(text, size, ws)), ws) == Visible(text, ws)
  {
    if |text| <= size {
      FlattenKeep(Strip(text, ws));
      VisibleStrip(text, ws);
    } else {
      SplitConservesFrom(text, size, ws, 0);
      assert text[0..] == text;
    }
  }

  lemma StripKeepsVisible(s: string, ws: Space, i: nat)
    requires i < |s| && !ws(s[i])
    ensures Strip(s, ws) != []
  {
    var a, b := StripIsSlice(s, ws);
    assert a <= i < b;
  }

  lemma {:induction false} SplitFromNonEmpty(text: string, size: nat, ws: Space, start: nat)
    requires 1 <= size && start < |text| && !ws(text[|text| - 1])
    ensures SplitFrom(text, size, ws, start) != []
    decreases |text| - start
  {
    var end := WindowEnd(text, size, start);
    if end == |text| {
      StripKeepsVisible(text[start..end], ws, |text| - 1 - start);
    } else {
      SplitFromNonEmpty(text, size, ws, end);
    }
  }

  /** A trimmed non-empty body gives one piece when it fits, two or more when it does not. */
  lemma SectionSplits(body: string, ws: Space)
    requires Strip(body, ws) == body && body != []
    ensures |body| <= CHILD_CHARS ==> SplitText(body, CHILD_CHARS, ws) == [body]
    ensures |body| > CHILD_CHARS ==> |SplitText(body, CHILD_CHARS, ws)| >= 2
  {
    if |body| > CHILD_CHARS {
      var i, j := StripIsSlice(body, ws);
      assert i == 0 && j == |body|;
      var end := WindowEnd(body, CHILD_CHARS, 0);
      StripKeepsVisible(body[0..end], ws, 0);
      SplitFromNonEmpty(body, CHILD_CHARS, ws, end);
    }
  }

  // ---- what the records are, over any list of groups ----

  /** A group as `GroupOf` makes it. */
  ghost predicate WellCut(g: Group, ws: Space) {
    && (g.body == [] ==> g.pieces == [])
    && (g.body != [] && !NeedsParent(g) ==> g.pieces == [g.body])
    && (NeedsParent(g) ==> |g.pieces| >= 2)
    && (forall p :: p in g.pieces ==> Piece(g.body, CHILD_CHARS, ws, p))
  }

  lemma GroupIsWellCut(s: Section, ws: Space)
    ensures WellCut(GroupOf(s, ws), ws)
  {
    var g := GroupOf(s, ws);
    StripTwice(s.body, ws);
    SplitBounds(g.body, CHILD_CHARS, ws);
    if g.body != [] {
      SectionSplits(g.body, ws);
    }
  }

  function Only(records: seq<ChunkRecord>, t: ChunkType): seq<ChunkRecord> {
    if records == [] then []
    else (if records[0].chunkType == t then [records[0]] else []) + Only(records[1..], t)
  }

  lemma {:induction false} OnlyConcat(a: seq<ChunkRecord>, b: seq<ChunkRecord>, t: ChunkType)
    ensures Only(a + b, t) == Only(a, t) + Only(b, t)
  {
    if a == [] {
      assert a + b == b;
    } else {
      assert (a + b)[0] == a[0] && (a + b)[1..] == a[1..] + b;
      OnlyConcat(a[1..], b, t);
      Assoc(if a[0].chunkType == t then [a[0]] else [], Only(a[1..], t), Only(b, t));
    }
  }

  /** Indices run up (or down) from `first` without a gap. */
  ghost predicate Consecutive(records: seq<ChunkRecord>, first: int, step: int) {
    forall i :: 0 <= i < |records| ==> records[i].chunkIndex == first + step * i
  }

  function Contents(records: seq<ChunkRecord>): seq<string> {
    if records == [] then [] else [records[0].content] + Contents(records[1..])
  }

  lemma {:induction false} ContentsConcat(a: seq<ChunkRecord>, b: seq<ChunkRecord>)
    ensures Contents(a + b) == Contents(a) + Contents(b)
  {
    if a == [] {
      assert a + b == b;
    } else {
      assert (a + b)[1..] == a[1..] + b;
      ContentsConcat(a[1..], b);
    }
  }

  lemma {:induction false} ChildRecordsAt(pieces: seq<string>, heading: Option<string>, base: Metadata, c: int,
                                          parent: Option<int>)
    ensures var r := ChildRecords(pieces, heading, base, c, parent);
      |r| == |pieces| && forall i :: 0 <= i < |r| ==> r[i] == ChildRecord(pieces[i], heading, base, c + i, parent)
  {
    if pieces != [] {
      ChildRecordsAt(pieces[1..], heading, base, c + 1, parent);
    }
  }

  lemma {:induction false} AllChildren(r: seq<ChunkRecord>)
    requires forall i :: 0 <= i < |r| ==> r[i].chunkType == Child
    ensures Only(r, Child) == r && Only(r, Parent) == []
  {
    if r != [] {
      AllChildren(r[1..]);
    }
  }

  lemma {:induction false} ContentsAt(r: seq<ChunkRecord>)
    ensures |Contents(r)| == |r| && forall i :: 0 <= i < |r| ==> Contents(r)[i] == r[i].content
  {
    if r != [] {
      ContentsAt(r[1..]);
    }
  }

  lemma ChildRecordsShape(pieces: seq<string>, heading: Option<string>, base: Metadata, c: int, parent: Option<int>)
    ensures var r := ChildRecords(pieces, heading, base, c, parent);
      && |r| == |pieces| && Contents(r) == pieces && Only(r, Child) == r && Only(r, Parent) == []
      && (forall i :: 0 <= i < |r| ==> r[i] == ChildRecord(pieces[i], heading, base, c + i, parent))
  {
    ChildRecordsAt(pieces, heading, base, c, parent);
    AllChildren(ChildRecords(pieces, heading, base, c, parent));
    ContentsAt(ChildRecords(pieces, heading, base, c, parent));
  }

  function AllPieces(groups: seq<Group>): seq<string> {
    if groups == [] then [] else groups[0].pieces + AllPieces(groups[1..])
  }

  ghost predicate Shape(r: seq<ChunkRecord>, pieces: seq<string>, p: int, c: int) {
    && Contents(Only(r, Child)) == pieces && |Only(r, Child)| == |pieces|
    && Consecutive(Only(r, Child), c, 1)
    && Consecutive(Only(r, Parent), p, -1)
  }

  lemma GroupShape(g: Group, base: Metadata, p: int, c: int)
    ensures Shape(GroupRecords(g, base, p, c), g.pieces, p, c)
    ensures Only(GroupRecords(g, base, p, c), Parent) == if NeedsParent(g) then [ParentRecord(g, base, p)] else []
  {
    var parent := if NeedsParent(g) then Some(p) else None;
    var children := ChildRecords(g.pieces, g.heading, base, c, parent);
    ChildRecordsShape(g.pieces, g.heading, base, c, parent);
    if NeedsParent(g) {
      var head := [ParentRecord(g, base, p)];
      OnlyConcat(head, children, Child);
      OnlyConcat(head, children, Parent);
      assert Only(head, Child) == [] && Only(head, Parent) == head;
      assert Only(head + children, Child) == children && Only(head + children, Parent) == head;
    }
  }

  lemma ConsecutiveConcat(a: seq<ChunkRecord>, b: seq<ChunkRecord>, first: int, step: int)
    requires step == 1 || step == -1
    requires Consecutive(a, first, step) && Consecutive(b, first + step * |a|, step)
    ensures Consecutive(a + b, first, step)
  {
    forall i | 0 <= i < |a + b| ensures (a + b)[i].chunkIndex == first + step * i {
      if i >= |a| {
        assert (a + b)[i] == b[i - |a|];
      }
    }
  }

  lemma ShapeConcat(a: seq<ChunkRecord>, b: seq<ChunkRecord>, xs: seq<string>, ys: seq<string>, p: int, c: int,
                    p': int, c': int)
    requires Shape(a, xs, p, c) && Shape(b, ys, p', c')
    requires p' == p - |Only(a, Parent)| && c' == c + |xs|
    ensures Shape(a + b, xs + ys, p, c)
  {
    OnlyConcat(a, b, Child);
    OnlyConcat(a, b, Parent);
    ContentsConcat(Only(a, Child), Only(b, Child));
    ConsecutiveConcat(Only(a, Child), Only(b, Child), c, 1);
    ConsecutiveConcat(Only(a, Parent), Only(b, Parent), p, -1);
  }

  lemma {:induction false} NumberShape(groups: seq<Group>, base: Metadata, p: int, c: int)
    ensures Shape(Number(groups, base, p, c), AllPieces(groups), p, c)
  {
    if groups != [] {
      var g, others := groups[0], groups[1..];
      var p', c' := NextParent(g, p), c + |g.pieces|;
      GroupShape(g, base, p, c);
      NumberShape(others, base, p', c');
      ShapeConcat(GroupRecords(g, base, p, c), Number(others, base, p', c'), g.pieces, AllPieces(others), p, c, p', c');
    } else {
      assert Number(groups, base, p, c) == [] && AllPieces(groups) == [];
    }
  }

  /** `p` is the parent record that the child `c` names, and shows it in context. */
  ghost predicate ParentOf(p: ChunkRecord, c: ChunkRecord) {
    && p.chunkType == Parent && c.chunkType == Child
    && c.parentChunkIndex == Some(p.chunkIndex)
    && p.sectionHeading == c.sectionHeading
    && Contains(p.content, c.content)
  }

  /** A child with a parent index is preceded by that parent. */
  ghost predicate Linked(records: seq<ChunkRecord>, i: nat)
    requires i < |records|
  {
    records[i].parentChunkIndex.Some? ==> exists j :: 0 <= j < i && ParentOf(records[j], records[i])
  }

  /** A parent is followed by at least two children that name it. */
  ghost predicate Shared(records: seq<ChunkRecord>, j: nat)
    requires j < |records|
  {
    records[j].chunkType == Parent ==>
      exists i, k :: j < i < k < |records| && ParentOf(records[j], records[i]) && ParentOf(records[j], records[k])
  }

  ghost predicate WellLinked(records: seq<ChunkRecord>) {
    forall i :: 0 <= i < |records| ==> Linked(records, i) && Shared(records, i)
  }

  lemma WellLinkedConcat(a: seq<ChunkRecord>, b: seq<ChunkRecord>)
    requires WellLinked(a) && WellLinked(b)
    ensures WellLinked(a + b)
  {
    var ab := a + b;
    forall i | 0 <= i < |ab| ensures Linked(ab, i) && Shared(ab, i) {
      if i < |a| {
        assert Linked(a, i) && Shared(a, i) && ab[i] == a[i];
        if a[i].chunkType == Parent {
          var x, y :| i < x < y < |a| && ParentOf(a[i], a[x]) && ParentOf(a[i], a[y]);
          assert ab[x] == a[x] && ab[y] == a[y];
        }
        if a[i].parentChunkIndex.Some? {
          var j :| 0 <= j < i && ParentOf(a[j], a[i]);
          assert ab[j] == a[j];
        }
      } else {
        var i' := i - |a|;
        assert Linked(b, i') && Shared(b, i') && ab[i] == b[i'];
        if b[i'].chunkType == Parent {
          var x, y :| i' < x < y < |b| && ParentOf(b[i'], b[x]) && ParentOf(b[i'], b[y]);
          assert ab[|a| + x] == b[x] && ab[|a| + y] == b[y];
        }
        if b[i'].parentChunkIndex.Some? {
          var j :| 0 <= j < i' && ParentOf(b[j], b[i']);
          assert ab[|a| + j] == b[j];
        }
      }
    }
  }

  lemma GroupLinked(g: Group, base: Metadata, p: int, c: int, ws: Space)
    requires WellCut(g, ws)
    ensures WellLinked(GroupRecords(g, base, p, c))
  {
    var parent := if NeedsParent(g) then Some(p) else None;
    ChildRecordsShape(g.pieces, g.heading, base, c, parent);
    if NeedsParent(g) {
      var r := GroupRecords(g, base, p, c);
      forall i | 1 <= i < |r| ensures ParentOf(r[0], r[i]) {
        assert g.pieces[i - 1] in g.pieces;
      }
      assert ParentOf(r[0], r[1]) && ParentOf(r[0], r[2]);
    }
  }

  lemma {:induction false} NumberLinked(groups: seq<Group>, base: Metadata, p: int, c: int, ws: Space)
    requires forall k :: 0 <= k < |groups| ==> WellCut(groups[k], ws)
    ensures WellLinked(Number(groups, base, p, c))
  {
    if groups != [] {
      var g := groups[0];
      GroupLinked(g, base, p, c, ws);
      NumberLinked(groups[1..], base, NextParent(g, p), c + |g.pieces|, ws);
      WellLinkedConcat(GroupRecords(g, base, p, c), Number(groups[1..], base, NextParent(g, p), c + |g.pieces|));
    }
  }

  // ---- main results ----

  /** A section gets a parent record exactly when it yields two or more children. */
  lemma ParentIffTwoChildren(s: Section, base: Metadata, p: int, c: int, ws: Space)
    ensures var r := GroupRecords(GroupOf(s, ws), base, p, c);
      && (Only(r, Parent) != [] <==> |Only(r, Child)| >= 2)
      && |Only(r, Parent)| <= 1
      && (Only(r, Parent) != [] ==> Only(r, Parent)[0].content == Strip(s.body, ws))
      && (r == [] <==> Strip(s.body, ws) == [])
  {
    GroupIsWellCut(s, ws);
    GroupShape(GroupOf(s, ws), base, p, c);
    ChildRecordsShape(GroupOf(s, ws).pieces, s.heading, base, c, None);
  }

  /** Children are numbered 0, 1, 2, ... and parents -1, -2, -3, ... in the order they come out. */
  lemma ChunkNumbering(text: string, hs: seq<Heading>, base: Metadata, ws: Space)
    requires ValidHeadings(text, hs)
    ensures Consecutive(Only(Chunk(text, hs, base, ws), Child), 0, 1)
    ensures Consecutive(Only(Chunk(text, hs, base, ws), Parent), -1, -1)
  {
    NumberShape(Groups(SplitByHeadings(text, hs, ws), ws), base, -1, 0);
  }

  /** Every parent index names an earlier parent record of the same heading whose content holds
      the child contiguously, and every parent has at least two such children. */
  lemma ChunkLinks(text: string, hs: seq<Heading>, base: Metadata, ws: Space)
    requires ValidHeadings(text, hs)
    ensures WellLinked(Chunk(text, hs, base, ws))
  {
    var sections := SplitByHeadings(text, hs, ws);
    GroupsAt(sections, ws);
    forall k | 0 <= k < |sections| ensures WellCut(Groups(sections, ws)[k], ws) {
      GroupIsWellCut(sections[k], ws);
    }
    NumberLinked(Groups(sections, ws), base, -1, 0, ws);
  }

  predicate InHeading(i: int, hs: seq<Heading>) {
    exists k :: 0 <= k < |hs| && hs[k].start <= i < hs[k].end
  }

  /** The text from position `i` on, without the characters that belong to a heading. */
  function Outside(text: string, hs: seq<Heading>, i: nat): string
    requires i <= |text|
    decreases |text| - i
  {
    if i == |text| then [] else (if InHeading(i, hs) then [] else [text[i]]) + Outside(text, hs, i + 1)
  }

  function Bodies(sections: seq<Section>): string {
    if sections == [] then [] else sections[0].body + Bodies(sections[1..])
  }

  /** Skipping a stretch: either wholly outside every heading, or wholly inside one. */
  lemma {:induction false} OutsideStretch(text: string, hs: seq<Heading>, i: nat, j: nat, inside: bool)
    requires i <= j <= |text|
    requires forall k :: i <= k < j ==> InHeading(k, hs) == inside
    ensures Outside(text, hs, i) == (if inside then [] else text[i..j]) + Outside(text, hs, j)
    decreases j - i
  {
    if i < j {
      assert InHeading(i, hs) == inside;
      OutsideStretch(text, hs, i + 1, j, inside);
      assert text[i..j] == [text[i]] + text[i + 1..j];
      Assoc([text[i]], text[i + 1..j], Outside(text, hs, j));
    }
  }

  /** The stretch from one heading's end to the next heading's start holds no heading character. */
  lemma GapOutside(text: string, hs: seq<Heading>, k: nat, i: nat, j: nat)
    requires ValidHeadings(text, hs) && k <= |hs| && i <= j <= |text|
    requires k > 0 ==> hs[k - 1].end <= i
    requires k < |hs| ==> j <= hs[k].start
    ensures Outside(text, hs, i) == text[i..j] + Outside(text, hs, j)
  {
    forall x | i <= x < j ensures InHeading(x, hs) == false {
      forall m | 0 <= m < |hs| ensures !(hs[m].start <= x < hs[m].end) {
        if m < k {
          assert hs[m].end <= hs[k - 1].end;
        } else {
          assert hs[k].start <= hs[m].start;
        }
      }
    }
    OutsideStretch(text, hs, i, j, false);
  }

  lemma HeadingSkipped(text: string, hs: seq<Heading>, k: nat)
    requires ValidHeadings(text, hs) && k < |hs|
    ensures Outside(text, hs, hs[k].start) == Outside(text, hs, hs[k].end)
  {
    forall x | hs[k].start <= x < hs[k].end ensures InHeading(x, hs) == true {
    }
    OutsideStretch(text, hs, hs[k].start, hs[k].end, true);
  }

  lemma {:induction false} SectionsOutside(text: string, hs: seq<Heading>, ws: Space, k: nat)
    requires ValidHeadings(text, hs) && k < |hs|
    ensures Bodies(SectionsAfter(text, hs[k..], ws)) == Outside(text, hs, hs[k].end)
    decreases |hs| - k
  {
    var end := if k + 1 < |hs| then hs[k + 1].start else |text|;
    var next := Section(Some(Strip(hs[k].title, ws)), text[hs[k].end..end]);
    var more := SectionsAfter(text, hs[k + 1..], ws);
    SectionsUnfold(text, hs, ws, k, next);
    assert ([next] + more)[1..] == more;
    GapOutside(text, hs, k + 1, hs[k].end, end);
    if k + 1 < |hs| {
      HeadingSkipped(text, hs, k + 1);
      SectionsOutside(text, hs, ws, k + 1);
    }
  }

  lemma {:induction false} PiecesVisible(sections: seq<Section>, ws: Space)
    ensures Visible(Flatten(AllPieces(Groups(sections, ws))), ws) == Visible(Bodies(sections), ws)
  {
    if sections != [] {
      var g, rest := GroupOf(sections[0], ws), AllPieces(Groups(sections[1..], ws));
      PiecesVisible(sections[1..], ws);
      FlattenConcat(g.pieces, rest);
      VisibleConcat(Flatten(g.pieces), Flatten(rest), ws);
      SplitConserves(g.body, CHILD_CHARS, ws);
      VisibleStrip(sections[0].body, ws);
      VisibleConcat(sections[0].body, Bodies(sections[1..]), ws);
    }
  }

  lemma BodiesVisible(text: string, hs: seq<Heading>, ws: Space)
    requires ValidHeadings(text, hs)
    ensures Visible(Bodies(SplitByHeadings(text, hs, ws)), ws) == Visible(Outside(text, hs, 0), ws)
  {
    if hs == [] {
      GapOutside(text, hs, 0, 0, |text|);
      assert Bodies([Section(None, text)]) == text + [] == text[0..|text|] + [];
    } else {
      var pre := Preamble(text, hs, ws);
      GapOutside(text, hs, 0, 0, hs[0].start);
      HeadingSkipped(text, hs, 0);
      assert hs[0..] == hs;
      SectionsOutside(text, hs, ws, 0);
      PreambleVisible(text[0..hs[0].start], SectionsAfter(text, hs, ws), ws);
    }
  }

  lemma PreambleVisible(front: string, after: seq<Section>, ws: Space)
    ensures var pre := if Strip(front, ws) != [] then [Section(None, Strip(front, ws))] else [];
      Visible(Bodies(pre + after), ws) == Visible(front + Bodies(after), ws)
  {
    var trimmed := Strip(front, ws);
    VisibleStrip(front, ws);
    VisibleConcat(front, Bodies(after), ws);
    VisibleConcat(trimmed, Bodies(after), ws);
    if trimmed != [] {
      assert ([Section(None, trimmed)] + after)[1..] == after;
    } else {
      assert [] + after == after;
    }
  }

  /** Conservation: the children read in order give back exactly the visible text outside the
      headings, so every visible body character lands in exactly one child, in its place. */
  lemma ChunkConserves(text: string, hs: seq<Heading>, base: Metadata, ws: Space)
    requires ValidHeadings(text, hs)
    ensures Visible(Flatten(Contents(Only(Chunk(text, hs, base, ws), Child))), ws) == Visible(Outside(text, hs, 0), ws)
  {
    var sections := SplitByHeadings(text, hs, ws);
    NumberShape(Groups(sections, ws), base, -1, 0);
    PiecesVisible(sections, ws);
    BodiesVisible(text, hs, ws);
  }
}
