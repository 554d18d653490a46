/** Where the two splitters cut and what the records say (app/spec/chunking.py, app/services/chunking.py), on the
    characters of the text: which occurrence of which separator ends a window, which heading a piece stands under,
    and what is embedded for it. */
module ChunkMeaning {
  import opened Text
  import opened HeadingChunker

  /** The separators in the order in which they are tried. */
  predicate Separators(seps: seq<string>) {
    |seps| == 4 && seps[0] == "\n\n" && seps[1] == "\n" && seps[2] == ". " && seps[3] == " "
  }

  // ---- _split_text: where a window closes ----

  /** The separator stands at `j`, past the start, in the last two thirds of the window and wholly inside it. */
  ghost predicate Candidate(text: string, size: nat, start: nat, sep: string, j: int) {
    j > start && j >= start + size / 3 && At(text, sep, j, start + size)
  }

  ghost predicate NoCandidate(text: string, size: nat, start: nat, sep: string) {
    forall j :: !Candidate(text, size, start, sep, j)
  }

  ghost predicate LastCandidate(text: string, size: nat, start: nat, sep: string, j: int) {
    Candidate(text, size, start, sep, j) && forall m :: Candidate(text, size, start, sep, m) ==> m <= j
  }

  /** Separator `k` is the first one that has a candidate, and `j` is its last. */
  ghost predicate Decides(text: string, size: nat, start: nat, seps: seq<string>, k: int, j: int) {
    && 0 <= k < |seps| && LastCandidate(text, size, start, seps[k], j)
    && forall m :: 0 <= m < k ==> NoCandidate(text, size, start, seps[m])
  }

  /** The window ends after the last candidate of the first separator that has one, else at the size. */
  ghost predicate CutsAt(text: string, size: nat, start: nat, seps: seq<string>, end: int) {
    || (exists k, j :: Decides(text, size, start, seps, k, j) && end == j + |seps[k]|)
    || (end == start + size && forall k :: 0 <= k < |seps| ==> NoCandidate(text, size, start, seps[k]))
  }

  /** A window that reaches the end of the text ends there. */
  ghost predicate Closes(text: string, size: nat, start: nat, seps: seq<string>, end: int) {
    if start + size >= |text| then end == |text| else CutsAt(text, size, start, seps, end)
  }

  lemma FoundExactly(text: string, size: nat, start: nat, sep: string, lo: nat, hi: nat, idx: int)
    requires hi == start + size <= |text| && lo == start + size / 3 && idx == RFind(text, sep, lo, hi)
    ensures idx > start ==> LastCandidate(text, size, start, sep, idx)
    ensures idx <= start ==> NoCandidate(text, size, start, sep)
  {
  }

  lemma CutsAtNext(text: string, size: nat, start: nat, seps: seq<string>, end: int)
    requires seps != [] && NoCandidate(text, size, start, seps[0]) && CutsAt(text, size, start, seps[1..], end)
    ensures CutsAt(text, size, start, seps, end)
  {
    if k, j :| Decides(text, size, start, seps[1..], k, j) && end == j + |seps[1..][k]| {
      forall m | 0 <= m < k + 1 ensures NoCandidate(text, size, start, seps[m]) {
        if m > 0 {
          assert NoCandidate(text, size, start, seps[1..][m - 1]);
        }
      }
      assert Decides(text, size, start, seps, k + 1, j);
    } else {
      forall k | 0 <= k < |seps| ensures NoCandidate(text, size, start, seps[k]) {
        if k > 0 {
          assert NoCandidate(text, size, start, seps[1..][k - 1]);
        }
      }
    }
  }

  lemma {:induction false} CutExactly(text: string, size: nat, start: nat, seps: seq<string>, lo: nat, hi: nat)
    requires 1 <= size && hi == start + size <= |text| && lo == start + size / 3
    ensures CutsAt(text, size, start, seps, CutAt(text, start, lo, hi, seps))
  {
    if seps != [] {
      var idx := RFind(text, seps[0], lo, hi);
      FoundExactly(text, size, start, seps[0], lo, hi, idx);
      if idx > start {
        assert Decides(text, size, start, seps, 0, idx);
      } else {
        CutExactly(text, size, start, seps[1..], lo, hi);
        CutsAtNext(text, size, start, seps, CutAt(text, start, lo, hi, seps[1..]));
      }
    }
  }

  lemma WindowExactly(text: string, size: nat, start: nat, seps: seq<string>)
    requires 1 <= size && start < |text| && Separators(seps)
    ensures Closes(text, size, start, seps, WindowEnd(text, size, start))
  {
    assert seps == SEPARATORS;
    if start + size < |text| {
      CutExactly(text, size, start, seps, start + size / 3, start + size);
    }
  }

  /** The cuts run from `start` to the end of the text, and each window closes where it has to. */
  ghost predicate CutFrom(text: string, size: nat, start: nat, seps: seq<string>, cuts: seq<nat>) {
    && cuts != [] && cuts[0] == start && cuts[|cuts| - 1] == |text| && Rising(cuts, |text|)
    && forall i :: 0 <= i < |cuts| - 1 ==> Closes(text, size, cuts[i], seps, cuts[i + 1])
  }

  predicate Rising(cuts: seq<nat>, limit: nat) {
    && (forall i :: 0 <= i < |cuts| ==> cuts[i] <= limit)
    && (forall i :: 0 <= i < |cuts| - 1 ==> cuts[i] < cuts[i + 1])
  }

  /** What trimming leaves of the stretches between the cuts, without those of which it leaves nothing. */
  function Trimmings(text: string, cuts: seq<nat>, ws: Space): seq<string>
    requires Rising(cuts, |text|)
  {
    if |cuts| <= 1 then []
    else
      var piece := Strip(text[cuts[0]..cuts[1]], ws);
      (if piece == "" then [] else [piece]) + Trimmings(text, cuts[1..], ws)
  }

  lemma CutCons(text: string, size: nat, start: nat, seps: seq<string>, end: nat, rest: seq<nat>, ws: Space)
    requires start < end <= |text| && Closes(text, size, start, seps, end) && CutFrom(text, size, end, seps, rest)
    ensures CutFrom(text, size, start, seps, [start] + rest)
    ensures Trimmings(text, [start] + rest, ws) == Keep(Strip(text[start..end], ws)) + Trimmings(text, rest, ws)
  {
    var cuts := [start] + rest;
    assert cuts[1..] == rest;
    forall i | 0 <= i < |cuts| - 1 ensures cuts[i] < cuts[i + 1] && Closes(text, size, cuts[i], seps, cuts[i + 1]) {
      if i > 0 {
        assert cuts[i] == rest[i - 1] && cuts[i + 1] == rest[i];
      }
    }
  }

  lemma {:induction false} CutsOf(text: string, size: nat, start: nat, ws: Space, seps: seq<string>)
    returns (cuts: seq<nat>)
    requires 1 <= size && start <= |text| && Separators(seps)
    ensures CutFrom(text, size, start, seps, cuts)
    ensures SplitFrom(text, size, ws, start) == Trimmings(text, cuts, ws)
    decreases |text| - start
  {
    if start == |text| {
      cuts := [start];
    } else {
      var end := WindowEnd(text, size, start);
      WindowExactly(text, size, start, seps);
      var rest := CutsOf(text, size, end, ws, seps);
      CutCons(text, size, start, seps, end, rest, ws);
      cuts := [start] + rest;
    }
  }

  /** The pieces of a text: the whole of it if it fits; else what the windows leave, each of which ends after the
      last candidate of the first separator that has one, and at the size if none has. */
  lemma SplitExactly(text: string, size: nat, ws: Space, seps: seq<string>) returns (cuts: seq<nat>)
    requires 1 <= size && Separators(seps)
    ensures |text| <= size ==> SplitText(text, size, ws) == if Strip(text, ws) == "" then [] else [Strip(text, ws)]
    ensures |text| > size ==> CutFrom(text, size, 0, seps, cuts)
    ensures |text| > size ==> SplitText(text, size, ws) == Trimmings(text, cuts, ws)
  {
    cuts := CutsOf(text, size, 0, ws, seps);
  }

  // ---- _split_by_headings: which body belongs to which heading ----

  /** What is before the first heading comes first, if it is not blank; then, heading by heading, the heading's text
      trimmed and all that follows it up to the next. */
  ghost predicate CutByHeadings(text: string, hs: seq<Heading>, ws: Space, sections: seq<Section>)
    requires ValidHeadings(text, hs) && hs != []
  {
    var pre := Strip(text[..hs[0].start], ws);
    var first := if pre == "" then 0 else 1;
    && |sections| == first + |hs|
    && (pre != "" ==> sections[0] == Section(None, pre))
    && forall i :: 0 <= i < |hs| ==> sections[first + i] == Under(text, hs, ws, i)
  }

  /** The section of heading `i`. */
  function Under(text: string, hs: seq<Heading>, ws: Space, i: nat): Section
    requires ValidHeadings(text, hs) && i < |hs|
  {
    Section(Some(Strip(hs[i].title, ws)), text[hs[i].end..if i + 1 < |hs| then hs[i + 1].start else |text|])
  }

  lemma {:induction false} SectionsAfterExactly(text: string, hs: seq<Heading>, ws: Space)
    requires ValidHeadings(text, hs)
    ensures |SectionsAfter(text, hs, ws)| == |hs|
    ensures forall i :: 0 <= i < |hs| ==> SectionsAfter(text, hs, ws)[i] == Under(text, hs, ws, i)
  {
    if hs != [] {
      SectionsAfterExactly(text, hs[1..], ws);
    }
  }

  lemma SectionsExactly(text: string, hs: seq<Heading>, ws: Space)
    requires ValidHeadings(text, hs)
    ensures hs == [] ==> SplitByHeadings(text, hs, ws) == [Section(None, text)]
    ensures hs != [] ==> CutByHeadings(text, hs, ws, SplitByHeadings(text, hs, ws))
  {
    SectionsAfterExactly(text, hs, ws);
  }

  // ---- the records ----

  /** The text with the document's title and the section's heading in front, each in brackets if there is one. */
  function Labelled(text: string, title: string, heading: string): string {
    if title != "" && heading != "" then "[기획서: " + title + "] [섹션: " + heading + "]\n" + text
    else if title != "" then "[기획서: " + title + "]\n" + text
    else if heading != "" then "[섹션: " + heading + "]\n" + text
    else text
  }

  function Entry(meta: Metadata, key: string): string {
    if key in meta then meta[key] else ""
  }

  lemma EnrichExactly(text: string, meta: Metadata)
    ensures Enrich(text, meta) == Labelled(text, Entry(meta, "spec_title"), Entry(meta, "section_heading"))
  {
    var title, heading := Entry(meta, "spec_title"), Entry(meta, "section_heading");
    assert "[기획서: " + title + "]" + "" + "" + "\n" + text == "[기획서: " + title + "]\n" + text;
    assert "" + "" + ("[섹션: " + heading + "]") + "\n" + text == "[섹션: " + heading + "]\n" + text;
    assert ("[기획서: " + title + "]") + " " + ("[섹션: " + heading + "]") + "\n" + text
      == "[기획서: " + title + "] [섹션: " + heading + "]\n" + text;
  }

  /** The record is made from the section: under its heading, with its text or a piece of it, and with the base
      metadata and the heading. */
  ghost predicate MadeFrom(r: ChunkRecord, s: Section, base: Metadata, ws: Space) {
    && r.sectionHeading == s.heading
    && r.metadata
      == (if s.heading.Some? && s.heading.value != "" then base["section_heading" := s.heading.value] else base)
    && (r.chunkType == Parent ==>
      r.content == r.embedText == Strip(s.body, ws) && |r.content| > 400 && r.parentChunkIndex == None)
    && (r.chunkType == Child ==>
      && Contains(Strip(s.body, ws), r.content) && 0 < |r.content| <= 400
      && r.embedText == Labelled(r.content, Entry(r.metadata, "spec_title"), Entry(r.metadata, "section_heading"))
      && (r.parentChunkIndex.Some? <==> |Strip(s.body, ws)| > 400))
  }

  lemma GroupMade(s: Section, base: Metadata, p: int, c: int, ws: Space, i: nat)
    requires i < |GroupRecords(GroupOf(s, ws), base, p, c)|
    ensures MadeFrom(GroupRecords(GroupOf(s, ws), base, p, c)[i], s, base, ws)
  {
    var g := GroupOf(s, ws);
    GroupIsWellCut(s, ws);
    var parent := if NeedsParent(g) then Some(p) else None;
    ChildRecordsAt(g.pieces, g.heading, base, c, parent);
    var k := if NeedsParent(g) then i - 1 else i;
    if 0 <= k {
      assert g.pieces[k] in g.pieces && Piece(g.body, CHILD_CHARS, ws, g.pieces[k]);
      EnrichExactly(g.pieces[k], SectionMeta(g.heading, base));
    }
  }

  /** Every record comes from one of the groups. */
  lemma {:induction false} NumberFrom(groups: seq<Group>, base: Metadata, p: int, c: int, i: nat)
    returns (k: nat, p': int, c': int, x: nat)
    requires i < |Number(groups, base, p, c)|
    ensures k < |groups| && x < |GroupRecords(groups[k], base, p', c')|
    ensures Number(groups, base, p, c)[i] == GroupRecords(groups[k], base, p', c')[x]
  {
    var mine := GroupRecords(groups[0], base, p, c);
    if i < |mine| {
      k, p', c', x := 0, p, c, i;
    } else {
      var later, q, d, y := NumberFrom(groups[1..], base, NextParent(groups[0], p), c + |groups[0].pieces|, i - |mine|);
      k, p', c', x := later + 1, q, d, y;
    }
  }

  /** Every record is made from one of the sections: it stands under that section's heading. */
  lemma RecordsExactly(text: string, hs: seq<Heading>, base: Metadata, ws: Space, i: nat) returns (k: nat)
    requires ValidHeadings(text, hs) && i < |Chunk(text, hs, base, ws)|
    ensures k < |SplitByHeadings(text, hs, ws)|
    ensures MadeFrom(Chunk(text, hs, base, ws)[i], SplitByHeadings(text, hs, ws)[k], base, ws)
  {
    var sections := SplitByHeadings(text, hs, ws);
    var n, p, c, x := NumberFrom(Groups(sections, ws), base, -1, 0, i);
    GroupsAt(sections, ws);
    GroupMade(sections[n], base, p, c, ws, x);
    k := n;
  }
}
