/** The overlapping splitter and its two users: the fixed-size chunker
    (app/spec/chunking.py) and `chunk_spec_text` (app/services/chunking.py). */
module OverlapSplitter {
  import opened Text
  import H = HeadingChunker

  const CHUNK_CHARS: nat := 1800
  const OVERLAP_CHARS: nat := 180
  const SEPARATORS: seq<string> := ["\n\n", "\n", ". ", " ", ""]

  datatype Window = Window(start: nat, end: nat)

  // ---- _split_recursive ----

  /** The last position of any non-empty separator in the piece, or -1. */
  function BestCut(piece: string, seps: seq<string>): (best: int)
    ensures -1 <= best < |piece|
  {
    if seps == [] then -1
    else
      var rest := BestCut(piece, seps[1..]);
      if seps[0] == "" then rest else Max(RFind(piece, seps[0], 0, |piece|), rest)
  }

  lemma {:induction false} BestCutIsLast(piece: string, seps: seq<string>, i: nat, j: nat)
    requires i < |seps| && seps[i] != "" && At(piece, seps[i], j, |piece|)
    ensures BestCut(piece, seps) >= j
  {
    if i > 0 {
      BestCutIsLast(piece, seps[1..], i - 1, j);
    }
  }

  /** The advance past the cut is always that of the first separator, two characters. */
  function WindowEnd(text: string, size: nat, start: nat): (end: nat)
    requires 1 <= size && start < |text|
    ensures start < end <= |text|
    ensures end <= start + size + 1
  {
    var hi := Min(start + size, |text|);
    if hi < |text| then
      var best := BestCut(text[start..hi], SEPARATORS);
      if best > size / 3 then start + best + 2 else hi
    else hi
  }

  function NextStart(start: nat, end: nat, overlap: nat): (next: nat)
    requires start < end
    ensures start < next <= end
  {
    if end - overlap > start then end - overlap else end
  }

  function Windows(text: string, size: nat, overlap: nat, start: nat): (r: seq<Window>)
    requires 1 <= size && start <= |text|
    ensures forall i :: 0 <= i < |r| ==> start <= r[i].start < r[i].end <= |text|
    decreases |text| - start
  {
    if start == |text| then []
    else
      var end := WindowEnd(text, size, start);
      [Window(start, end)] + Windows(text, size, overlap, NextStart(start, end, overlap))
  }

  ghost predicate Inside(windows: seq<Window>, text: string) {
    forall i :: 0 <= i < |windows| ==> windows[i].start < windows[i].end <= |text|
  }

  function Trimmed(text: string, w: Window, ws: Space): string
    requires w.start < w.end <= |text|
  {
    Strip(text[w.start..w.end], ws)
  }

  function Pieces(text: string, windows: seq<Window>, ws: Space): seq<string>
    requires Inside(windows, text)
  {
    if windows == [] then [] else H.Keep(Trimmed(text, windows[0], ws)) + Pieces(text, windows[1..], ws)
  }

  function SplitFrom(text: string, size: nat, overlap: nat, ws: Space, start: nat): seq<string>
    requires 1 <= size && start <= |text|
  {
    Pieces(text, Windows(text, size, overlap, start), ws)
  }

  /** A text that fits is kept whole and untrimmed; a longer one is cut into trimmed windows. */
  function Split(text: string, size: nat, overlap: nat, ws: Space): seq<string>
    requires 1 <= size
  {
    if |text| <= size
    then if Strip(text, ws) != [] then [text] else []
    else SplitFrom(text, size, overlap, ws, 0)
  }

  /** The separator scan: every separator is tried, and the furthest hit wins. */
  method ScanSeparators(piece: string, seps: seq<string>) returns (best: int)
    ensures best == BestCut(piece, seps)
  {
    best := -1;
    assert seps[0..] == seps;
    for k := 0 to |seps|
      invariant -1 <= best
      invariant Max(best, BestCut(piece, seps[k..])) == BestCut(piece, seps)
    {
      assert seps[k..][1..] == seps[k + 1..];
      if seps[k] == "" {
        continue;
      }
      var idx := RFind(piece, seps[k], 0, |piece|);
      if idx > best {
        best := idx;
      }
    }
  }

  method CloseWindow(text: string, size: nat, start: nat) returns (end: nat)
    requires 1 <= size && start < |text|
    ensures end == WindowEnd(text, size, start)
  {
    end := Min(start + size, |text|);
    var piece := text[start..end];
    if end < |text| {
      var best := ScanSeparators(piece, SEPARATORS);
      if best > size / 3 {
        end := start + best + |SEPARATORS[0]|;
      }
    }
  }

  lemma PiecesStep(text: string, w: Window, rest: seq<Window>, ws: Space)
    requires w.start < w.end <= |text| && Inside(rest, text) && Inside([w] + rest, text)
    ensures Pieces(text, [w] + rest, ws) == H.Keep(Trimmed(text, w, ws)) + Pieces(text, rest, ws)
  {
    assert ([w] + rest)[1..] == rest;
  }

  lemma SplitStep(text: string, size: nat, overlap: nat, ws: Space, done: seq<string>, start: nat,
                  end: nat, next: nat, done': seq<string>)
    requires 1 <= size && start < |text| && end == WindowEnd(text, size, start)
    requires next == NextStart(start, end, overlap)
    requires done' == done + H.Keep(Trimmed(text, Window(start, end), ws))
    ensures done' + SplitFrom(text, size, overlap, ws, next) == done + SplitFrom(text, size, overlap, ws, start)
  {
    var w, rest := Window(start, end), Windows(text, size, overlap, next);
    PiecesStep(text, w, rest, ws);
    H.Assoc(done, H.Keep(Trimmed(text, w, ws)), Pieces(text, rest, ws));
  }

  /** The cursor loop. Its own tail checks (`start >= len(text)`, `start <= 0`) are kept. */
  method SplitLoop(text: string, size: nat, overlap: nat, ws: Space) returns (chunks: seq<string>)
    requires 1 <= size
    ensures chunks == Split(text, size, overlap, ws)
  {
    if |text| <= size {
      var blank := Strip(text, ws) == [];
      return if blank then [] else [text];
    }
    chunks := [];
    var start := 0;
    ghost var whole := SplitFrom(text, size, overlap, ws, 0);
    while start < |text|
      invariant 0 <= start <= |text|
      invariant chunks + SplitFrom(text, size, overlap, ws, start) == whole
      decreases |text| - start
    {
      var end := CloseWindow(text, size, start);
      var piece := Strip(text[start..end], ws);
      ghost var before, from := chunks, start;
      if piece != [] {
        chunks := chunks + [piece];
      }
      start := if end - overlap > start then end - overlap else end;
      SplitStep(text, size, overlap, ws, before, from, end, start, chunks);
      if start >= |text| {
        break;
      }
      if start <= 0 {
        start := end;
      }
    }
  }

  // ---- what the windows are ----

  /** Windows advance, leave no gap, overlap by at most `overlap`, and exceed the size by at most one. */
  ghost predicate Tiling(ws: seq<Window>, from: nat, to: nat, size: nat, overlap: nat) {
    && (from < to ==> ws != [] && ws[0].start == from && ws[|ws| - 1].end == to)
    && (forall i :: 0 <= i < |ws| ==> from <= ws[i].start < ws[i].end <= to && ws[i].end <= ws[i].start + size + 1)
    && (forall i :: 0 <= i < |ws| - 1 ==> Follows(ws[i], ws[i + 1], overlap))
  }

  predicate Follows(a: Window, b: Window, overlap: nat) {
    a.start < b.start <= a.end && a.end - b.start <= overlap
  }

  lemma {:induction false} WindowsTile(text: string, size: nat, overlap: nat, start: nat)
    requires 1 <= size && start <= |text|
    ensures Tiling(Windows(text, size, overlap, start), start, |text|, size, overlap)
    decreases |text| - start
  {
    if start < |text| {
      var end := WindowEnd(text, size, start);
      var next := NextStart(start, end, overlap);
      var rest := Windows(text, size, overlap, next);
      WindowsTile(text, size, overlap, next);
      var all := [Window(start, end)] + rest;
      if next == |text| {
        assert rest == [];
      } else {
        assert all[|all| - 1] == rest[|rest| - 1];
      }
      forall i | 0 <= i < |all| - 1 ensures Follows(all[i], all[i + 1], overlap) {
        if i > 0 {
          assert Follows(rest[i - 1], rest[i], overlap);
        }
      }
    }
  }

  /** With the default sizes, a window that does not reach the end of the text advances by 423 or more. */
  lemma DefaultAdvance(text: string, start: nat)
    requires start < |text|
    ensures var end := WindowEnd(text, CHUNK_CHARS, start);
      end < |text| ==> NextStart(start, end, OVERLAP_CHARS) >= start + 423
  {
  }

  /** A window that reaches the end of the text is followed by another one exactly when there is an overlap
      and it is shorter than the window. */
  lemma AnotherWindowExactly(text: string, size: nat, overlap: nat, start: nat)
    requires 1 <= size && start < |text| && WindowEnd(text, size, start) == |text|
    ensures |Windows(text, size, overlap, start)| > 1 <==> 0 < overlap < |text| - start
  {
    var next := NextStart(start, |text|, overlap);
    if next < |text| {
      assert Windows(text, size, overlap, next) != [];
    }
  }

  /** The last of the windows lies wholly inside the one before it. */
  predicate EndsTwice(windows: seq<Window>, to: nat, overlap: nat)
    requires overlap <= to
  {
    var n := |windows|;
    n >= 2 && windows[n - 1] == Window(to - overlap, to) && windows[n - 2].end == to
      && windows[n - 2].start < to - overlap
  }

  /** While more than the overlap is left, the windows end with the end of the text cut twice. */
  lemma {:induction false} EndCutTwice(text: string, size: nat, overlap: nat, start: nat)
    requires 0 < overlap <= size / 3 + 2 && overlap < size && start + overlap < |text|
    ensures EndsTwice(Windows(text, size, overlap, start), |text|, overlap)
    decreases |text| - start
  {
    var end := WindowEnd(text, size, start);
    if end == |text| {
      var next := |text| - overlap;
      assert WindowEnd(text, size, next) == |text|;
      assert NextStart(start, |text|, overlap) == next && NextStart(next, |text|, overlap) == |text|;
      assert Windows(text, size, overlap, |text|) == [];
      assert Windows(text, size, overlap, next) == [Window(next, |text|)];
    } else {
      var next := NextStart(start, end, overlap);
      EndCutTwice(text, size, overlap, next);
    }
  }

  /** So with the default sizes the end of every text that is cut at all is cut twice. */
  lemma RedundantTail(text: string)
    requires |text| > CHUNK_CHARS
    ensures EndsTwice(Windows(text, CHUNK_CHARS, OVERLAP_CHARS, 0), |text|, OVERLAP_CHARS)
  {
    EndCutTwice(text, CHUNK_CHARS, OVERLAP_CHARS, 0);
  }

  function Spaced(n: nat): string {
    seq(n, i => 'a')
  }

  /** The bound of one character over the size is reached, for every size of two or more. */
  lemma OversizeIsTight(size: nat, overlap: nat)
    requires 2 <= size
    ensures var text := Spaced(size - 1) + " bb";
      WindowEnd(text, size, 0) == size + 1
  {
    var text := Spaced(size - 1) + " bb";
    var piece := text[0..size];
    assert At(piece, SEPARATORS[3], size - 1, |piece|);
    BestCutIsLast(piece, SEPARATORS, 3, size - 1);
    assert BestCut(piece, SEPARATORS) == size - 1;
  }

  lemma AtChar(s: string, sep: string, j: nat, i: nat)
    requires i < |sep| && At(s, sep, j, |s|)
    ensures s[j + i] == sep[i] && sep[i] in s
  {
    assert s[j..j + |sep|][i] == s[j + i];
  }

  lemma NotFound(piece: string, sep: string, i: nat)
    requires i < |sep| && sep[i] !in piece
    ensures RFind(piece, sep, 0, |piece|) == -1
  {
    var r := RFind(piece, sep, 0, |piece|);
    if r >= 0 {
      AtChar(piece, sep, r, i);
    }
  }

  /** No separator occurs in the piece. */
  predicate NothingToCut(piece: string, seps: seq<string>) {
    forall i :: 0 <= i < |seps| ==> seps[i] == "" || RFind(piece, seps[i], 0, |piece|) == -1
  }

  lemma {:induction false} BestCutNone(piece: string, seps: seq<string>)
    requires NothingToCut(piece, seps)
    ensures BestCut(piece, seps) == -1
  {
    if seps != [] {
      assert seps[0] == "" || RFind(piece, seps[0], 0, |piece|) == -1;
      var rest := seps[1..];
      forall i | 0 <= i < |rest| ensures rest[i] == "" || RFind(piece, rest[i], 0, |piece|) == -1 {
        assert rest[i] == seps[i + 1];
      }
      BestCutNone(piece, rest);
    }
  }

  predicate HasBlank(sep: string) {
    exists k :: 0 <= k < |sep| && (sep[k] == ' ' || sep[k] == '\n')
  }

  /** Every separator has a blank or a newline in it. */
  lemma SeparatorsHaveBlanks(i: nat)
    requires i < |SEPARATORS|
    ensures SEPARATORS[i] == "" || HasBlank(SEPARATORS[i])
  {
    var sep := SEPARATORS[i];
    if i == 0 || i == 1 {
      assert sep[0] == '\n';
    } else if i == 2 {
      assert sep[1] == ' ';
    } else if i == 3 {
      assert sep[0] == ' ';
    }
  }

  lemma NotCutThere(piece: string, sep: string)
    requires HasBlank(sep) && ' ' !in piece && '\n' !in piece
    ensures RFind(piece, sep, 0, |piece|) == -1
  {
    var k :| 0 <= k < |sep| && (sep[k] == ' ' || sep[k] == '\n');
    NotFound(piece, sep, k);
  }

  lemma NoBestCut(piece: string)
    requires ' ' !in piece && '\n' !in piece
    ensures BestCut(piece, SEPARATORS) == -1
  {
    forall i | 0 <= i < |SEPARATORS| ensures SEPARATORS[i] == "" || RFind(piece, SEPARATORS[i], 0, |piece|) == -1 {
      SeparatorsHaveBlanks(i);
      if SEPARATORS[i] != "" {
        NotCutThere(piece, SEPARATORS[i]);
      }
    }
    BestCutNone(piece, SEPARATORS);
  }

  /** Without blanks and newlines there is nowhere to cut but at the size. */
  lemma NoCut(text: string, size: nat, start: nat)
    requires 1 <= size && start < |text| && ' ' !in text && '\n' !in text
    ensures WindowEnd(text, size, start) == Min(start + size, |text|)
  {
    NoBestCut(text[start..Min(start + size, |text|)]);
  }

  lemma WindowsFrom(text: string, size: nat, overlap: nat, start: nat, end: nat, next: nat)
    requires 1 <= size && start < |text| && end == WindowEnd(text, size, start)
      && next == NextStart(start, end, overlap)
    ensures Windows(text, size, overlap, start) == [Window(start, end)] + Windows(text, size, overlap, next)
  {
  }

  // ---- from windows to chunks ----

  /** Every position of the text lies in some window. */
  lemma {:induction false} WindowsCover(text: string, size: nat, overlap: nat, start: nat, pos: nat) returns (k: nat)
    requires 1 <= size && start <= pos < |text|
    ensures var r := Windows(text, size, overlap, start); k < |r| && r[k].start <= pos < r[k].end
    decreases |text| - start
  {
    var end := WindowEnd(text, size, start);
    var next := NextStart(start, end, overlap);
    if pos < end {
      k := 0;
    } else {
      var k' := WindowsCover(text, size, overlap, next, pos);
      k := k' + 1;
    }
  }

  /** Where the trimmed text of each non-blank window starts. */
  function Origins(text: string, windows: seq<Window>, ws: Space): seq<nat>
    requires Inside(windows, text)
  {
    if windows == [] then []
    else
      var w := windows[0];
      (if Trimmed(text, w, ws) == [] then [] else [Origin(text, w, ws)])
      + Origins(text, windows[1..], ws)
  }

  lemma TrimmedAt(text: string, w: Window, ws: Space)
    requires w.start < w.end <= |text|
    ensures var p := Trimmed(text, w, ws); var o := w.start + Lead(text[w.start..w.end], ws);
      At(text, p, o, |text|) && w.start <= o && o + |p| <= w.end
  {
    var window := text[w.start..w.end];
    var i, j := StripIsSlice(window, ws);
    SliceOfSlice(text, w.start, w.end, i, j);
  }

  /** Chunk `a` stands at `o`; the next one starts at `o'`, no earlier than `overlap` before the end of `a`. */
  predicate Spacing(a: string, o: nat, o': nat, overlap: nat) {
    o' >= o + |a| - overlap
  }

  ghost predicate Placed(text: string, chunks: seq<string>, origins: seq<nat>, overlap: nat, limit: nat) {
    && |origins| == |chunks|
    && (forall i :: 0 <= i < |chunks| ==>
      chunks[i] != [] && |chunks[i]| <= limit && At(text, chunks[i], origins[i], |text|))
    && (forall i :: 0 <= i < |chunks| - 1 ==> Spacing(chunks[i], origins[i], origins[i + 1], overlap))
  }

  lemma PlacedCons(text: string, p: string, o: nat, chunks: seq<string>, origins: seq<nat>, overlap: nat, limit: nat)
    requires Placed(text, chunks, origins, overlap, limit)
    requires p != [] && |p| <= limit && At(text, p, o, |text|)
    requires origins != [] ==> Spacing(p, o, origins[0], overlap)
    ensures Placed(text, [p] + chunks, [o] + origins, overlap, limit)
  {
    var cs, os := [p] + chunks, [o] + origins;
    forall i | 0 <= i < |cs| - 1 ensures Spacing(cs[i], os[i], os[i + 1], overlap) {
      if i > 0 {
        assert Spacing(chunks[i - 1], origins[i - 1], origins[i], overlap);
      }
    }
  }

  function Origin(text: string, w: Window, ws: Space): nat
    requires w.start < w.end <= |text|
  {
    w.start + Lead(text[w.start..w.end], ws)
  }

  lemma OriginsStep(text: string, w: Window, rest: seq<Window>, ws: Space)
    requires w.start < w.end <= |text| && Inside(rest, text) && Inside([w] + rest, text)
    ensures Origins(text, [w] + rest, ws)
      == (if Trimmed(text, w, ws) == [] then [] else [Origin(text, w, ws)]) + Origins(text, rest, ws)
  {
    assert ([w] + rest)[1..] == rest;
  }

  lemma PlacedStep(text: string, w: Window, ws: Space, chunks: seq<string>, origins: seq<nat>, overlap: nat, limit: nat)
    requires w.start < w.end <= |text| && w.end - w.start <= limit
    requires Placed(text, chunks, origins, overlap, limit)
    requires origins != [] ==> w.start <= origins[0] && w.end - overlap <= origins[0]
    ensures var p := Trimmed(text, w, ws); var os := (if p == [] then [] else [Origin(text, w, ws)]) + origins;
      Placed(text, H.Keep(p) + chunks, os, overlap, limit) && (os != [] ==> os[0] >= w.start)
  {
    var p := Trimmed(text, w, ws);
    TrimmedAt(text, w, ws);
    if p == [] {
      assert H.Keep(p) + chunks == chunks && [] + origins == origins;
    } else {
      PlacedCons(text, p, Origin(text, w, ws), chunks, origins, overlap, limit);
    }
  }

  /** The chunks of the windows stand where their windows put them: in order, starting at `from` or
      later, with bounded overlap and bounded size. */
  ghost predicate PlacedFrom(text: string, windows: seq<Window>, ws: Space, overlap: nat, limit: nat, from: nat)
    requires Inside(windows, text)
  {
    var origins := Origins(text, windows, ws);
    Placed(text, Pieces(text, windows, ws), origins, overlap, limit) && (origins != [] ==> origins[0] >= from)
  }

  lemma PlacedFromCons(text: string, w: Window, rest: seq<Window>, ws: Space, overlap: nat, limit: nat, next: nat)
    requires w.start < w.end <= |text| && w.end - w.start <= limit && Inside(rest, text) && Inside([w] + rest, text)
    requires w.start <= next && w.end - overlap <= next && PlacedFrom(text, rest, ws, overlap, limit, next)
    ensures PlacedFrom(text, [w] + rest, ws, overlap, limit, w.start)
  {
    PiecesStep(text, w, rest, ws);
    OriginsStep(text, w, rest, ws);
    PlacedStep(text, w, ws, Pieces(text, rest, ws), Origins(text, rest, ws), overlap, limit);
  }

  lemma {:induction false} ChunksPlaced(text: string, size: nat, overlap: nat, ws: Space, start: nat)
    requires 1 <= size && start <= |text|
    ensures PlacedFrom(text, Windows(text, size, overlap, start), ws, overlap, size + 1, start)
    decreases |text| - start
  {
    if start < |text| {
      var end := WindowEnd(text, size, start);
      var next := NextStart(start, end, overlap);
      ChunksPlaced(text, size, overlap, ws, next);
      PlacedFromCons(text, Window(start, end), Windows(text, size, overlap, next), ws, overlap, size + 1, next);
    }
  }

  /** Every chunk of a long text is non-empty, at most one character over the size, and cut out of the text. */
  lemma ChunkSizes(text: string, size: nat, overlap: nat, ws: Space)
    requires 1 <= size
    ensures forall c :: c in Split(text, size, overlap, ws) ==> c != [] && |c| <= size + 1 && Contains(text, c)
  {
    if |text| > size {
      ChunksPlaced(text, size, overlap, ws, 0);
      var windows := Windows(text, size, overlap, 0);
      var chunks, origins := Pieces(text, windows, ws), Origins(text, windows, ws);
      forall c | c in chunks ensures Contains(text, c) {
        var i :| 0 <= i < |chunks| && chunks[i] == c;
        assert At(text, c, origins[i], |text|);
      }
    } else if Strip(text, ws) != [] {
      assert text != [];
      assert At(text, text, 0, |text|);
    }
  }

  // ---- FixedSizeChunker.chunk ----

  /** An independent child record made from one piece. */
  ghost predicate Independent(r: H.ChunkRecord, base: H.Metadata) {
    && r.chunkType == H.Child && r.parentChunkIndex == None && r.sectionHeading == None
    && r.metadata == base && r.embedText == H.Enrich(r.content, base)
  }

  method RecordsOf(raw: seq<string>, base: H.Metadata) returns (records: seq<H.ChunkRecord>)
    ensures |records| == |raw| && H.Consecutive(records, 0, 1)
    ensures forall i :: 0 <= i < |raw| ==> records[i].content == raw[i] && Independent(records[i], base)
  {
    records := [];
    for i := 0 to |raw|
      invariant |records| == i && H.Consecutive(records, 0, 1)
      invariant forall k :: 0 <= k < i ==> records[k].content == raw[k] && Independent(records[k], base)
    {
      records := records + [H.ChunkRecord(raw[i], H.Enrich(raw[i], base), H.Child, i, None, None, base)];
    }
  }

  /** Every piece of the split becomes an independent child record, numbered by its position. */
  method FixedSizeChunk(text: string, base: H.Metadata, size: nat, overlap: nat, ws: Space)
    returns (records: seq<H.ChunkRecord>)
    requires 1 <= size
    ensures |records| == |Split(text, size, overlap, ws)| && H.Consecutive(records, 0, 1)
    ensures forall i :: 0 <= i < |records| ==>
      records[i].content == Split(text, size, overlap, ws)[i] && Independent(records[i], base)
  {
    var raw := SplitLoop(text, size, overlap, ws);
    records := RecordsOf(raw, base);
  }
}
