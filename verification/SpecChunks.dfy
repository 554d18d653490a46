/** `chunk_spec_text` (app/services/chunking.py): chunks of a spec body with the
    heading each one falls under, found by searching the text again.
    Lines are separated by '\n' only. */
module SpecChunks {
  import opened Text
  import opened OverlapSplitter
  import H = HeadingChunker

  /** A heading line: its line number, and its title. */
  datatype Header = Header(line: nat, title: string)

  /** A chunk, the position where the search found it, and the heading it was given. */
  datatype Located = Located(chunk: string, pos: Option<nat>, heading: Option<string>)

  function Newlines(s: string): nat {
    if s == [] then 0 else (if s[0] == '\n' then 1 else 0) + Newlines(s[1..])
  }

  function FirstLine(s: string): (n: nat)
    ensures n <= |s|
    ensures forall i :: 0 <= i < n ==> s[i] != '\n'
    ensures n < |s| ==> s[n] == '\n'
  {
    if s == [] || s[0] == '\n' then 0 else 1 + FirstLine(s[1..])
  }

  /** The lines of the text; a final newline opens one more, empty, line. */
  function Lines(s: string): seq<string>
    decreases |s|
  {
    var n := FirstLine(s);
    if n == |s| then [s] else [s[..n]] + Lines(s[n + 1..])
  }

  // ---- extract_markdown_headers, nearest_header ----

  /** `title` is the pattern match on one trimmed line: the heading's text, if the line is one. */
  function HeadersFrom(lines: seq<string>, title: string -> Option<string>, line: nat): seq<Header> {
    if lines == [] then []
    else
      (match title(lines[0])
       case None => []
       case Some(t) => [Header(line, t)]) + HeadersFrom(lines[1..], title, line + 1)
  }

  lemma HeadersStep(lines: seq<string>, title: string -> Option<string>, i: nat, done: seq<Header>, done': seq<Header>)
    requires i < |lines|
    requires done' == if title(lines[i]).Some? then done + [Header(i, title(lines[i]).value)] else done
    ensures done' + HeadersFrom(lines[i + 1..], title, i + 1) == done + HeadersFrom(lines[i..], title, i)
  {
    assert lines[i..][1..] == lines[i + 1..];
    var rest := HeadersFrom(lines[i + 1..], title, i + 1);
    if title(lines[i]).Some? {
      H.Assoc(done, [Header(i, title(lines[i]).value)], rest);
    } else {
      assert [] + rest == rest;
    }
  }

  method ExtractHeaders(lines: seq<string>, title: string -> Option<string>) returns (headers: seq<Header>)
    ensures headers == HeadersFrom(lines, title, 0)
  {
    headers := [];
    assert lines[0..] == lines;
    for i := 0 to |lines|
      invariant headers + HeadersFrom(lines[i..], title, i) == HeadersFrom(lines, title, 0)
    {
      ghost var before := headers;
      var m := title(lines[i]);
      if m.Some? {
        headers := headers + [Header(i, m.value)];
      }
      HeadersStep(lines, title, i, before, headers);
    }
  }

  ghost predicate Ordered(headers: seq<Header>) {
    forall i, j :: 0 <= i < j < |headers| ==> headers[i].line < headers[j].line
  }

  /** Header `i` is the last one at or above the line. */
  ghost predicate LastAt(headers: seq<Header>, line: nat, i: int) {
    && -1 <= i < |headers|
    && (forall k :: 0 <= k <= i ==> headers[k].line <= line)
    && (forall k :: i < k < |headers| ==> headers[k].line > line)
  }

  /** `title` is that of the last header at or above the line, if there is one. */
  ghost predicate LastAbove(headers: seq<Header>, line: nat, title: Option<string>) {
    exists i :: LastAt(headers, line, i) && title == if i == -1 then None else Some(headers[i].title)
  }

  method NearestHeader(line: nat, headers: seq<Header>) returns (cur: Option<string>)
    requires Ordered(headers)
    ensures LastAbove(headers, line, cur)
  {
    cur := None;
    for i := 0 to |headers|
      invariant forall k :: 0 <= k < i ==> headers[k].line <= line
      invariant cur == if i == 0 then None else Some(headers[i - 1].title)
    {
      if headers[i].line <= line {
        cur := Some(headers[i].title);
      } else {
        assert LastAt(headers, line, i - 1);
        return;
      }
    }
    assert LastAt(headers, line, |headers| - 1);
  }

  /** The headers are in line order, and each is the heading of its own line. */
  lemma {:induction false} HeadersOrdered(lines: seq<string>, title: string -> Option<string>, line: nat)
    ensures Ordered(HeadersFrom(lines, title, line)) && OwnLines(HeadersFrom(lines, title, line), lines, title, line)
  {
    if lines != [] {
      var tail := lines[1..];
      HeadersOrdered(tail, title, line + 1);
      var rest := HeadersFrom(tail, title, line + 1);
      OwnLinesTail(rest, lines, title, line);
      if title(lines[0]).Some? {
        FirstHeader(Header(line, title(lines[0]).value), rest, lines, title, line);
      } else {
        assert HeadersFrom(lines, title, line) == rest;
      }
    }
  }

  ghost predicate OwnLine(h: Header, lines: seq<string>, title: string -> Option<string>, line: nat) {
    line <= h.line < line + |lines| && title(lines[h.line - line]) == Some(h.title)
  }

  ghost predicate OwnLines(hs: seq<Header>, lines: seq<string>, title: string -> Option<string>, line: nat) {
    forall k :: 0 <= k < |hs| ==> OwnLine(hs[k], lines, title, line)
  }

  lemma OwnLinesTail(hs: seq<Header>, lines: seq<string>, title: string -> Option<string>, line: nat)
    requires lines != [] && OwnLines(hs, lines[1..], title, line + 1)
    ensures OwnLines(hs, lines, title, line) && forall k :: 0 <= k < |hs| ==> hs[k].line > line
  {
    forall k | 0 <= k < |hs| ensures OwnLine(hs[k], lines, title, line) && hs[k].line > line {
      assert OwnLine(hs[k], lines[1..], title, line + 1);
      assert lines[hs[k].line - line] == lines[1..][hs[k].line - (line + 1)];
    }
  }

  lemma FirstHeader(h: Header, rest: seq<Header>, lines: seq<string>, title: string -> Option<string>, line: nat)
    requires lines != [] && h == Header(line, h.title) && title(lines[0]) == Some(h.title)
    requires Ordered(rest) && OwnLines(rest, lines, title, line) && forall k :: 0 <= k < |rest| ==> rest[k].line > line
    ensures Ordered([h] + rest) && OwnLines([h] + rest, lines, title, line)
  {
  }

  /** No heading line is left out. */
  lemma {:induction false} HeadersComplete(lines: seq<string>, title: string -> Option<string>, line: nat, i: nat)
    requires i < |lines| && title(lines[i]).Some?
    ensures Header(line + i, title(lines[i]).value) in HeadersFrom(lines, title, line)
  {
    if i > 0 {
      assert lines[i] == lines[1..][i - 1];
      HeadersComplete(lines[1..], title, line + 1, i - 1);
    }
  }

  // ---- where the search finds each chunk ----

  function Locate(text: string, chunks: seq<string>, cursor: nat): seq<Option<nat>> {
    if chunks == [] then []
    else
      var pos := Find(text, chunks[0], cursor);
      if pos >= 0 then [Some(pos)] + Locate(text, chunks[1..], pos + Max(1, |chunks[0]| / 2))
      else [None] + Locate(text, chunks[1..], cursor)
  }

  lemma {:induction false} LocateFound(text: string, chunks: seq<string>, cursor: nat)
    ensures var ps := Locate(text, chunks, cursor);
      && |ps| == |chunks|
      && (forall i :: 0 <= i < |ps| && ps[i].Some? ==>
        cursor <= ps[i].value && At(text, chunks[i], ps[i].value, |text|))
      && (forall i, j :: 0 <= i < j < |ps| && ps[i].Some? && ps[j].Some? ==> ps[i].value < ps[j].value)
  {
    if chunks != [] {
      var pos := Find(text, chunks[0], cursor);
      var next := if pos >= 0 then pos + Max(1, |chunks[0]| / 2) else cursor;
      LocateFound(text, chunks[1..], next);
    }
  }

  /** Half the chunk, by which the cursor moves on, stays clear of the overlap with the next one. For overlaps
      of 2 or more: the chunk has at least `2 * overlap - 1` characters. */
  predicate LongEnough(chunk: string, overlap: nat) {
    Max(1, |chunk| / 2) + overlap <= |chunk|
  }

  lemma LongEnoughExactly(chunk: string, overlap: nat)
    ensures overlap >= 2 ==> (LongEnough(chunk, overlap) <==> |chunk| >= 2 * overlap - 1)
    ensures overlap <= 1 ==> (LongEnough(chunk, overlap) <==> |chunk| >= 1 + overlap)
  {
  }

  ghost predicate AllLongEnough(chunks: seq<string>, overlap: nat) {
    forall i :: 0 <= i < |chunks| - 1 ==> LongEnough(chunks[i], overlap)
  }

  /** If every chunk but the last is long enough, the halved cursor never runs past the next chunk: every
      chunk is found, at or before the place it was cut from. */
  lemma {:induction false} LocateAll(text: string, chunks: seq<string>, origins: seq<nat>, overlap: nat, limit: nat,
                                     cursor: nat)
    requires Placed(text, chunks, origins, overlap, limit) && AllLongEnough(chunks, overlap)
    requires chunks != [] ==> cursor <= origins[0]
    ensures |Locate(text, chunks, cursor)| == |chunks|
    ensures forall i :: 0 <= i < |chunks| ==>
      Locate(text, chunks, cursor)[i].Some? && Locate(text, chunks, cursor)[i].value <= origins[i]
  {
    if chunks != [] {
      var pos := FirstFound(text, chunks, origins, overlap, limit, cursor);
      TailPlaced(text, chunks, origins, overlap, limit);
      LocateAll(text, chunks[1..], origins[1..], overlap, limit, pos + Max(1, |chunks[0]| / 2));
    }
  }

  lemma FirstFound(text: string, chunks: seq<string>, origins: seq<nat>, overlap: nat, limit: nat, cursor: nat)
    returns (pos: nat)
    requires Placed(text, chunks, origins, overlap, limit) && AllLongEnough(chunks, overlap)
    requires chunks != [] && cursor <= origins[0]
    ensures pos == Find(text, chunks[0], cursor) && pos <= origins[0]
    ensures |chunks| > 1 ==> pos + Max(1, |chunks[0]| / 2) <= origins[1]
  {
    assert At(text, chunks[0], origins[0], |text|);
    assert 0 <= Find(text, chunks[0], cursor) <= origins[0];
    pos := Find(text, chunks[0], cursor);
    if |chunks| > 1 {
      assert Spacing(chunks[0], origins[0], origins[1], overlap) && LongEnough(chunks[0], overlap);
    }
  }

  lemma TailPlaced(text: string, chunks: seq<string>, origins: seq<nat>, overlap: nat, limit: nat)
    requires Placed(text, chunks, origins, overlap, limit) && AllLongEnough(chunks, overlap) && chunks != []
    ensures Placed(text, chunks[1..], origins[1..], overlap, limit) && AllLongEnough(chunks[1..], overlap)
  {
    forall i | 0 <= i < |chunks| - 2
      ensures Spacing(chunks[1..][i], origins[1..][i], origins[1..][i + 1], overlap)
    {
      assert Spacing(chunks[i + 1], origins[i + 1], origins[i + 2], overlap);
    }
  }

  // ---- chunk_spec_text ----

  function HeadingHint(found: Option<string>): Option<string> {
    if found.Some? && found.value != "" then found else None
  }

  ghost predicate Hinted(text: string, headers: seq<Header>, l: Located) {
    match l.pos
    case None => l.heading == None
    case Some(pos) =>
      pos <= |text| && exists t :: LastAbove(headers, Newlines(text[..pos]), t) && l.heading == HeadingHint(t)
  }

  /** The chunks dealt with so far. */
  ghost predicate Dealt(text: string, headers: seq<Header>, chunks: seq<string>, all: seq<Option<nat>>,
                        out: seq<Located>)
    requires |out| <= |chunks| == |all|
  {
    forall i :: 0 <= i < |out| ==> out[i].chunk == chunks[i] && out[i].pos == all[i] && Hinted(text, headers, out[i])
  }

  /** The positions still to come are those of the chunks still to come, searched from the cursor. */
  ghost predicate Ahead(text: string, chunks: seq<string>, all: seq<Option<nat>>, k: nat, cursor: nat) {
    |all| == |chunks| && k <= |chunks| && all[k..] == Locate(text, chunks[k..], cursor)
  }

  ghost predicate Step(text: string, chunk: string, cursor: nat, pos: Option<nat>, next: nat) {
    var found := Find(text, chunk, cursor);
    && pos == (if found >= 0 then Some(found) else None)
    && next == if found >= 0 then found + Max(1, |chunk| / 2) else cursor
  }

  lemma LocateStep(text: string, chunks: seq<string>, cursor: nat, pos: Option<nat>, next: nat)
    requires chunks != [] && Step(text, chunks[0], cursor, pos, next)
    ensures Locate(text, chunks, cursor) == [pos] + Locate(text, chunks[1..], next)
  {
  }

  lemma AheadStep(text: string, chunks: seq<string>, all: seq<Option<nat>>, k: nat, cursor: nat, pos: Option<nat>,
                  next: nat)
    requires k < |chunks| && Ahead(text, chunks, all, k, cursor) && Step(text, chunks[k], cursor, pos, next)
    ensures all[k] == pos && Ahead(text, chunks, all, k + 1, next)
  {
    var ahead := chunks[k..];
    assert ahead[0] == chunks[k] && ahead[1..] == chunks[k + 1..];
    LocateStep(text, ahead, cursor, pos, next);
    assert all[k] == all[k..][0] && all[k + 1..] == all[k..][1..];
  }

  lemma DealtMore(text: string, headers: seq<Header>, chunks: seq<string>, all: seq<Option<nat>>, out: seq<Located>,
                  l: Located)
    requires |out| < |chunks| == |all| && Dealt(text, headers, chunks, all, out)
    requires l.chunk == chunks[|out|] && l.pos == all[|out|] && Hinted(text, headers, l)
    ensures Dealt(text, headers, chunks, all, out + [l])
  {
  }

  /** The position of one chunk, and the heading above it. */
  method LocateOne(text: string, chunk: string, headers: seq<Header>, cursor: nat) returns (l: Located, next: nat)
    requires Ordered(headers)
    ensures l.chunk == chunk && Hinted(text, headers, l) && Step(text, chunk, cursor, l.pos, next)
  {
    var pos := Find(text, chunk, cursor);
    if pos >= 0 {
      var line := Newlines(text[..pos]);
      var h := NearestHeader(line, headers);
      return Located(chunk, Some(pos), HeadingHint(h)), pos + Max(1, |chunk| / 2);
    }
    return Located(chunk, None, None), cursor;
  }

  method LocateLoop(text: string, chunks: seq<string>, headers: seq<Header>) returns (out: seq<Located>)
    requires Ordered(headers)
    ensures |out| == |chunks| == |Locate(text, chunks, 0)|
    ensures Dealt(text, headers, chunks, Locate(text, chunks, 0), out)
  {
    out := [];
    var cursor := 0;
    ghost var all := Locate(text, chunks, 0);
    LocateFound(text, chunks, 0);
    assert chunks[0..] == chunks && all[0..] == all;
    for k := 0 to |chunks|
      invariant |out| == k && 0 <= cursor
      invariant Ahead(text, chunks, all, k, cursor)
      invariant Dealt(text, headers, chunks, all, out)
    {
      var l, next := LocateOne(text, chunks[k], headers, cursor);
      AheadStep(text, chunks, all, k, cursor, l.pos, next);
      DealtMore(text, headers, chunks, all, out, l);
      out, cursor := out + [l], next;
    }
  }

  /** The split, each chunk with the position the search gives it and the heading above that position. */
  method ChunkSpecText(text: string, title: string -> Option<string>, size: nat, overlap: nat, ws: Space)
    returns (out: seq<Located>)
    requires 1 <= size
    ensures var chunks, headers := Split(text, size, overlap, ws), HeadersFrom(Lines(text), title, 0);
      && |out| == |chunks| == |Locate(text, chunks, 0)|
      && (forall i :: 0 <= i < |out| ==>
        out[i].chunk == chunks[i] && out[i].pos == Locate(text, chunks, 0)[i] && Hinted(text, headers, out[i]))
  {
    var headers := ExtractHeaders(Lines(text), title);
    HeadersOrdered(Lines(text), title, 0);
    var chunks := SplitLoop(text, size, overlap, ws);
    out := LocateLoop(text, chunks, headers);
  }

  /** Found positions strictly increase; and if every chunk but the last is long enough, every chunk is found,
      no later than the place its window cut it from. */
  lemma SplitLocated(text: string, size: nat, overlap: nat, ws: Space, chunks: seq<string>, ps: seq<Option<nat>>)
    returns (origins: seq<nat>)
    requires 1 <= size && chunks == Split(text, size, overlap, ws) && ps == Locate(text, chunks, 0)
    ensures |text| > size ==> origins == Origins(text, Windows(text, size, overlap, 0), ws)
    ensures |ps| == |chunks| == |origins|
    ensures forall i, j :: 0 <= i < j < |ps| && ps[i].Some? && ps[j].Some? ==> ps[i].value < ps[j].value
    ensures AllLongEnough(chunks, overlap) ==> (forall i :: 0 <= i < |ps| ==> ps[i].Some? && ps[i].value <= origins[i])
  {
    origins := SplitPlaced(text, size, overlap, ws);
    LocateFound(text, chunks, 0);
    if AllLongEnough(chunks, overlap) {
      LocateAll(text, chunks, origins, overlap, Max(|text|, size + 1), 0);
    }
  }

  lemma WholePlaced(text: string, size: nat, overlap: nat, ws: Space) returns (origins: seq<nat>)
    requires 1 <= size && |text| <= size
    ensures Placed(text, Split(text, size, overlap, ws), origins, overlap, Max(|text|, size + 1))
  {
    origins := if Strip(text, ws) != [] then [0] else [];
    assert At(text, text, 0, |text|);
  }

  lemma PlacedWithin(text: string, chunks: seq<string>, origins: seq<nat>, overlap: nat, limit: nat, limit': nat)
    requires Placed(text, chunks, origins, overlap, limit) && limit <= limit'
    ensures Placed(text, chunks, origins, overlap, limit')
  {
  }

  lemma LongPlaced(text: string, size: nat, overlap: nat, ws: Space, chunks: seq<string>, origins: seq<nat>, limit: nat)
    requires 1 <= size < |text| && size + 1 <= limit && chunks == Split(text, size, overlap, ws)
    requires Inside(Windows(text, size, overlap, 0), text)
      && origins == Origins(text, Windows(text, size, overlap, 0), ws)
    ensures Placed(text, chunks, origins, overlap, limit)
  {
    ChunksPlaced(text, size, overlap, ws, 0);
    PlacedWithin(text, chunks, origins, overlap, size + 1, limit);
  }

  lemma SplitPlaced(text: string, size: nat, overlap: nat, ws: Space) returns (origins: seq<nat>)
    requires 1 <= size
    ensures Placed(text, Split(text, size, overlap, ws), origins, overlap, Max(|text|, size + 1))
    ensures |text| > size ==> origins == Origins(text, Windows(text, size, overlap, 0), ws)
  {
    if |text| <= size {
      origins := WholePlaced(text, size, overlap, ws);
    } else {
      WindowsInside(text, size, overlap, 0);
      origins := Origins(text, Windows(text, size, overlap, 0), ws);
      LongPlaced(text, size, overlap, ws, Split(text, size, overlap, ws), origins, Max(|text|, size + 1));
    }
  }

  /** A text in which one character stands out. */
  function Marked(n: nat, mark: nat): string {
    seq(n, i => if i == mark then 'b' else 'a')
  }

  lemma MarkedTrimmed(n: nat, mark: nat, w: Window, ws: Space)
    requires w.start < w.end <= n && !ws('a') && !ws('b')
    ensures Trimmed(Marked(n, mark), w, ws) == Marked(n, mark)[w.start..w.end]
  {
    StripFixed(Marked(n, mark)[w.start..w.end], ws);
  }

  lemma MarkedPlain(n: nat, mark: nat)
    ensures ' ' !in Marked(n, mark) && '\n' !in Marked(n, mark)
  {
  }

  lemma WindowsInside(text: string, size: nat, overlap: nat, start: nat)
    requires 1 <= size && start <= |text|
    ensures Inside(Windows(text, size, overlap, start), text)
  {
  }

  /** Where no separator occurs, a window is as long as the size, and the next one starts the overlap earlier. */
  lemma PlainWindow(text: string, size: nat, overlap: nat, start: nat, end: nat, next: nat)
    requires 0 < overlap < size && start + size < |text| && ' ' !in text && '\n' !in text
    requires end == start + size && next == end - overlap
    ensures Windows(text, size, overlap, start) == [Window(start, end)] + Windows(text, size, overlap, next)
  {
    NoCut(text, size, start);
    WindowsFrom(text, size, overlap, start, end, next);
  }

  /** The pieces of a text whose first window is known. */
  lemma FirstPiece(text: string, size: nat, overlap: nat, start: nat, next: nat, ws: Space, w: Window, p: string)
    requires 1 <= size && start <= next <= |text| && w.start < w.end <= |text| && p == Trimmed(text, w, ws) != []
    requires Windows(text, size, overlap, start) == [w] + Windows(text, size, overlap, next)
    ensures SplitFrom(text, size, overlap, ws, start) == [p] + SplitFrom(text, size, overlap, ws, next)
  {
    WindowsInside(text, size, overlap, start);
    WindowsInside(text, size, overlap, next);
    PiecesStep(text, w, Windows(text, size, overlap, next), ws);
  }

  /** A window into a text without white space is a piece as it is. */
  lemma PlainPiece(text: string, size: nat, overlap: nat, start: nat, end: nat, next: nat, ws: Space, p: string)
    requires 0 < overlap < size && ' ' !in text && '\n' !in text
    requires end == start + size < |text| && next == end - overlap && p == Trimmed(text, Window(start, end), ws) != []
    ensures SplitFrom(text, size, overlap, ws, start) == [p] + SplitFrom(text, size, overlap, ws, next)
  {
    PlainWindow(text, size, overlap, start, end, next);
    FirstPiece(text, size, overlap, start, next, ws, Window(start, end), p);
  }

  lemma LongSplit(text: string, size: nat, overlap: nat, ws: Space)
    requires 1 <= size < |text|
    ensures Split(text, size, overlap, ws) == SplitFrom(text, size, overlap, ws, 0)
  {
  }

  lemma FirstAtZero(text: string, size: nat)
    requires size <= |text|
    ensures Find(text, text[0..size], 0) == 0
  {
    assert At(text, text[0..size], 0, |text|);
  }

  lemma MarkPassed(overlap: nat, size: nat, text: string, second: string)
    requires overlap >= 3 && size == 2 * overlap - 2 && text == Marked(2 * size, overlap - 2)
    requires second == text[overlap - 2..overlap - 2 + size]
    ensures Find(text, second, overlap - 1) == -1
  {
    assert second[0] == 'b';
    var pos := Find(text, second, overlap - 1);
    if pos >= 0 {
      AtChar(text, second, pos, 0);
    }
  }

  lemma LocateTwo(text: string, first: string, second: string, rest: seq<string>, cursor: nat)
    requires Find(text, first, 0) == 0 && cursor == Max(1, |first| / 2) && Find(text, second, cursor) == -1
    ensures Locate(text, [first] + ([second] + rest), 0) == [Some(0)] + ([None] + Locate(text, rest, cursor))
  {
    var tail := [second] + rest;
    assert ([first] + tail)[1..] == tail && tail[1..] == rest;
    assert Locate(text, tail, cursor) == [None] + Locate(text, rest, cursor);
  }

  /** The second chunk is not found, though the first is one character short of long enough. */
  ghost predicate MissesSecond(text: string, chunks: seq<string>, overlap: nat, ps: seq<Option<nat>>) {
    && |chunks| >= 2 && |ps| >= 2 && ps[0] == Some(0) && ps[1] == None
    && !LongEnough(chunks[0], overlap) && LongEnough(chunks[0] + "a", overlap)
  }

  lemma TwoPlainPieces(text: string, size: nat, overlap: nat, ws: Space, mid: nat, end: nat, first: string,
                       second: string)
    returns (rest: seq<string>)
    requires 0 < overlap < size && mid == size - overlap && end == mid + size < |text|
    requires ' ' !in text && '\n' !in text
    requires first == Trimmed(text, Window(0, size), ws) != []
    requires second == Trimmed(text, Window(mid, end), ws) != []
    ensures Split(text, size, overlap, ws) == [first] + ([second] + rest)
  {
    var last := end - overlap;
    rest := SplitFrom(text, size, overlap, ws, last);
    LongSplit(text, size, overlap, ws);
    PlainPiece(text, size, overlap, 0, size, mid, ws, first);
    PlainPiece(text, size, overlap, mid, end, last, ws, second);
  }

  lemma MarkedSplit(overlap: nat, size: nat, ws: Space, text: string, mid: nat, end: nat, first: string, second: string)
    returns (rest: seq<string>)
    requires overlap >= 3 && size == 2 * overlap - 2 && mid == overlap - 2 && end == mid + size && !ws('a') && !ws('b')
    requires text == Marked(2 * size, mid) && first == text[0..size] && second == text[mid..end]
    ensures Split(text, size, overlap, ws) == [first] + ([second] + rest)
  {
    MarkedPlain(2 * size, mid);
    MarkedTrimmed(2 * size, mid, Window(0, size), ws);
    MarkedTrimmed(2 * size, mid, Window(mid, end), ws);
    rest := TwoPlainPieces(text, size, overlap, ws, mid, end, first, second);
  }

  lemma SecondMissed(text: string, first: string, second: string, rest: seq<string>, overlap: nat, chunks: seq<string>)
    requires overlap >= 3 && |first| == 2 * overlap - 2 && chunks == [first] + ([second] + rest)
    requires Find(text, first, 0) == 0 && Find(text, second, overlap - 1) == -1
    ensures MissesSecond(text, chunks, overlap, Locate(text, chunks, 0))
  {
    LocateTwo(text, first, second, rest, overlap - 1);
  }

  /** The length condition is exact to the character: for every overlap from 3 on, in pieces one character
      short of it, there is a text whose second chunk the search misses, because the cursor has passed the
      only place where it stands. */
  lemma ShortChunkMissed(overlap: nat, size: nat, ws: Space, text: string, chunks: seq<string>)
    requires overlap >= 3 && size == 2 * overlap - 2 && !ws('a') && !ws('b')
    requires text == Marked(2 * size, overlap - 2) && chunks == Split(text, size, overlap, ws)
    ensures MissesSecond(text, chunks, overlap, Locate(text, chunks, 0))
  {
    var first, second := text[0..size], text[overlap - 2..overlap - 2 + size];
    var rest := MarkedSplit(overlap, size, ws, text, overlap - 2, overlap - 2 + size, first, second);
    FirstAtZero(text, size);
    MarkPassed(overlap, size, text, second);
    SecondMissed(text, first, second, rest, overlap, chunks);
  }

  /** A text that is mostly blank at first: white space, one visible character that stands out, and a long
      plain rest. */
  function Indented(size: nat): string
    requires size >= 1
  {
    seq(3 * size, i => if i < size - 1 then '\t' else if i == size - 1 then 'b' else 'a')
  }

  /** What is left of a window of such a text begins with the character that stands out. */
  lemma IndentedTrimmed(size: nat, text: string, w: Window, ws: Space)
    requires size >= 1 && text == Indented(size) && w.start < size <= w.end <= 3 * size
    requires ws('\t') && !ws('a') && !ws('b')
    ensures Trimmed(text, w, ws) == text[size - 1..w.end]
  {
    var piece := text[w.start..w.end];
    var i, j := StripIsSlice(piece, ws);
    assert piece[size - 1 - w.start] == 'b' && piece[|piece| - 1] == text[w.end - 1];
    assert i == size - 1 - w.start && j == |piece|;
    assert piece[i..j] == text[size - 1..w.end];
  }

  lemma StandsOutOnce(size: nat, text: string, second: string)
    requires size >= 1 && text == Indented(size) && second != "" && second[0] == 'b'
    ensures Find(text, second, size) == -1
  {
    var pos := Find(text, second, size);
    if pos >= 0 {
      AtChar(text, second, pos, 0);
    }
  }

  lemma FoundLate(size: nat, text: string)
    requires size >= 1 && text == Indented(size)
    ensures Find(text, "b", 0) == size - 1
  {
    assert At(text, "b", size - 1, |text|);
    var pos := Find(text, "b", 0);
    AtChar(text, "b", pos, 0);
  }

  /** The second chunk is not found, after a first one of a single character. */
  ghost predicate SecondLost(text: string, chunks: seq<string>) {
    var ps := Locate(text, chunks, 0);
    |chunks| >= 2 && |chunks[0]| == 1 && |ps| >= 2 && ps[0].Some? && ps[1] == None
  }

  lemma LocateLost(text: string, second: string, rest: seq<string>, size: nat, chunks: seq<string>)
    requires size >= 1 && Find(text, "b", 0) == size - 1 && Find(text, second, size) == -1
    requires chunks == ["b"] + ([second] + rest)
    ensures SecondLost(text, chunks)
  {
    var tail := [second] + rest;
    assert (["b"] + tail)[1..] == tail && tail[1..] == rest;
    assert Locate(text, tail, size) == [None] + Locate(text, rest, size);
  }

  /** Windows of any size and overlap can give chunks too short to go on from, because they are trimmed: for
      every size and positive overlap there is a text whose second chunk the search misses. */
  lemma TrimmedChunkMissed(size: nat, overlap: nat, ws: Space, text: string, chunks: seq<string>)
    requires 0 < overlap < size && text == Indented(size) && chunks == Split(text, size, overlap, ws)
    requires ws('\t') && !ws('a') && !ws('b')
    ensures SecondLost(text, chunks)
  {
    var mid := size - overlap;
    var second, rest := IndentedSplit(size, overlap, ws, text, mid, mid + size);
    FoundLate(size, text);
    StandsOutOnce(size, text, second);
    LocateLost(text, second, rest, size, chunks);
  }

  lemma IndentedSplit(size: nat, overlap: nat, ws: Space, text: string, mid: nat, end: nat)
    returns (second: string, rest: seq<string>)
    requires 0 < overlap < size && text == Indented(size) && mid == size - overlap && end == mid + size
    requires ws('\t') && !ws('a') && !ws('b')
    ensures Split(text, size, overlap, ws) == ["b"] + ([second] + rest) && second != "" && second[0] == 'b'
  {
    second := text[size - 1..end];
    IndentedTrimmed(size, text, Window(0, size), ws);
    IndentedTrimmed(size, text, Window(mid, end), ws);
    IndentedPlain(size, text);
    rest := TwoPlainPieces(text, size, overlap, ws, mid, end, "b", second);
  }

  lemma IndentedPlain(size: nat, text: string)
    requires size >= 1 && text == Indented(size)
    ensures |text| == 3 * size && ' ' !in text && '\n' !in text
    ensures text[size - 1] == 'b' && text[size - 1..size] == "b"
  {
  }

  /** So it happens with the sizes that the callers use. */
  lemma DefaultChunkMissed(ws: Space, text: string)
    requires ws('\t') && !ws('a') && !ws('b') && text == Indented(CHUNK_CHARS)
    ensures SecondLost(text, Split(text, CHUNK_CHARS, OVERLAP_CHARS, ws))
  {
    TrimmedChunkMissed(CHUNK_CHARS, OVERLAP_CHARS, ws, text, Split(text, CHUNK_CHARS, OVERLAP_CHARS, ws));
  }

  // ---- line numbers ----

  /** The position at which line `n` starts. */
  function LineStart(lines: seq<string>, n: nat): nat
    requires n <= |lines|
  {
    if n == 0 then 0 else |lines[0]| + 1 + LineStart(lines[1..], n - 1)
  }

  lemma {:induction false} NewlinesConcat(a: string, b: string)
    ensures Newlines(a + b) == Newlines(a) + Newlines(b)
  {
    if a == [] {
      assert a + b == b;
    } else {
      assert (a + b)[1..] == a[1..] + b;
      NewlinesConcat(a[1..], b);
    }
  }

  lemma {:induction false} NoNewlines(s: string)
    requires forall i :: 0 <= i < |s| ==> s[i] != '\n'
    ensures Newlines(s) == 0
  {
    if s != [] {
      NoNewlines(s[1..]);
    }
  }

  lemma CutInTwo(s: string, i: nat, j: nat, rest: string, n: nat)
    requires i < j <= |s| && rest == s[i + 1..] && n == j - i - 1
    ensures s[..j] == (s[..i] + [s[i]]) + rest[..n]
  {
    assert forall k :: 0 <= k < n ==> rest[k] == s[i + 1 + k];
  }

  lemma NewlineEndsFirst(text: string, first: nat)
    requires first == FirstLine(text) < |text|
    ensures Newlines(text[..first] + [text[first]]) == 1
  {
    assert '\n' !in text[..first];
    OneNewline(text[..first]);
  }

  /** The newlines before a position past the first line: the first line's, and those of the rest. */
  lemma NewlinesAfterFirst(text: string, pos: nat, first: nat, rest: string, p: nat)
    requires first == FirstLine(text) < pos <= |text| && rest == text[first + 1..] && p == pos - first - 1
    ensures Newlines(text[..pos]) == 1 + Newlines(rest[..p])
  {
    var line := text[..first] + [text[first]];
    CutInTwo(text, first, pos, rest, p);
    NewlineEndsFirst(text, first);
    NewlinesSum(text[..pos], line, rest[..p]);
  }

  lemma NewlinesSum(whole: string, a: string, b: string)
    requires whole == a + b
    ensures Newlines(whole) == Newlines(a) + Newlines(b)
  {
    NewlinesConcat(a, b);
  }

  lemma OneNewline(line: string)
    requires '\n' !in line
    ensures Newlines(line + ['\n']) == 1
  {
    NewlinesConcat(line, ['\n']);
    NoNewlines(line);
  }

  predicate OnLine(lines: seq<string>, n: nat, pos: nat) {
    n < |lines| && LineStart(lines, n) <= pos <= LineStart(lines, n) + |lines[n]|
  }

  lemma OnLaterLine(line: string, lines: seq<string>, n: nat, p: nat, all: seq<string>, m: nat, pos: nat)
    requires OnLine(lines, n, p) && all == [line] + lines && m == n + 1 && pos == |line| + 1 + p
    ensures OnLine(all, m, pos)
  {
    assert all[1..] == lines && all[0] == line;
    assert LineStart(all, m) == |line| + 1 + LineStart(lines, n);
  }

  lemma OnFirstLine(text: string, pos: nat)
    requires pos <= FirstLine(text)
    ensures OnLine(Lines(text), 0, pos) && Newlines(text[..pos]) == 0
  {
    NoNewlines(text[..pos]);
  }

  lemma LinesCons(text: string, first: nat, rest: string)
    requires first == FirstLine(text) < |text| && rest == text[first + 1..]
    ensures Lines(text) == [text[..first]] + Lines(rest)
  {
  }

  /** Counting newlines before a position gives the number of the line that holds it. */
  lemma {:induction false} LineOfPosition(text: string, pos: nat)
    requires pos <= |text|
    ensures OnLine(Lines(text), Newlines(text[..pos]), pos)
    decreases |text|
  {
    var first := FirstLine(text);
    if pos <= first {
      OnFirstLine(text, pos);
    } else {
      var rest, p := text[first + 1..], pos - first - 1;
      LineOfPosition(rest, p);
      LaterLine(text, pos, first, rest, p, Newlines(rest[..p]));
    }
  }

  lemma LaterLine(text: string, pos: nat, first: nat, rest: string, p: nat, n: nat)
    requires first == FirstLine(text) < pos <= |text| && rest == text[first + 1..] && p == pos - first - 1
    requires n == Newlines(rest[..p]) && OnLine(Lines(rest), n, p)
    ensures OnLine(Lines(text), Newlines(text[..pos]), pos)
  {
    NewlinesAfterFirst(text, pos, first, rest, p);
    LinesCons(text, first, rest);
    OnLaterLine(text[..first], Lines(rest), n, p, Lines(text), n + 1, pos);
  }
}
