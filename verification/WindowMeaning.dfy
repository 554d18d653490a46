/** The overlapping splitter and the spec chunks (app/services/chunking.py), on the characters of the text: where a
    window ends and the next one starts, where a chunk is found, and which heading it is given. */
module WindowMeaning {
  import opened Text
  import opened OverlapSplitter
  import opened SpecChunks

  // ---- where a window ends ----

  predicate Separators(seps: seq<string>) {
    |seps| == 5 && seps[0] == "\n\n" && seps[1] == "\n" && seps[2] == ". " && seps[3] == " " && seps[4] == ""
  }

  /** A separator of one character or more stands at `j` in the piece. */
  ghost predicate Stands(piece: string, seps: seq<string>, j: int) {
    exists k :: 0 <= k < |seps| && StandsAt(piece, seps[k], j)
  }

  predicate StandsAt(piece: string, sep: string, j: int) {
    sep != "" && At(piece, sep, j, |piece|)
  }

  /** The last place in the piece where any separator stands. */
  ghost predicate LastStand(piece: string, seps: seq<string>, j: int) {
    Stands(piece, seps, j) && forall m :: Stands(piece, seps, m) ==> m <= j
  }

  lemma StandsFurther(piece: string, seps: seq<string>, j: int)
    requires seps != []
    ensures Stands(piece, seps, j) <==> StandsAt(piece, seps[0], j) || Stands(piece, seps[1..], j)
  {
    if k :| 0 <= k < |seps[1..]| && StandsAt(piece, seps[1..][k], j) {
      assert StandsAt(piece, seps[k + 1], j);
    }
    if k :| 0 <= k < |seps| && StandsAt(piece, seps[k], j) && k > 0 {
      assert StandsAt(piece, seps[1..][k - 1], j);
    }
  }

  lemma {:induction false} BestCutExactly(piece: string, seps: seq<string>)
    ensures BestCut(piece, seps) >= 0 ==> LastStand(piece, seps, BestCut(piece, seps))
    ensures BestCut(piece, seps) == -1 ==> forall j :: !Stands(piece, seps, j)
  {
    if seps != [] {
      BestCutExactly(piece, seps[1..]);
      forall j ensures Stands(piece, seps, j) <==> StandsAt(piece, seps[0], j) || Stands(piece, seps[1..], j) {
        StandsFurther(piece, seps, j);
      }
    }
  }

  /** Two characters past the last separator, if that is in the last two thirds; else at the size; and at the end
      of the text when that is in reach. */
  ghost predicate EndsAt(text: string, size: nat, start: nat, seps: seq<string>, end: int) {
    if start + size >= |text| then end == |text|
    else
      var piece := text[start..start + size];
      || (exists j :: LastStand(piece, seps, j) && j > size / 3 && end == start + j + 2)
      || (end == start + size && forall j :: Stands(piece, seps, j) ==> j <= size / 3)
  }

  lemma WindowExactly(text: string, size: nat, start: nat, seps: seq<string>)
    requires 1 <= size && start < |text| && Separators(seps)
    ensures EndsAt(text, size, start, seps, WindowEnd(text, size, start))
  {
    assert seps == SEPARATORS;
    if start + size < |text| {
      BestCutExactly(text[start..start + size], seps);
    }
  }

  // ---- the windows, one after another ----

  /** The overlap before the end, or the end itself where that would not advance. */
  function After(w: Window, overlap: nat): int {
    if w.end - overlap > w.start then w.end - overlap else w.end
  }

  /** From `start` on, each window ends where it has to and starts where the one before says; the last one leaves
      nothing. */
  ghost predicate Chain(windows: seq<Window>, text: string, size: nat, overlap: nat, seps: seq<string>, start: nat) {
    && (windows == [] <==> start >= |text|)
    && (windows != [] ==> windows[0].start == start && After(windows[|windows| - 1], overlap) == |text|)
    && (forall i :: 0 <= i < |windows| ==> EndsAt(text, size, windows[i].start, seps, windows[i].end))
    && (forall i :: 0 <= i < |windows| - 1 ==> windows[i + 1].start == After(windows[i], overlap))
  }

  lemma ChainCons(w: Window, rest: seq<Window>, text: string, size: nat, overlap: nat, seps: seq<string>, next: nat)
    requires EndsAt(text, size, w.start, seps, w.end) && next == After(w, overlap) <= |text| && w.start < |text|
    requires Chain(rest, text, size, overlap, seps, next)
    ensures Chain([w] + rest, text, size, overlap, seps, w.start)
  {
    var all := [w] + rest;
    forall i | 0 <= i < |all| - 1 ensures all[i + 1].start == After(all[i], overlap) {
      if i > 0 {
        assert all[i] == rest[i - 1] && all[i + 1] == rest[i];
      }
    }
    if rest != [] {
      assert all[|all| - 1] == rest[|rest| - 1];
    }
  }

  lemma {:induction false} WindowsExactly(text: string, size: nat, overlap: nat, start: nat, seps: seq<string>)
    requires 1 <= size && start <= |text| && Separators(seps)
    ensures Chain(Windows(text, size, overlap, start), text, size, overlap, seps, start)
    decreases |text| - start
  {
    if start < |text| {
      var end := WindowEnd(text, size, start);
      var next := NextStart(start, end, overlap);
      WindowExactly(text, size, start, seps);
      WindowsExactly(text, size, overlap, next, seps);
      ChainCons(Window(start, end), Windows(text, size, overlap, next), text, size, overlap, seps, next);
    }
  }

  /** What trimming leaves of each window, without those of which it leaves nothing. */
  function Trimmings(text: string, windows: seq<Window>, ws: Space): seq<string>
    requires Inside(windows, text)
  {
    if windows == [] then []
    else
      var piece := Strip(text[windows[0].start..windows[0].end], ws);
      (if piece == "" then [] else [piece]) + Trimmings(text, windows[1..], ws)
  }

  lemma {:induction false} PiecesExactly(text: string, windows: seq<Window>, ws: Space)
    requires Inside(windows, text)
    ensures Pieces(text, windows, ws) == Trimmings(text, windows, ws)
  {
    if windows != [] {
      PiecesExactly(text, windows[1..], ws);
    }
  }

  /** The chunks of a text: the whole of it, untrimmed, if it fits and is not blank; else what trimming leaves of the
      windows. */
  lemma SplitExactly(text: string, size: nat, overlap: nat, ws: Space, seps: seq<string>) returns (windows: seq<Window>)
    requires 1 <= size && Separators(seps)
    ensures |text| <= size ==>
      Split(text, size, overlap, ws) == if forall i :: 0 <= i < |text| ==> ws(text[i]) then [] else [text]
    ensures |text| > size ==> Inside(windows, text) && Chain(windows, text, size, overlap, seps, 0)
    ensures |text| > size ==> Split(text, size, overlap, ws) == Trimmings(text, windows, ws)
  {
    windows := Windows(text, size, overlap, 0);
    WindowsExactly(text, size, overlap, 0, seps);
    WindowsInside(text, size, overlap, 0);
    PiecesExactly(text, windows, ws);
    BlankExactly(text, ws);
  }

  lemma BlankExactly(text: string, ws: Space)
    ensures Strip(text, ws) == "" <==> forall i :: 0 <= i < |text| ==> ws(text[i])
  {
    var i, j := StripIsSlice(text, ws);
  }

  // ---- where a chunk is found ----

  /** From where chunk `i` is searched: half of the last chunk found past its place, at least one character. */
  function SearchFrom(chunks: seq<string>, ps: seq<Option<nat>>, i: nat): nat
    requires i <= |chunks| && i <= |ps|
  {
    if i == 0 then 0
    else if ps[i - 1].Some? then ps[i - 1].value + (if |chunks[i - 1]| >= 2 then |chunks[i - 1]| / 2 else 1)
    else SearchFrom(chunks, ps, i - 1)
  }

  /** The first place at or after `from` where the chunk stands, if there is one. */
  ghost predicate FirstPlace(text: string, chunk: string, from: nat, p: Option<nat>) {
    match p
    case None => forall j :: j >= from ==> !At(text, chunk, j, |text|)
    case Some(pos) =>
      pos >= from && At(text, chunk, pos, |text|) && forall j :: from <= j < pos ==> !At(text, chunk, j, |text|)
  }

  /** The search from `cursor` for the first chunk, and from where it says for the others. */
  function SearchAfter(chunks: seq<string>, ps: seq<Option<nat>>, i: nat, cursor: nat): nat
    requires i <= |chunks| && i <= |ps|
  {
    if i == 0 then cursor
    else if ps[i - 1].Some? then ps[i - 1].value + (if |chunks[i - 1]| >= 2 then |chunks[i - 1]| / 2 else 1)
    else SearchAfter(chunks, ps, i - 1, cursor)
  }

  lemma {:induction false} SearchShift(chunks: seq<string>, ps: seq<Option<nat>>, i: nat, cursor: nat, next: nat)
    requires 0 < i <= |chunks| && i <= |ps| && next == SearchAfter(chunks, ps, 1, cursor)
    ensures SearchAfter(chunks, ps, i, cursor) == SearchAfter(chunks[1..], ps[1..], i - 1, next)
  {
    if i > 1 {
      SearchShift(chunks, ps, i - 1, cursor, next);
      assert chunks[1..][i - 2] == chunks[i - 1] && ps[1..][i - 2] == ps[i - 1];
    }
  }

  lemma {:induction false} LocateFrom(text: string, chunks: seq<string>, cursor: nat, ps: seq<Option<nat>>)
    requires ps == Locate(text, chunks, cursor)
    ensures |ps| == |chunks|
    ensures forall i :: 0 <= i < |ps| ==> FirstPlace(text, chunks[i], SearchAfter(chunks, ps, i, cursor), ps[i])
  {
    if chunks != [] {
      var pos := Find(text, chunks[0], cursor);
      var next := if pos >= 0 then pos + Max(1, |chunks[0]| / 2) else cursor;
      var rest := Locate(text, chunks[1..], next);
      assert ps == [if pos >= 0 then Some(pos) else None] + rest && ps[1..] == rest;
      LocateFrom(text, chunks[1..], next, rest);
      assert SearchAfter(chunks, ps, 1, cursor) == next;
      forall i | 0 <= i < |ps| ensures FirstPlace(text, chunks[i], SearchAfter(chunks, ps, i, cursor), ps[i]) {
        if i > 0 {
          SearchShift(chunks, ps, i, cursor, next);
          assert FirstPlace(text, chunks[1..][i - 1], SearchAfter(chunks[1..], rest, i - 1, next), rest[i - 1]);
        }
      }
    }
  }

  lemma {:induction false} SearchSame(chunks: seq<string>, ps: seq<Option<nat>>, i: nat)
    requires i <= |chunks| && i <= |ps|
    ensures SearchAfter(chunks, ps, i, 0) == SearchFrom(chunks, ps, i)
  {
    if i > 0 {
      SearchSame(chunks, ps, i - 1);
    }
  }

  /** Each chunk is given the first place at or after the point that the last found chunk leaves. */
  lemma LocateExactly(text: string, chunks: seq<string>, ps: seq<Option<nat>>, i: nat)
    requires ps == Locate(text, chunks, 0)
    ensures |ps| == |chunks|
    ensures i < |ps| ==> FirstPlace(text, chunks[i], SearchFrom(chunks, ps, i), ps[i])
  {
    LocateFrom(text, chunks, 0, ps);
    if i < |ps| {
      SearchSame(chunks, ps, i);
    }
  }

  // ---- headings and lines ----

  /** The heading of a chunk: the last one at or above the line on which it was found, unless its title is empty. */
  lemma HeadingExactly(text: string, headers: seq<Header>, l: Located)
    requires Hinted(text, headers, l) && SpecChunks.Ordered(headers)
    ensures l.pos == None ==> l.heading == None
    ensures l.pos.Some? ==> l.pos.value <= |text|
    ensures l.pos.Some? && l.heading.Some? ==>
      l.heading.value != "" && exists i: nat ::
        LastAt(headers, Newlines(text[..l.pos.value]), i) && headers[i].title == l.heading.value
    ensures l.pos.Some? && l.heading.None? ==>
      exists i :: LastAt(headers, Newlines(text[..l.pos.value]), i) && (i == -1 || headers[i].title == "")
  {
  }

  function Join(lines: seq<string>): string {
    if lines == [] then "" else if |lines| == 1 then lines[0] else lines[0] + "\n" + Join(lines[1..])
  }

  /** The lines are the text between the newlines: joined by newlines they are the text, and none has one. */
  lemma {:induction false} LinesExactly(text: string)
    ensures Lines(text) != [] && Join(Lines(text)) == text
    ensures forall i :: 0 <= i < |Lines(text)| ==> '\n' !in Lines(text)[i]
    decreases |text|
  {
    var n := FirstLine(text);
    assert '\n' !in text[..n];
    if n < |text| {
      LinesExactly(text[n + 1..]);
      assert Lines(text)[1..] == Lines(text[n + 1..]);
      assert text == text[..n] + "\n" + text[n + 1..];
    }
  }
}
