/** Strings as the chunkers use them: trimming, searching, and the text that is
    left when white space is ignored. What counts as white space is a parameter
    (`ws`), so every result holds for any notion of it. */
module Text {

  datatype Option<+T> = None | Some(value: T)

  type Space = char -> bool

  function Min(a: int, b: int): int {
    if a <= b then a else b
  }

  function Max(a: int, b: int): int {
    if a <= b then b else a
  }

  /** The number of leading white-space characters. */
  function Lead(s: string, ws: Space): (n: nat)
    ensures n <= |s|
    ensures forall i :: 0 <= i < n ==> ws(s[i])
    ensures n < |s| ==> !ws(s[n])
  {
    if s == [] || !ws(s[0]) then 0 else 1 + Lead(s[1..], ws)
  }

  /** The length of the text without its trailing white space. */
  function Tail(s: string, ws: Space): (n: nat)
    ensures n <= |s|
    ensures forall i :: n <= i < |s| ==> ws(s[i])
    ensures n > 0 ==> !ws(s[n - 1])
  {
    if s == [] || !ws(s[|s| - 1]) then |s| else Tail(s[..|s| - 1], ws)
  }

  /** Python's `str.strip`. */
  function Strip(s: string, ws: Space): string {
    var left := s[Lead(s, ws)..];
    left[..Tail(left, ws)]
  }

  /** The text with every white-space character removed. */
  function Visible(s: string, ws: Space): string {
    if s == [] then [] else (if ws(s[0]) then [] else [s[0]]) + Visible(s[1..], ws)
  }

  function Flatten(parts: seq<string>): string {
    if parts == [] then [] else parts[0] + Flatten(parts[1..])
  }

  /** The separator `sep` stands at position `i` inside `s[..hi]`. */
  predicate At(s: string, sep: string, i: int, hi: int) {
    0 <= i && i + |sep| <= hi <= |s| && s[i..i + |sep|] == sep
  }

  ghost predicate Contains(whole: string, part: string) {
    exists i :: At(whole, part, i, |whole|)
  }

  /** Python's `s.rfind(sep, lo, hi)`: the last position, or -1. */
  function RFind(s: string, sep: string, lo: nat, hi: nat): (r: int)
    requires lo <= hi <= |s|
    ensures r == -1 || (lo <= r && At(s, sep, r, hi))
    ensures forall j :: j > r && j >= lo ==> !At(s, sep, j, hi)
  {
    if hi - lo < |sep| then -1 else RFindDown(s, sep, lo, hi, hi - |sep|)
  }

  function RFindDown(s: string, sep: string, lo: nat, hi: nat, i: int): (r: int)
    requires lo <= hi <= |s| && lo - 1 <= i <= hi - |sep|
    ensures r == -1 || (lo <= r <= i && At(s, sep, r, hi))
    ensures forall j :: r < j <= i && j >= lo ==> !At(s, sep, j, hi)
    decreases i - lo + 1
  {
    if i < lo then -1 else if s[i..i + |sep|] == sep then i else RFindDown(s, sep, lo, hi, i - 1)
  }

  /** Python's `s.find(sep, lo)`: the first position at or after `lo`, or -1. */
  function Find(s: string, sep: string, lo: nat): (r: int)
    ensures r == -1 || (lo <= r && At(s, sep, r, |s|))
    ensures r == -1 ==> forall j :: j >= lo ==> !At(s, sep, j, |s|)
    ensures r >= 0 ==> forall j :: lo <= j < r ==> !At(s, sep, j, |s|)
    decreases |s| - lo
  {
    if lo + |sep| > |s| then -1
    else if s[lo..lo + |sep|] == sep then lo
    else Find(s, sep, lo + 1)
  }

  lemma SliceOfSlice<T>(s: seq<T>, a: nat, b: nat, i: nat, j: nat)
    requires a <= b <= |s| && i <= j <= b - a
    ensures s[a..b][i..j] == s[a + i..a + j]
  {
    var x, y := s[a..b][i..j], s[a + i..a + j];
    assert |x| == |y|;
    forall k | 0 <= k < |x| ensures x[k] == y[k] {
      assert x[k] == s[a..b][i + k] == s[a + i + k];
    }
  }

  // ---- trimming ----

  /** Strip cuts one contiguous piece out, and only white space is cut off. */
  lemma StripIsSlice(s: string, ws: Space) returns (i: nat, j: nat)
    ensures i <= j <= |s| && Strip(s, ws) == s[i..j]
    ensures i == Lead(s, ws)
    ensures forall k :: 0 <= k < i || j <= k < |s| ==> ws(s[k])
    ensures i < j ==> !ws(s[i]) && !ws(s[j - 1])
  {
    i := Lead(s, ws);
    var left := s[i..];
    j := i + Tail(left, ws);
    assert left[..Tail(left, ws)] == s[i..j];
    forall k | j <= k < |s| ensures ws(s[k]) {
      assert left[k - i] == s[k];
    }
    if i < j {
      assert left[0] == s[i] && left[j - i - 1] == s[j - 1];
    }
  }

  lemma {:induction false} VisibleConcat(a: string, b: string, ws: Space)
    ensures Visible(a + b, ws) == Visible(a, ws) + Visible(b, ws)
  {
    if a == [] {
      assert a + b == b;
    } else {
      assert (a + b)[1..] == a[1..] + b;
      VisibleConcat(a[1..], b, ws);
    }
  }

  lemma {:induction false} VisibleBlank(s: string, ws: Space)
    requires forall i :: 0 <= i < |s| ==> ws(s[i])
    ensures Visible(s, ws) == []
  {
    if s != [] {
      VisibleBlank(s[1..], ws);
    }
  }

  lemma VisibleStrip(s: string, ws: Space)
    ensures Visible(Strip(s, ws), ws) == Visible(s, ws)
  {
    var i, j := StripIsSlice(s, ws);
    assert s == s[..i] + s[i..j] + s[j..];
    VisibleConcat(s[..i] + s[i..j], s[j..], ws);
    VisibleConcat(s[..i], s[i..j], ws);
    VisibleBlank(s[..i], ws);
    VisibleBlank(s[j..], ws);
  }

  lemma StripTwice(s: string, ws: Space)
    ensures Strip(Strip(s, ws), ws) == Strip(s, ws)
  {
    var i, j := StripIsSlice(s, ws);
    StripFixed(Strip(s, ws), ws);
  }

  /** A text whose ends are not white space is left alone. */
  lemma StripFixed(t: string, ws: Space)
    requires t == [] || (!ws(t[0]) && !ws(t[|t| - 1]))
    ensures Strip(t, ws) == t
  {
    var i, j := StripIsSlice(t, ws);
    if t != [] {
      assert i == 0 && j == |t|;
    }
  }

  lemma {:induction false} FlattenConcat(a: seq<string>, b: seq<string>)
    ensures Flatten(a + b) == Flatten(a) + Flatten(b)
  {
    if a == [] {
      assert a + b == b;
    } else {
      assert (a + b)[1..] == a[1..] + b;
      FlattenConcat(a[1..], b);
    }
  }
}
