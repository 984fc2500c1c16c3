/** The ingestion chunker `split_text`: a sliding window of `size`
    characters over the stripped text, each window starting `overlap`
    characters before the previous one ended, with whitespace-only windows
    dropped at the end. */
module Chunker {
  import opened Common
  import opened Text

  const DefaultChunkSize: nat := 1000
  const DefaultOverlap: nat := 150

  /** The configurations the chunker accepts: a positive window size and
      an overlap that is neither negative nor as large as the window. Every
      other configuration either never halts on a long enough text or gives
      windows that leave gaps (a negative overlap) or are empty or counted
      from the end (a window size that is not positive). */
  predicate ValidConfig(size: int, overlap: int) {
    0 < size && 0 <= overlap < size
  }

  /** The half-open character range `[start, end)` of one window. */
  datatype Window = Window(start: nat, end: nat)

  /** The windows the loop visits on a stripped text of length `n`, starting
      at `start`. Each is non-empty and at most `size` long; every window but
      the last is exactly `size` long, the next one starts `overlap`
      characters before it ends, and the last one ends at `n`. */
  function WindowsFrom(n: nat, start: nat, size: nat, overlap: nat): (ws: seq<Window>)
    requires ValidConfig(size, overlap)
    ensures start >= n <==> |ws| == 0
    ensures forall i :: 0 <= i < |ws| ==> ws[i].start < ws[i].end <= n && ws[i].end - ws[i].start <= size
    ensures forall i :: 0 <= i < |ws| - 1 ==> ws[i].end - ws[i].start == size
    ensures forall i, j :: 0 <= i && j == i + 1 < |ws| ==> ws[j].start + overlap == ws[i].end
    ensures forall i, j :: 0 <= i && j == i + 1 < |ws| ==> ws[i].end < ws[j].end
    decreases n - start
  {
    if start >= n then []
    else
      var end := Min(start + size, n);
      if end == n then [Window(start, end)]
      else [Window(start, end)] + WindowsFrom(n, Max(0, end - overlap), size, overlap)
  }

  /** The first window starts where the loop starts and the last one ends
      at the end of the text. */
  lemma {:induction false} WindowsFromEnds(n: nat, start: nat, size: nat, overlap: nat)
    requires ValidConfig(size, overlap) && start < n
    ensures var ws := WindowsFrom(n, start, size, overlap);
      ws[0].start == start && ws[|ws| - 1].end == n
    decreases n - start
  {
    var end := Min(start + size, n);
    if end != n {
      WindowsFromEnds(n, Max(0, end - overlap), size, overlap);
    }
  }

  /** All windows over a stripped text of length `n`. */
  function Windows(n: nat, size: nat, overlap: nat): seq<Window>
    requires ValidConfig(size, overlap)
  {
    WindowsFrom(n, 0, size, overlap)
  }

  /** The text under each window. */
  function Slices(t: string, ws: seq<Window>): (r: seq<string>)
    requires forall i :: 0 <= i < |ws| ==> ws[i].start <= ws[i].end <= |t|
    ensures |r| == |ws|
    ensures forall i :: 0 <= i < |ws| ==> r[i] == t[ws[i].start..ws[i].end]
  {
    seq(|ws|, i requires 0 <= i < |ws| => t[ws[i].start..ws[i].end])
  }

  /** The chunks that are not blank, in their original order. */
  function KeepNonBlank(chunks: seq<string>): (r: seq<string>)
    ensures forall c :: c in r <==> c in chunks && !IsBlank(c)
    ensures |r| <= |chunks|
  {
    if |chunks| == 0 then []
    else if IsBlank(chunks[0]) then KeepNonBlank(chunks[1..])
    else [chunks[0]] + KeepNonBlank(chunks[1..])
  }

  /** The filter works chunk by chunk and keeps the order: filtering a
      concatenation concatenates the filtered parts. */
  lemma {:induction false} KeepNonBlankAppend(a: seq<string>, b: seq<string>)
    ensures KeepNonBlank(a + b) == KeepNonBlank(a) + KeepNonBlank(b)
    decreases |a|
  {
    if |a| == 0 {
      assert a + b == b;
    } else {
      assert (a + b)[0] == a[0];
      assert (a + b)[1..] == a[1..] + b;
      KeepNonBlankAppend(a[1..], b);
    }
  }

  /** The window texts from `start` on, one loop step at a time: the
      current window's text, followed by the texts from the next start when
      the window did not reach the end. */
  function SlicesFrom(t: string, start: nat, size: nat, overlap: nat): seq<string>
    requires ValidConfig(size, overlap)
    decreases |t| - start
  {
    if start >= |t| then []
    else
      var end := Min(start + size, |t|);
      if end == |t| then [t[start..end]]
      else [t[start..end]] + SlicesFrom(t, end - overlap, size, overlap)
  }

  /** The loop's step-by-step texts are the texts under the windows. */
  lemma {:induction false} SlicesFromWindows(t: string, start: nat, size: nat, overlap: nat)
    requires ValidConfig(size, overlap)
    ensures SlicesFrom(t, start, size, overlap) == Slices(t, WindowsFrom(|t|, start, size, overlap))
    decreases |t| - start
  {
    var end := Min(start + size, |t|);
    if start < |t| && end < |t| {
      var next := end - overlap;
      SlicesFromWindows(t, next, size, overlap);
      var ws := WindowsFrom(|t|, start, size, overlap);
      var rest := WindowsFrom(|t|, next, size, overlap);
      assert ws == [Window(start, end)] + rest;
      var lhs := SlicesFrom(t, start, size, overlap);
      var rhs := Slices(t, ws);
      assert |lhs| == |rhs|;
      forall i | 0 <= i < |lhs| ensures lhs[i] == rhs[i] {
        if i > 0 {
          assert ws[i] == rest[i - 1];
        }
      }
    }
  }

  /** The loop of `split_text` before its final filter, over an already
      stripped text `t`: the window texts in window order. */
  method WindowTexts(t: string, size: int, overlap: int) returns (raw: seq<string>)
    requires ValidConfig(size, overlap)
    ensures raw == Slices(t, Windows(|t|, size, overlap))
  {
    var n := |t|;
    raw := [];
    var start := 0;
    while start < n
      invariant start <= n
      invariant raw + SlicesFrom(t, start, size, overlap) == SlicesFrom(t, 0, size, overlap)
      decreases n - start
    {
      var end := Min(start + size, n);
      raw := raw + [t[start..end]];
      if end == n {
        break;
      }
      start := Max(0, end - overlap);
    }
    SlicesFromWindows(t, 0, size, overlap);
  }

  /** The loop of `split_text` before its final filter: the window texts
      over the stripped input. */
  method RawChunks(text: string, size: int, overlap: int) returns (raw: seq<string>)
    requires ValidConfig(size, overlap)
    ensures raw == Slices(Strip(text), Windows(|Strip(text)|, size, overlap))
  {
    raw := WindowTexts(Strip(text), size, overlap);
  }

  /** `split_text(text, size, overlap)`: every chunk is a non-blank slice of
      the stripped text no longer than `size`; the chunks are, in order, the
      window texts that contain a non-whitespace character. */
  method SplitText(text: string, size: int := DefaultChunkSize, overlap: int := DefaultOverlap)
    returns (chunks: seq<string>)
    requires ValidConfig(size, overlap)
    ensures chunks == KeepNonBlank(Slices(Strip(text), Windows(|Strip(text)|, size, overlap)))
    ensures forall c :: c in chunks ==> !IsBlank(c) && |c| <= size
    ensures IsBlank(text) ==> chunks == []
  {
    var raw := RawChunks(text, size, overlap);
    chunks := KeepNonBlank(raw);
  }

  /** The pieces a later window adds: the window text without the first
      `overlap` characters it shares with its predecessor. */
  function DropShared(chunks: seq<string>, overlap: nat): string {
    if |chunks| == 0 then ""
    else chunks[0][Min(overlap, |chunks[0]|)..] + DropShared(chunks[1..], overlap)
  }

  /** Reassembles a text from overlapping chunks: the first chunk in full,
      then each later chunk without its first `overlap` characters. */
  function Rebuild(chunks: seq<string>, overlap: nat): string {
    if |chunks| == 0 then "" else chunks[0] + DropShared(chunks[1..], overlap)
  }

  lemma {:induction false} DropSharedFrom(t: string, start: nat, size: nat, overlap: nat)
    requires ValidConfig(size, overlap) && start < |t|
    ensures DropShared(SlicesFrom(t, start, size, overlap)[1..], overlap) == t[Min(start + size, |t|)..]
    decreases |t| - start
  {
    var end := Min(start + size, |t|);
    if end < |t| {
      var next := end - overlap;
      var rest := SlicesFrom(t, next, size, overlap);
      assert SlicesFrom(t, start, size, overlap)[1..] == rest;
      DropSharedFrom(t, next, size, overlap);
      var end2 := Min(next + size, |t|);
      assert rest[0] == t[next..end2];
      assert rest[0][Min(overlap, |rest[0]|)..] == t[end..end2];
      assert DropShared(rest, overlap) == t[end..end2] + t[end2..];
    }
  }

  /** Before the filter, the windows reconstruct the stripped text: the
      first window in full followed by every later window minus the
      `overlap` characters it shares with the one before. */
  lemma RebuildRawChunks(text: string, size: nat, overlap: nat)
    requires ValidConfig(size, overlap)
    ensures var t := Strip(text);
      Rebuild(Slices(t, Windows(|t|, size, overlap)), overlap) == t
  {
    RebuildWindows(Strip(text), size, overlap);
  }

  /** The same reconstruction for any text. */
  lemma RebuildWindows(t: string, size: nat, overlap: nat)
    requires ValidConfig(size, overlap)
    ensures Rebuild(Slices(t, Windows(|t|, size, overlap)), overlap) == t
  {
    SlicesFromWindows(t, 0, size, overlap);
    RebuildSlices(t, size, overlap);
  }

  lemma RebuildSlices(t: string, size: nat, overlap: nat)
    requires ValidConfig(size, overlap)
    ensures Rebuild(SlicesFrom(t, 0, size, overlap), overlap) == t
  {
    if |t| > 0 {
      DropSharedFrom(t, 0, size, overlap);
      var raw := SlicesFrom(t, 0, size, overlap);
      assert raw[0] == t[..Min(size, |t|)];
    }
  }

  /** Before the filter, the first window over the stripped text `t`
      starts at 0 and the last ends at its end. */
  lemma WindowsSpanText(t: string, size: nat, overlap: nat)
    requires ValidConfig(size, overlap) && |t| > 0
    ensures var ws := Windows(|t|, size, overlap);
      |ws| > 0 && ws[0].start == 0 && ws[|ws| - 1].end == |t|
  {
    WindowsFromEnds(|t|, 0, size, overlap);
  }

  /** Two consecutive windows share exactly `overlap` characters: the last
      `overlap` characters of a full window are the first `overlap`
      characters of the next, which starts strictly later. */
  lemma ConsecutiveWindowsShare(t: string, size: nat, overlap: nat, i: nat)
    requires ValidConfig(size, overlap)
    requires i + 1 < |Windows(|t|, size, overlap)|
    ensures var ws := Windows(|t|, size, overlap);
      var raw := Slices(t, ws);
      && ws[i].start < ws[i + 1].start
      && |raw[i]| == size && overlap < |raw[i + 1]|
      && raw[i][size - overlap..] == raw[i + 1][..overlap]
  {
    var ws := Windows(|t|, size, overlap);
    var raw := Slices(t, ws);
    var a, e, b := ws[i].start, ws[i].end, ws[i + 1].start;
    assert b + overlap == e && e - a == size && e < ws[i + 1].end;
    assert raw[i] == t[a..e];
    assert raw[i][size - overlap..] == t[b..e];
    assert raw[i + 1][..overlap] == t[b..b + overlap];
  }

  lemma ExampleWindows()
    ensures Windows(6, 2, 0) == [Window(0, 2), Window(2, 4), Window(4, 6)]
  {
    assert WindowsFrom(6, 4, 2, 0) == [Window(4, 6)];
    assert WindowsFrom(6, 2, 2, 0) == [Window(2, 4)] + [Window(4, 6)];
    assert WindowsFrom(6, 0, 2, 0) == [Window(0, 2)] + [Window(2, 4), Window(4, 6)];
  }

  lemma ExampleSlices()
    ensures Slices("ab  cd", Windows(6, 2, 0)) == ["ab", "  ", "cd"]
  {
    ExampleWindows();
    var t := "ab  cd";
    var raw := Slices(t, Windows(6, 2, 0));
    assert raw[0] == t[0..2] == "ab";
    assert raw[1] == t[2..4] == "  ";
    assert raw[2] == t[4..6] == "cd";
  }

  lemma ExampleFilter()
    ensures KeepNonBlank(["ab", "  ", "cd"]) == ["ab", "cd"]
  {
    assert !IsBlank("cd") by { assert "cd"[0] == 'c'; }
    assert !IsBlank("ab") by { assert "ab"[0] == 'a'; }
    assert IsBlank("  ");
    assert KeepNonBlank(["cd"]) == ["cd"] + KeepNonBlank([]);
    assert ["ab", "  ", "cd"][1..] == ["  ", "cd"];
    assert ["  ", "cd"][1..] == ["cd"];
  }

  /** The filter drops whitespace-only windows from the middle of the text,
      so the filtered chunks no longer reconstruct it: with windows of two
      characters and no overlap, "ab  cd" yields only "ab" and "cd". */
  lemma FilterBreaksRebuild()
    ensures var raw := Slices("ab  cd", Windows(6, 2, 0));
      && KeepNonBlank(raw) == ["ab", "cd"]
      && Rebuild(KeepNonBlank(raw), 0) != "ab  cd"
  {
    ExampleSlices();
    ExampleFilter();
    assert Rebuild(["ab", "cd"], 0) == "ab" + "cd";
    assert |"abcd"| != |"ab  cd"|;
  }

  /** One iteration of the loop exactly as the source writes it, with no
      check on the configuration: `None` when the window reached the end of
      the text, otherwise the next start. */
  function NextStart(n: nat, start: nat, size: int, overlap: int): (r: Option<nat>)
    ensures r.None? <==> start + size >= n
  {
    var end := Min(start + size, n);
    if end == n then None else Some(Max(0, end - overlap))
  }

  /** An iteration that does not reach the end of the text moves the start
      forward exactly when the overlap is smaller than the window size, for
      any integer size and overlap. */
  lemma StepAdvancesIffOverlapBelowSize(n: nat, start: nat, size: int, overlap: int)
    requires start + size < n
    ensures NextStart(n, start, size, overlap).Some?
    ensures NextStart(n, start, size, overlap).value > start <==> overlap < size
  {
  }

  /** With `overlap >= size` the loop never advances once the text is longer
      than a window, so `split_text` does not terminate. */
  lemma StallsWhenOverlapReachesSize(n: nat, start: nat, size: int, overlap: int)
    requires start + size < n && size <= overlap
    ensures NextStart(n, start, size, overlap) == Some(if start + size - overlap > 0 then start + size - overlap else 0)
    ensures NextStart(n, start, size, overlap).value <= start
  {
  }

  /** The default-sized configuration with a full-window overlap restarts at
      0 forever on a 1001-character text. */
  lemma DefaultSizeFullOverlapStalls()
    ensures NextStart(1001, 0, 1000, 1000) == Some(0)
  {
  }

  /** The unchecked loop, started at `start` on a stripped text of length
      `n`, leaves its `while` within `fuel` further iterations. */
  predicate HaltsWithin(n: nat, start: nat, size: int, overlap: int, fuel: nat)
    decreases fuel
  {
    start >= n
    || NextStart(n, start, size, overlap).None?
    || (fuel > 0 && HaltsWithin(n, NextStart(n, start, size, overlap).value, size, overlap, fuel - 1))
  }

  /** More iterations never hurt. */
  lemma {:induction false} HaltsWithinMore(n: nat, start: nat, size: int, overlap: int, fuel: nat, more: nat)
    requires HaltsWithin(n, start, size, overlap, fuel) && fuel <= more
    ensures HaltsWithin(n, start, size, overlap, more)
    decreases fuel
  {
    if start < n && NextStart(n, start, size, overlap).Some? {
      HaltsWithinMore(n, NextStart(n, start, size, overlap).value, size, overlap, fuel - 1, more - 1);
    }
  }

  /** With an overlap below the window size the loop halts within
      `n - start` iterations. */
  lemma {:induction false} HaltsWhenAdvancing(n: nat, start: nat, size: int, overlap: int)
    requires overlap < size
    ensures HaltsWithin(n, start, size, overlap, if start < n then n - start else 0)
    decreases n - start
  {
    if start < n && start + size < n {
      StepAdvancesIffOverlapBelowSize(n, start, size, overlap);
      var next := NextStart(n, start, size, overlap).value;
      HaltsWhenAdvancing(n, next, size, overlap);
      HaltsWithinMore(n, next, size, overlap, if next < n then n - next else 0, n - start - 1);
    }
  }

  /** With `overlap >= size` and text beyond the first window the loop
      keeps restarting at 0. */
  lemma {:induction false} StallsAtZero(n: nat, size: int, overlap: int, fuel: nat)
    requires 0 < n && size < n && size <= overlap
    ensures !HaltsWithin(n, 0, size, overlap, fuel)
    decreases fuel
  {
    StallsWhenOverlapReachesSize(n, 0, size, overlap);
    if fuel > 0 {
      StallsAtZero(n, size, overlap, fuel - 1);
    }
  }

  /** `split_text` halts exactly unless the stripped text is non-empty and
      longer than a window and the overlap is at least the window size; in
      particular a non-positive size or a negative overlap does halt when the
      overlap is below the size. */
  lemma SplitTextHaltsIff(n: nat, size: int, overlap: int)
    ensures (exists fuel: nat :: HaltsWithin(n, 0, size, overlap, fuel)) <==> !(0 < n && size < n && size <= overlap)
  {
    if 0 < n && size < n && size <= overlap {
      forall fuel: nat ensures !HaltsWithin(n, 0, size, overlap, fuel) {
        StallsAtZero(n, size, overlap, fuel);
      }
    } else if overlap < size {
      HaltsWhenAdvancing(n, 0, size, overlap);
      var fuel: nat := if 0 < n then n else 0;
      assert HaltsWithin(n, 0, size, overlap, fuel);
      assert exists f: nat :: HaltsWithin(n, 0, size, overlap, f);
    } else {
      assert HaltsWithin(n, 0, size, overlap, 0);
      assert exists f: nat :: HaltsWithin(n, 0, size, overlap, f);
    }
  }

  datatype ChunkError = InvalidArgument

  /** `split_text` with the configuration check it lacks: a degenerate
      configuration is rejected instead of looping forever. */
  method SplitChecked(text: string, size: int := DefaultChunkSize, overlap: int := DefaultOverlap)
    returns (r: Result<seq<string>, ChunkError>)
    ensures r.Failure? <==> !ValidConfig(size, overlap)
    ensures r.Success? ==> r.value == KeepNonBlank(Slices(Strip(text), Windows(|Strip(text)|, size, overlap)))
  {
    if !ValidConfig(size, overlap) {
      return Failure(InvalidArgument);
    }
    var chunks := SplitText(text, size, overlap);
    return Success(chunks);
  }
}
