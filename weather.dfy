/**
 * The "Weather" tab: the plan's lines are scanned for the first one that
 * starts, after optional whitespace, with "Weather" (in any case); from there
 * on lines are collected up to and including the first blank one.
 */
module WeatherBlock {
  import opened Wrappers
  import opened Text

  const WEATHER := "weather"

  /** `re.search(r"^\s*Weather", ln, re.I)`. */
  predicate IsWeatherLine(ln: string) {
    var h := SkipClass(ln, 0, Whitespace);
    h + |WEATHER| <= |ln| && forall k :: 0 <= k < |WEATHER| ==> LowerChar(ln[h + k]) == WEATHER[k]
  }

  /**
   * The pattern `^\s*Weather` matches `ln`, ignoring case, with its
   * whitespace run ending at `h`.
   */
  ghost predicate WeatherAt(ln: string, h: nat) {
    h + |WEATHER| <= |ln| && AllSpace(ln[..h])
    && forall k :: 0 <= k < |WEATHER| ==> LowerChar(ln[h + k]) == WEATHER[k]
  }

  /** What the scanner accepts is a match of the pattern. */
  lemma IsWeatherLineSound(ln: string)
    requires IsWeatherLine(ln)
    ensures WeatherAt(ln, SkipClass(ln, 0, Whitespace))
  {
    var h := SkipClass(ln, 0, Whitespace);
    assert forall m :: 0 <= m < h ==> ln[..h][m] == ln[m];
  }

  /** Every match of the pattern is accepted by the scanner, at the same place. */
  lemma IsWeatherLineComplete(ln: string, h: nat)
    requires WeatherAt(ln, h)
    ensures IsWeatherLine(ln) && SkipClass(ln, 0, Whitespace) == h
  {
    assert LowerChar(ln[h + 0]) == WEATHER[0] == 'w';
    assert !IsSpace(ln[h]);
    assert forall m :: 0 <= m < h ==> ln[..h][m] == ln[m];
    SkipClassUnique(ln, 0, h, Whitespace);
  }

  /** A line of whitespace only: `ln.strip() == ""`. */
  predicate IsBlank(ln: string) {
    AllSpace(ln)
  }

  lemma BlankIsStrippedEmpty(ln: string)
    ensures IsBlank(ln) <==> Strip(ln) == ""
  {
  }

  /** A weather line is never blank, so it never ends the block it opens. */
  lemma WeatherLineNotBlank(ln: string)
    requires IsWeatherLine(ln)
    ensures !IsBlank(ln)
  {
    var h := SkipClass(ln, 0, Whitespace);
    assert LowerChar(ln[h + 0]) == WEATHER[0] == 'w';
  }

  /** The index of the first weather line at or after `i`. */
  function FirstWeather(lines: seq<string>, i: nat): (r: Option<nat>)
    requires i <= |lines|
    ensures r.Some? ==> i <= r.value < |lines| && IsWeatherLine(lines[r.value])
    decreases |lines| - i
  {
    if i == |lines| then None
    else if IsWeatherLine(lines[i]) then Some(i)
    else FirstWeather(lines, i + 1)
  }

  /** No line before the one found is a weather line, and none at all when none is found. */
  lemma {:induction false} FirstWeatherFirst(lines: seq<string>, i: nat)
    requires i <= |lines|
    ensures var end := if FirstWeather(lines, i).Some? then FirstWeather(lines, i).value else |lines|;
      forall k :: i <= k < end ==> !IsWeatherLine(lines[k])
    decreases |lines| - i
  {
    if i < |lines| && !IsWeatherLine(lines[i]) {
      FirstWeatherFirst(lines, i + 1);
    }
  }

  /**
   * Where a block whose lines from `j` on are still to be read ends: just
   * after the first blank line at or after `j`, or at the end of the text.
   */
  function BlockEnd(lines: seq<string>, j: nat): (e: nat)
    requires j <= |lines|
    ensures j <= e <= |lines|
    decreases |lines| - j
  {
    if j == |lines| then j
    else if IsBlank(lines[j]) then j + 1
    else BlockEnd(lines, j + 1)
  }

  /**
   * The block runs to the first blank line at or after `j`, which it
   * includes, or to the end of the text when there is none.
   */
  lemma {:induction false} BlockEndFirstBlank(lines: seq<string>, j: nat)
    requires j <= |lines|
    ensures var e := BlockEnd(lines, j);
      (e == |lines| || (j < e && IsBlank(lines[e - 1])))
      && forall k :: j <= k < e - 1 ==> !IsBlank(lines[k])
    decreases |lines| - j
  {
    if j < |lines| && !IsBlank(lines[j]) {
      BlockEndFirstBlank(lines, j + 1);
    }
  }

  /**
   * The text the scan collects from `lines`: every line of the block opened by the first
   * weather line, each followed by a line feed; nothing when there is no
   * weather line.
   */
  function BlockText(lines: seq<string>): string {
    match FirstWeather(lines, 0)
    case None => ""
    case Some(w) => Terminated(lines[w..BlockEnd(lines, w)])
  }

  /** The text the scan collects from the plan `md`. */
  function WeatherChunk(md: string): string {
    BlockText(SplitLines(md))
  }

  /**
   * The tab's loop over `answer_md.splitlines()`: once a weather line has
   * been seen every line is collected, and the first blank line collected
   * stops the scan.
   */
  method ScanWeather(md: string) returns (chunk: string)
    ensures chunk == WeatherChunk(md)
  {
    chunk := CollectBlock(SplitLines(md));
  }

  /** The loop itself, over the lines of the plan. */
  method CollectBlock(lines: seq<string>) returns (chunk: string)
    ensures chunk == BlockText(lines)
  {
    chunk := "";
    var inWeather := false;
    ghost var w: nat := 0;
    var i := 0;
    while i < |lines|
      invariant 0 <= i <= |lines|
      invariant !inWeather ==> chunk == "" && FirstWeather(lines, 0) == FirstWeather(lines, i)
      invariant inWeather ==> (FirstWeather(lines, 0) == Some(w) && w < i
        && BlockEnd(lines, w) == BlockEnd(lines, i) && chunk == Terminated(lines[w..i]))
    {
      var ln := lines[i];
      if IsWeatherLine(ln) {
        if !inWeather {
          w := i;
          WeatherLineNotBlank(ln);
        }
        inWeather := true;
      }
      if inWeather {
        TerminatedStep(lines, w, i);
        chunk := chunk + ln + "\n";
      }
      BlankIsStrippedEmpty(ln);
      if inWeather && Strip(ln) == "" {
        assert BlockEnd(lines, w) == i + 1;
        break;
      }
      i := i + 1;
    }
  }

  /** Collecting one more line adds it and a line feed to the text. */
  lemma TerminatedStep(lines: seq<string>, w: nat, i: nat)
    requires w <= i < |lines|
    ensures Terminated(lines[w..i + 1]) == Terminated(lines[w..i]) + lines[i] + "\n"
  {
    TerminatedAppend(lines[w..i], [lines[i]]);
    assert lines[w..i + 1] == lines[w..i] + [lines[i]];
  }

  /** Terminated lines hold every character of their first line. */
  lemma TerminatedStartsWith(lines: seq<string>)
    requires lines != []
    ensures Terminated(lines)[..|lines[0]|] == lines[0]
  {
  }

  /** The weather block shown in the tab, stripped, or nothing. */
  function WeatherSnapshot(md: string): (shown: Option<string>)
    ensures shown.Some? ==> shown.value != "" && shown.value == Strip(WeatherChunk(md))
  {
    var chunk := WeatherChunk(md);
    if Strip(chunk) != "" then Some(Strip(chunk)) else None
  }

  /**
   * The tab shows a weather block exactly when some line of the plan starts
   * with "Weather"; otherwise it shows the "No explicit weather block" notice.
   */
  lemma SnapshotIffWeatherLine(md: string)
    ensures var lines := SplitLines(md);
      WeatherSnapshot(md).Some? <==> exists k :: 0 <= k < |lines| && IsWeatherLine(lines[k])
  {
    var lines := SplitLines(md);
    FirstWeatherFirst(lines, 0);
    match FirstWeather(lines, 0)
    case None =>
    case Some(w) =>
      var block := lines[w..BlockEnd(lines, w)];
      var chunk := Terminated(block);
      WeatherLineNotBlank(lines[w]);
      TerminatedStartsWith(block);
      assert !AllSpace(chunk) by {
        var k: nat :| k < |lines[w]| && !IsSpace(lines[w][k]);
        assert chunk[k] == chunk[..|lines[w]|][k] == lines[w][k];
      }
  }

  /**
   * The block starts at the first weather line and runs to the first blank
   * line after it, which it includes, or to the end of the plan.
   */
  lemma ChunkIsFirstBlock(md: string, w: nat)
    requires w < |SplitLines(md)| && IsWeatherLine(SplitLines(md)[w])
    requires forall k :: 0 <= k < w ==> !IsWeatherLine(SplitLines(md)[k])
    ensures var lines := SplitLines(md); var e := BlockEnd(lines, w);
      WeatherChunk(md) == Terminated(lines[w..e])
      && (forall k :: w <= k < e - 1 ==> !IsBlank(lines[k]))
      && (e == |lines| || IsBlank(lines[e - 1]))
  {
    var lines := SplitLines(md);
    assert FirstWeather(lines, 0) == Some(w) by {
      FirstWeatherIs(lines, 0, w);
    }
    BlockEndFirstBlank(lines, w);
  }

  lemma {:induction false} FirstWeatherIs(lines: seq<string>, i: nat, w: nat)
    requires i <= w < |lines| && IsWeatherLine(lines[w])
    requires forall k :: i <= k < w ==> !IsWeatherLine(lines[k])
    ensures FirstWeather(lines, i) == Some(w)
    decreases w - i
  {
    if i < w {
      FirstWeatherIs(lines, i + 1, w);
    }
  }
}
