/**
 * The "Day Plan" tab: the generated plan is cut at every header matching
 * `\n\s*Day\s*\d+[:：]` (ignoring case), and each header is shown with the
 * text that follows it up to the next header or the end of the plan.
 */
module DaySections {
  import opened Wrappers
  import opened Text

  const FULLWIDTH_COLON: char := '\U{FF1A}'

  predicate IsColon(c: char) {
    c == ':' || c == FULLWIDTH_COLON
  }

  /** "day" in any case at `h`. */
  predicate IsDayWord(s: string, h: nat) {
    h + 3 <= |s| && LowerChar(s[h]) == 'd' && LowerChar(s[h + 1]) == 'a' && LowerChar(s[h + 2]) == 'y'
  }

  /**
   * The header pattern matches at `p`: a line feed at `p`, whitespace up to
   * `h`, "day" in any case at `h`, whitespace up to `r`, digits from `r` up
   * to the colon at `c`.
   */
  ghost predicate HeaderAt(s: string, p: nat, h: nat, r: nat, c: nat) {
    p < h && h + 3 <= r < c < |s|
    && s[p] == '\n'
    && (forall k :: p < k < h ==> IsSpace(s[k]))
    && IsDayWord(s, h)
    && (forall k :: h + 3 <= k < r ==> IsSpace(s[k]))
    && (forall k :: r <= k < c ==> IsDigit(s[k]))
    && IsColon(s[c])
  }

  /** No header match starts at any position in [lo, hi). */
  ghost predicate NoHeaderIn(s: string, lo: nat, hi: nat) {
    forall p: nat, h: nat, r: nat, c: nat :: lo <= p < hi ==> !HeaderAt(s, p, h, r, c)
  }

  /**
   * One header match: it starts at the line feed `start`; the title
   * ("Day 3:") runs from `title` through the colon at `colon`; the day number
   * starts at `number`.
   */
  datatype Header = Header(start: nat, title: nat, number: nat, colon: nat)

  /** The regular-expression engine's attempt at position `p`. */
  function HeaderMatchAt(s: string, p: nat): (r: Option<Header>)
    ensures r.Some? ==> r.value.start == p < r.value.title < r.value.number < r.value.colon < |s|
  {
    if p < |s| && s[p] == '\n' then
      var h := SkipClass(s, p + 1, Whitespace);
      if IsDayWord(s, h) then
        var r := SkipClass(s, h + 3, Whitespace);
        var c := SkipClass(s, r, Digits);
        if r < c < |s| && IsColon(s[c]) then Some(Header(p, h, r, c)) else None
      else None
    else None
  }

  /** What the attempt at `p` finds is a match of the pattern. */
  lemma HeaderMatchAtSound(s: string, p: nat)
    requires HeaderMatchAt(s, p).Some?
    ensures var hd := HeaderMatchAt(s, p).value; HeaderAt(s, p, hd.title, hd.number, hd.colon)
  {
  }

  /** Every match of the pattern at `p` is found by the attempt at `p`. */
  lemma HeaderMatchAtComplete(s: string, p: nat, h: nat, r: nat, c: nat)
    requires HeaderAt(s, p, h, r, c)
    ensures HeaderMatchAt(s, p) == Some(Header(p, h, r, c))
  {
    SkipClassUnique(s, p + 1, h, Whitespace);
    SkipClassUnique(s, h + 3, r, Whitespace);
    SkipClassUnique(s, r, c, Digits);
  }

  /** Each attempt that succeeds starts where it was made and ends inside the text. */
  predicate WellFormed(m: seq<Option<Header>>) {
    forall p :: 0 <= p < |m| && m[p].Some? ==>
      m[p].value.start == p < m[p].value.title < m[p].value.number < m[p].value.colon < |m|
  }

  /** The attempt at every position of the text. */
  function Attempts(s: string): (m: seq<Option<Header>>)
    ensures |m| == |s| && WellFormed(m)
  {
    seq(|s|, p requires 0 <= p < |s| => HeaderMatchAt(s, p))
  }

  /** Where every attempt fails, the pattern does not match. */
  lemma AttemptsComplete(s: string, lo: nat, hi: nat)
    requires hi <= |s|
    requires forall p :: lo <= p < hi ==> Attempts(s)[p].None?
    ensures NoHeaderIn(s, lo, hi)
  {
    forall p: nat, h: nat, r: nat, c: nat | lo <= p < hi && HeaderAt(s, p, h, r, c) ensures false {
      assert Attempts(s)[p] == HeaderMatchAt(s, p);
      HeaderMatchAtComplete(s, p, h, r, c);
    }
  }

  /** The first successful attempt at or after `i`: the leftmost match. */
  function FindFrom(m: seq<Option<Header>>, i: nat): (r: Option<nat>)
    requires i <= |m|
    ensures r.Some? ==> i <= r.value < |m| && m[r.value].Some?
    decreases |m| - i
  {
    if i == |m| then None
    else if m[i].Some? then Some(i)
    else FindFrom(m, i + 1)
  }

  /** Every attempt before the one found fails, and every one fails when none is found. */
  lemma {:induction false} FindFromFirst(m: seq<Option<Header>>, i: nat)
    requires i <= |m|
    ensures var end := if FindFrom(m, i).Some? then FindFrom(m, i).value else |m|;
      forall p :: i <= p < end ==> m[p].None?
    decreases |m| - i
  {
    if i < |m| && m[i].None? {
      FindFromFirst(m, i + 1);
    }
  }

  /** With every attempt in [i, j) failing, the search from `i` finds what the search from `j` finds. */
  lemma {:induction false} FindFromSkips(m: seq<Option<Header>>, i: nat, j: nat)
    requires i <= j <= |m|
    requires forall p :: i <= p < j ==> m[p].None?
    ensures FindFrom(m, i) == FindFrom(m, j)
    decreases j - i
  {
    if i < j {
      FindFromSkips(m, i + 1, j);
    }
  }

  /** The matches lie inside a text of length `n`, in order, each ending before the next starts. */
  predicate Ordered(n: nat, hs: seq<Header>) {
    (forall k :: 0 <= k < |hs| ==> hs[k].start < hs[k].title < hs[k].number < hs[k].colon < n)
    && (forall j, k :: 0 <= j < k < |hs| ==> hs[j].colon < hs[k].start)
  }

  /** Where the text after match `k` ends: at the next match, or at the end of the text. */
  function NextStart(n: nat, hs: seq<Header>, k: nat): nat
    requires k < |hs|
  {
    if k + 1 < |hs| then hs[k + 1].start else n
  }

  /**
   * The matches from `i` on, as `re.split` and `re.findall` take them: the
   * leftmost match, then the matches after its end.
   */
  function Matches(m: seq<Option<Header>>, i: nat): (hs: seq<Header>)
    requires WellFormed(m) && i <= |m|
    decreases |m| - i
  {
    match FindFrom(m, i)
    case None => []
    case Some(p) => [m[p].value] + Matches(m, m[p].value.colon + 1)
  }

  /** The matches are successful attempts from `i` on, in order, each ending before the next starts. */
  lemma {:induction false} MatchesProps(m: seq<Option<Header>>, i: nat)
    requires WellFormed(m) && i <= |m|
    ensures var hs := Matches(m, i);
      Ordered(|m|, hs) && forall k :: 0 <= k < |hs| ==> i <= hs[k].start && m[hs[k].start] == Some(hs[k])
    decreases |m| - i
  {
    match FindFrom(m, i)
    case None =>
    case Some(p) =>
      var hd := m[p].value;
      MatchesProps(m, hd.colon + 1);
      ConsOrdered(m, i, hd, Matches(m, hd.colon + 1));
  }

  /** A match found from `i` followed by the ordered matches after its end is ordered. */
  lemma ConsOrdered(m: seq<Option<Header>>, i: nat, hd: Header, rest: seq<Header>)
    requires i <= hd.start < hd.title < hd.number < hd.colon < |m| && m[hd.start] == Some(hd)
    requires Ordered(|m|, rest)
    requires forall k :: 0 <= k < |rest| ==> hd.colon + 1 <= rest[k].start && m[rest[k].start] == Some(rest[k])
    ensures var hs := [hd] + rest;
      Ordered(|m|, hs) && forall k :: 0 <= k < |hs| ==> i <= hs[k].start && m[hs[k].start] == Some(hs[k])
  {
    var hs := [hd] + rest;
    assert forall k :: 0 < k < |hs| ==> hs[k] == rest[k - 1];
  }

  /** Every attempt in [lo, hi) fails. */
  predicate NoneIn(m: seq<Option<Header>>, lo: nat, hi: nat) {
    forall p :: lo <= p < hi ==> p < |m| && m[p].None?
  }

  /** Every attempt fails between `i` and the first match, or after `i` when there is none. */
  lemma MatchesFirstGap(m: seq<Option<Header>>, i: nat)
    requires WellFormed(m) && i <= |m|
    ensures var hs := Matches(m, i);
      NoneIn(m, i, if hs == [] then |m| else hs[0].start)
  {
    FindFromFirst(m, i);
  }

  /** Every attempt fails between the end of match `k` and the next match (or the end of the text). */
  lemma {:induction false} MatchesGap(m: seq<Option<Header>>, i: nat, k: nat)
    requires WellFormed(m) && i <= |m| && k < |Matches(m, i)|
    ensures var hs := Matches(m, i);
      NoneIn(m, hs[k].colon + 1, NextStart(|m|, hs, k))
    decreases |m| - i
  {
    MatchesUnfold(m, i);
    var hd := m[FindFrom(m, i).value].value;
    var rest := Matches(m, hd.colon + 1);
    assert Matches(m, i) == [hd] + rest;
    if k == 0 {
      MatchesFirstGap(m, hd.colon + 1);
      assert NoneIn(m, hd.colon + 1, if rest == [] then |m| else rest[0].start);
      ConsHead(m, Matches(m, i), hd, rest);
    } else {
      MatchesGap(m, hd.colon + 1, k - 1);
      assert NoneIn(m, rest[k - 1].colon + 1, NextStart(|m|, rest, k - 1));
      ConsGap(m, Matches(m, i), hd, rest, k);
    }
  }

  /** The text after the first match of `[hd] + rest` runs to the start of `rest`. */
  lemma ConsHead(m: seq<Option<Header>>, hs: seq<Header>, hd: Header, rest: seq<Header>)
    requires hs == [hd] + rest
    requires NoneIn(m, hd.colon + 1, if rest == [] then |m| else rest[0].start)
    ensures NoneIn(m, hs[0].colon + 1, NextStart(|m|, hs, 0))
  {
    assert hs[0] == hd;
  }

  /** A gap after a later match of `rest` is the same gap in `[hd] + rest`. */
  lemma ConsGap(m: seq<Option<Header>>, hs: seq<Header>, hd: Header, rest: seq<Header>, k: nat)
    requires hs == [hd] + rest && 0 < k <= |rest|
    requires NoneIn(m, rest[k - 1].colon + 1, NextStart(|m|, rest, k - 1))
    ensures NoneIn(m, hs[k].colon + 1, NextStart(|m|, hs, k))
  {
    assert hs[k] == rest[k - 1];
    assert NextStart(|m|, hs, k) == NextStart(|m|, rest, k - 1);
  }

  /** When a match is found, the matches are it followed by the matches after its end. */
  lemma MatchesUnfold(m: seq<Option<Header>>, i: nat)
    requires WellFormed(m) && i <= |m| && Matches(m, i) != []
    ensures FindFrom(m, i).Some?
    ensures var hd := m[FindFrom(m, i).value].value;
      Matches(m, i) == [hd] + Matches(m, hd.colon + 1)
  {
  }

  /** All header matches of the text, left to right. */
  function Headers(s: string): (hs: seq<Header>)
    ensures Ordered(|s|, hs)
  {
    MatchesProps(Attempts(s), 0);
    Matches(Attempts(s), 0)
  }

  /**
   * The matches found are exactly the matches of the pattern that
   * `re.split` uses: each is a match, and no match starts before the first,
   * between the end of one and the start of the next, or after the last.
   */
  lemma HeadersExact(s: string)
    ensures var hs := Headers(s);
      (forall k :: 0 <= k < |hs| ==> HeaderAt(s, hs[k].start, hs[k].title, hs[k].number, hs[k].colon))
      && NoHeaderIn(s, 0, if hs == [] then |s| else hs[0].start)
      && forall k :: 0 <= k < |hs| ==> NoHeaderIn(s, hs[k].colon + 1, NextStart(|s|, hs, k))
  {
    var hs := Headers(s);
    forall k | 0 <= k < |hs| ensures HeaderAt(s, hs[k].start, hs[k].title, hs[k].number, hs[k].colon) {
      HeaderSound(s, k);
    }
    HeadersFirstGap(s);
    forall k | 0 <= k < |hs| ensures NoHeaderIn(s, hs[k].colon + 1, NextStart(|s|, hs, k)) {
      HeadersGap(s, k);
    }
  }

  /** Header `k` is a match of the pattern. */
  lemma HeaderSound(s: string, k: nat)
    requires k < |Headers(s)|
    ensures var hd := Headers(s)[k]; HeaderAt(s, hd.start, hd.title, hd.number, hd.colon)
  {
    var hd := Headers(s)[k];
    MatchesProps(Attempts(s), 0);
    assert Attempts(s)[hd.start] == HeaderMatchAt(s, hd.start);
    HeaderMatchAtSound(s, hd.start);
  }

  /** No match starts before the first header, or anywhere when there is none. */
  lemma HeadersFirstGap(s: string)
    ensures var hs := Headers(s); NoHeaderIn(s, 0, if hs == [] then |s| else hs[0].start)
  {
    var hs := Headers(s);
    MatchesFirstGap(Attempts(s), 0);
    AttemptsComplete(s, 0, if hs == [] then |s| else hs[0].start);
  }

  /** No match starts between the end of header `k` and the next header (or the end of the text). */
  lemma HeadersGap(s: string, k: nat)
    requires k < |Headers(s)|
    ensures var hs := Headers(s); NoHeaderIn(s, hs[k].colon + 1, NextStart(|s|, hs, k))
  {
    var hs := Headers(s);
    MatchesGap(Attempts(s), 0, k);
    AttemptsComplete(s, hs[k].colon + 1, NextStart(|s|, hs, k));
  }

  /** Piece `k` of `re.split`: the text before the first match, between two, or after the last. */
  function Piece(s: string, hs: seq<Header>, k: nat): string
    requires Ordered(|s|, hs) && k <= |hs|
  {
    s[(if k == 0 then 0 else hs[k - 1].colon + 1)..(if k == |hs| then |s| else hs[k].start)]
  }

  /** `re.split(r"\n\s*Day\s*\d+[:：]", md, flags=re.I)`. */
  function DaySplit(md: string): (pieces: seq<string>)
    ensures |pieces| == |Headers(md)| + 1
  {
    var hs := Headers(md);
    seq(|hs| + 1, k requires 0 <= k <= |hs| => Piece(md, hs, k))
  }

  /** `re.findall(r"\n\s*(Day\s*\d+[:：])", md, flags=re.I)`: the titles. */
  function DayHeaders(md: string): (titles: seq<string>)
    ensures |titles| == |Headers(md)|
  {
    var hs := Headers(md);
    seq(|hs|, k requires 0 <= k < |hs| => md[hs[k].title..hs[k].colon + 1])
  }

  /** One expander of the tab: its title, its markdown, and whether it starts open. */
  datatype Section = Section(title: string, body: string, expanded: bool)

  /** What the tab shows: the sections, or the "couldn't detect day sections" notice. */
  datatype DayView = NoDaySections | Sections(sections: seq<Section>)

  /**
   * The tab's loop over the pieces after the first: piece `idx` goes into an
   * expander titled with header `idx - 1`, stripped; only the first is expanded.
   */
  method Expanders(headers: seq<string>, pieces: seq<string>) returns (sections: seq<Section>)
    requires |pieces| == |headers| + 1
    ensures |sections| == |headers|
    ensures forall k :: 0 <= k < |headers| ==> sections[k] == Section(Strip(headers[k]), pieces[k + 1], k == 0)
  {
    sections := [];
    var idx := 1;
    while idx < |pieces|
      invariant 1 <= idx <= |pieces|
      invariant |sections| == idx - 1
      invariant forall k :: 0 <= k < idx - 1 ==> sections[k] == Section(Strip(headers[k]), pieces[k + 1], k == 0)
    {
      sections := sections + [Section(Strip(headers[idx - 1]), pieces[idx], idx == 1)];
      idx := idx + 1;
    }
  }

  /**
   * Header `k`'s title is unpadded, so stripping it changes nothing, and the
   * piece after it is the text up to the next header.
   */
  lemma SectionOfHeader(md: string, k: nat)
    requires k < |Headers(md)|
    ensures var hs := Headers(md);
      Strip(DayHeaders(md)[k]) == md[hs[k].title..hs[k].colon + 1]
      && DaySplit(md)[k + 1] == md[hs[k].colon + 1..NextStart(|md|, hs, k)]
  {
    TitleOfHeader(md, k);
    PieceAfterHeader(md, k);
  }

  lemma TitleOfHeader(md: string, k: nat)
    requires k < |Headers(md)|
    ensures var hs := Headers(md); Strip(DayHeaders(md)[k]) == md[hs[k].title..hs[k].colon + 1]
  {
    var hs := Headers(md);
    var t := md[hs[k].title..hs[k].colon + 1];
    DayHeaderAt(md, hs, k);
    TitleUnpadded(md, hs, k);
    StripOfEqual(DayHeaders(md)[k], t);
  }

  lemma StripOfEqual(a: string, t: string)
    requires a == t && Strip(t) == t
    ensures Strip(a) == t
  {
  }

  lemma DayHeaderAt(md: string, hs: seq<Header>, k: nat)
    requires hs == Headers(md) && k < |hs|
    ensures hs[k].title <= hs[k].colon + 1 <= |md|
    ensures DayHeaders(md)[k] == md[hs[k].title..hs[k].colon + 1]
  {
  }

  lemma PieceAfterHeader(md: string, k: nat)
    requires k < |Headers(md)|
    ensures var hs := Headers(md); DaySplit(md)[k + 1] == md[hs[k].colon + 1..NextStart(|md|, hs, k)]
  {
    var hs := Headers(md);
    assert DaySplit(md)[k + 1] == Piece(md, hs, k + 1);
  }

  lemma TitleUnpadded(md: string, hs: seq<Header>, k: nat)
    requires hs == Headers(md) && k < |hs|
    ensures Strip(md[hs[k].title..hs[k].colon + 1]) == md[hs[k].title..hs[k].colon + 1]
  {
    var t := md[hs[k].title..hs[k].colon + 1];
    HeaderSound(md, k);
    assert t[0] == md[hs[k].title] && t[|t| - 1] == md[hs[k].colon];
    StripUnpadded(t);
  }

  /**
   * The "Day Plan" tab: one section per header, titled with the header and
   * holding the text up to the next header, only the first expanded; the
   * notice exactly when the plan has no header at all.
   */
  method RenderDayPlan(md: string) returns (view: DayView)
    ensures view.NoDaySections? <==> NoHeaderIn(md, 0, |md|)
    ensures view.Sections? ==>
      var hs := Headers(md);
      |view.sections| == |hs|
      && forall k :: 0 <= k < |hs| ==>
        view.sections[k] == Section(md[hs[k].title..hs[k].colon + 1], md[hs[k].colon + 1..NextStart(|md|, hs, k)], k == 0)
  {
    var pieces := DaySplit(md);
    var headers := DayHeaders(md);
    if |headers| >= 1 {
      HeaderSound(md, 0);
      var sections := Expanders(headers, pieces);
      forall k | 0 <= k < |headers|
        ensures var hs := Headers(md);
          sections[k] == Section(md[hs[k].title..hs[k].colon + 1], md[hs[k].colon + 1..NextStart(|md|, hs, k)], k == 0)
      {
        SectionOfHeader(md, k);
      }
      view := Sections(sections);
    } else {
      HeadersFirstGap(md);
      view := NoDaySections;
    }
  }

  const FIRST_LINE_EXAMPLE := "Day 1: Arrival\nDay 2: City tour"

  /** An attempt can only succeed at a line feed. */
  lemma NoLineFeedNoAttempt(s: string, lo: nat, hi: nat)
    requires lo <= hi <= |s| && '\n' !in s[lo..hi]
    ensures forall p :: lo <= p < hi ==> Attempts(s)[p].None?
  {
    forall p | lo <= p < hi ensures Attempts(s)[p].None? {
      assert s[p] == s[lo..hi][p - lo];
    }
  }

  /** In the example only the header after the line feed is found. */
  lemma FirstLineExampleHeaders()
    ensures Headers(FIRST_LINE_EXAMPLE) == [Header(14, 15, 19, 20)]
  {
    var m := Attempts(FIRST_LINE_EXAMPLE);
    ExampleFirstLine();
    ExampleHeaderAt14();
    ExampleTail();
    assert FindFrom(m, 0) == Some(14);
  }

  lemma ExampleFirstLine()
    ensures FindFrom(Attempts(FIRST_LINE_EXAMPLE), 0) == FindFrom(Attempts(FIRST_LINE_EXAMPLE), 14)
  {
    var s := FIRST_LINE_EXAMPLE;
    ExampleSlices();
    assert s[0..14] == s[..14];
    NoLineFeedNoAttempt(s, 0, 14);
    FindFromSkips(Attempts(s), 0, 14);
  }

  lemma ExampleHeaderAt14()
    ensures Attempts(FIRST_LINE_EXAMPLE)[14] == Some(Header(14, 15, 19, 20))
  {
    var s := FIRST_LINE_EXAMPLE;
    ExampleSlices();
    DayTwoHeader(s, 14);
    HeaderMatchAtComplete(s, 14, 15, 19, 20);
  }

  /** A line feed followed by "Day 2:" is a header match. */
  lemma DayTwoHeader(s: string, p: nat)
    requires p + 7 <= |s| && s[p] == '\n' && s[p + 1..p + 7] == "Day 2:"
    ensures HeaderAt(s, p, p + 1, p + 5, p + 6)
  {
    var w := s[p + 1..p + 7];
    assert w[0] == 'D' && w[1] == 'a' && w[2] == 'y' && w[3] == ' ' && w[4] == '2' && w[5] == ':';
    assert s[p + 1] == w[0] && s[p + 2] == w[1] && s[p + 3] == w[2];
    assert s[p + 4] == w[3] && s[p + 5] == w[4] && s[p + 6] == w[5];
  }

  lemma ExampleTail()
    ensures Matches(Attempts(FIRST_LINE_EXAMPLE), 21) == []
  {
    var s := FIRST_LINE_EXAMPLE;
    ExampleSlices();
    assert s[21..|s|] == s[21..];
    NoLineFeedNoAttempt(s, 21, |s|);
    FindFromSkips(Attempts(s), 21, |s|);
  }

  /**
   * A header needs a line feed before it: in "Day 1: Arrival\nDay 2: City tour"
   * only "Day 2:" is found, so the tab shows one section, " City tour", and
   * the first line is dropped.
   */
  lemma FirstLineHeaderIsMissed()
    ensures DaySplit(FIRST_LINE_EXAMPLE) == ["Day 1: Arrival", " City tour"]
    ensures DayHeaders(FIRST_LINE_EXAMPLE) == ["Day 2:"]
  {
    FirstLineExampleHeaders();
    ExampleSlices();
    OneHeaderSplit(FIRST_LINE_EXAMPLE, Header(14, 15, 19, 20));
  }

  /** A text with a single header splits into the text before it and the text after it. */
  lemma OneHeaderSplit(s: string, h: Header)
    requires h.start < h.title < h.colon < |s| && Headers(s) == [h]
    ensures DaySplit(s) == [s[..h.start], s[h.colon + 1..]]
    ensures DayHeaders(s) == [s[h.title..h.colon + 1]]
  {
    var hs := Headers(s);
    var pieces := DaySplit(s);
    assert |pieces| == 2 && |DayHeaders(s)| == 1;
    assert pieces[0] == Piece(s, hs, 0) == s[..h.start];
    assert pieces[1] == Piece(s, hs, 1) == s[h.colon + 1..];
    assert DayHeaders(s)[0] == s[h.title..h.colon + 1];
  }

  lemma ExampleSlices()
    ensures FIRST_LINE_EXAMPLE[..14] == "Day 1: Arrival"
    ensures FIRST_LINE_EXAMPLE[21..] == " City tour"
    ensures FIRST_LINE_EXAMPLE[15..21] == "Day 2:"
    ensures FIRST_LINE_EXAMPLE[14] == '\n' && |FIRST_LINE_EXAMPLE| == 31
  {
  }
}
