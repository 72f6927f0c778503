/**
 * The budget tab's two scans of the generated plan: `extract_budget_lines`
 * picks the lines that look like money, and `budget_totals_from_lines` reads
 * "Category: amount" pairs out of them and adds the amounts up.
 */
module BudgetParser {
  import opened Wrappers
  import opened Text

  // ---------------------------------------------------------------------------
  // extract_budget_lines
  // ---------------------------------------------------------------------------

  const RUPEE: char := '\U{20B9}'

  /** At most this many budget lines are kept. */
  const MAX_BUDGET_LINES: nat := 20

  /**
   * The line contains, ignoring case, one of "budget", "cost", the rupee sign,
   * the dollar sign, "INR" or "USD".
   */
  predicate IsBudgetLine(ln: string) {
    var low := LowerAscii(ln);
    Contains(low, "budget") || Contains(low, "cost") || Contains(low, [RUPEE])
    || Contains(low, "$") || Contains(low, "inr") || Contains(low, "usd")
  }

  /** The keyword test ignores case: a line and its lower-cased form are alike. */
  lemma BudgetLineIgnoresCase(ln: string)
    ensures IsBudgetLine(ln) <==> IsBudgetLine(LowerAscii(ln))
  {
    LowerAsciiIdempotent(ln);
  }

  /** The budget lines among `lines`, in their original order. */
  function BudgetHits(lines: seq<string>): (hits: seq<string>)
    ensures |hits| <= |lines|
    ensures forall k :: 0 <= k < |hits| ==> IsBudgetLine(hits[k]) && hits[k] in lines
    decreases |lines|
  {
    if lines == [] then []
    else (if IsBudgetLine(lines[0]) then [lines[0]] else []) + BudgetHits(lines[1..])
  }

  /** Filtering a concatenation filters each part and keeps them in order. */
  lemma {:induction false} BudgetHitsAppend(a: seq<string>, b: seq<string>)
    ensures BudgetHits(a + b) == BudgetHits(a) + BudgetHits(b)
  {
    if a == [] {
      assert a + b == b;
    } else {
      assert (a + b)[1..] == a[1..] + b;
      BudgetHitsAppend(a[1..], b);
    }
  }

  /** No budget line is lost by the filter. */
  lemma {:induction false} BudgetHitsComplete(lines: seq<string>, k: nat)
    requires k < |lines| && IsBudgetLine(lines[k])
    ensures lines[k] in BudgetHits(lines)
  {
    if k > 0 {
      BudgetHitsComplete(lines[1..], k - 1);
    }
  }

  /** `extract_budget_lines(md)`: the first 20 budget lines of the text. */
  function ExtractBudgetLines(md: string): (r: seq<string>)
    ensures |r| <= MAX_BUDGET_LINES
    ensures forall k :: 0 <= k < |r| ==> IsBudgetLine(r[k])
    ensures var hits := BudgetHits(SplitLines(md));
      |r| == (if |hits| < MAX_BUDGET_LINES then |hits| else MAX_BUDGET_LINES) && r == hits[..|r|]
  {
    var hits := BudgetHits(SplitLines(md));
    if |hits| <= MAX_BUDGET_LINES then hits else hits[..MAX_BUDGET_LINES]
  }

  /** When fewer than 20 lines come back, every budget line of the text is among them. */
  lemma ExtractBudgetLinesComplete(md: string, k: nat)
    requires k < |SplitLines(md)| && IsBudgetLine(SplitLines(md)[k])
    requires |ExtractBudgetLines(md)| < MAX_BUDGET_LINES
    ensures SplitLines(md)[k] in ExtractBudgetLines(md)
  {
    BudgetHitsComplete(SplitLines(md), k);
  }

  // ---------------------------------------------------------------------------
  // The pattern ([A-Za-z ]+):\s*([₹$])?\s*([\d,]+), searched for in one line
  // ---------------------------------------------------------------------------

  predicate IsCurrency(c: char) {
    c == RUPEE || c == '$'
  }

  /** The text between the colon and the amount: \s*, an optional currency sign, \s*. */
  ghost predicate GapOk(s: string, a: nat, d: nat)
    requires a <= d <= |s|
  {
    (forall k :: a <= k < d ==> IsSpace(s[k]))
    || (exists q :: a <= q < d && IsCurrency(s[q]) && forall k :: a <= k < d && k != q ==> IsSpace(s[k]))
  }

  /**
   * The pattern matches at `i`: a name run s[i..c], the colon at `c`, and an
   * amount run starting at `d`.
   */
  ghost predicate CategoryMatchAt(s: string, i: nat, c: nat, d: nat) {
    i < c < d < |s|
    && (forall k :: i <= k < c ==> InClass(s[k], NameChars))
    && s[c] == ':'
    && GapOk(s, c + 1, d)
    && InClass(s[d], AmountChars)
  }

  ghost predicate HasCategoryMatch(s: string) {
    exists i, c, d :: CategoryMatchAt(s, i, c, d)
  }

  /**
   * One match: group 1 is s[start..colon] and group 3, the amount, is
   * s[amountStart..amountEnd].
   */
  datatype CategoryMatch = CategoryMatch(start: nat, colon: nat, amountStart: nat, amountEnd: nat)

  /** The regular-expression engine's attempt at position `i`, with its greedy runs. */
  function MatchCategoryAt(s: string, i: nat): (r: Option<CategoryMatch>)
    ensures r.Some? ==> r.value.start == i && i < r.value.colon < r.value.amountStart < r.value.amountEnd <= |s|
    ensures r.Some? ==> r.value.amountEnd == SkipClass(s, r.value.amountStart, AmountChars)
  {
    if i < |s| && InClass(s[i], NameChars) then
      var c := SkipClass(s, i, NameChars);
      if c < |s| && s[c] == ':' then
        var a := SkipClass(s, c + 1, Whitespace);
        if a < |s| && InClass(s[a], AmountChars) then
          Some(CategoryMatch(i, c, a, SkipClass(s, a, AmountChars)))
        else if a < |s| && IsCurrency(s[a]) then
          var d := SkipClass(s, a + 1, Whitespace);
          if d < |s| && InClass(s[d], AmountChars) then
            Some(CategoryMatch(i, c, d, SkipClass(s, d, AmountChars)))
          else None
        else None
      else None
    else None
  }

  /** What the attempt at `i` reports is a match of the pattern. */
  lemma MatchCategoryAtSound(s: string, i: nat)
    requires MatchCategoryAt(s, i).Some?
    ensures var m := MatchCategoryAt(s, i).value;
      CategoryMatchAt(s, i, m.colon, m.amountStart)
  {
    var m := MatchCategoryAt(s, i).value;
    var c := SkipClass(s, i, NameChars);
    var a := SkipClass(s, c + 1, Whitespace);
    if InClass(s[a], AmountChars) {
      assert GapOk(s, c + 1, a);
    } else {
      assert forall k :: c + 1 <= k < m.amountStart && k != a ==> IsSpace(s[k]);
      assert GapOk(s, c + 1, m.amountStart);
    }
  }

  /** Every match of the pattern at `i` is found by the attempt at `i`. */
  lemma MatchCategoryAtComplete(s: string, i: nat, c: nat, d: nat)
    requires CategoryMatchAt(s, i, c, d)
    ensures MatchCategoryAt(s, i) == Some(CategoryMatch(i, c, d, SkipClass(s, d, AmountChars)))
  {
    SkipClassUnique(s, i, c, NameChars);
    if forall k :: c + 1 <= k < d ==> IsSpace(s[k]) {
      SkipClassUnique(s, c + 1, d, Whitespace);
    } else {
      var q :| c + 1 <= q < d && IsCurrency(s[q]) && forall k :: c + 1 <= k < d && k != q ==> IsSpace(s[k]);
      CurrencyGap(s, i, c, q, d);
    }
  }

  /** The attempt at `i` when the gap after the colon holds a currency sign at `q`. */
  lemma CurrencyGap(s: string, i: nat, c: nat, q: nat, d: nat)
    requires i < c < q < d < |s| && SkipClass(s, i, NameChars) == c && s[c] == ':'
    requires InClass(s[i], NameChars) && InClass(s[d], AmountChars) && IsCurrency(s[q])
    requires forall k :: c + 1 <= k < d && k != q ==> IsSpace(s[k])
    ensures MatchCategoryAt(s, i) == Some(CategoryMatch(i, c, d, SkipClass(s, d, AmountChars)))
  {
    CurrencyGapRuns(s, c, q, d);
  }

  /** The two whitespace runs around the currency sign end at the sign and at the amount. */
  lemma CurrencyGapRuns(s: string, c: nat, q: nat, d: nat)
    requires c < q < d < |s| && InClass(s[d], AmountChars) && IsCurrency(s[q])
    requires forall k :: c + 1 <= k < d && k != q ==> IsSpace(s[k])
    ensures SkipClass(s, c + 1, Whitespace) == q && !InClass(s[q], AmountChars)
    ensures SkipClass(s, q + 1, Whitespace) == d
  {
    assert !IsSpace(s[q]) && !InClass(s[q], AmountChars) && !InClass(s[d], Whitespace);
    SkipClassUnique(s, c + 1, q, Whitespace);
    SkipClassUnique(s, q + 1, d, Whitespace);
  }

  /** `re.search`: the leftmost position from `i` on where the pattern matches. */
  function SearchCategory(s: string, i: nat): (r: Option<CategoryMatch>)
    requires i <= |s|
    ensures r.Some? ==> i <= r.value.start && MatchCategoryAt(s, r.value.start) == r
    decreases |s| - i
  {
    if i == |s| then None
    else
      match MatchCategoryAt(s, i)
      case Some(m) => Some(m)
      case None => SearchCategory(s, i + 1)
  }

  /** No attempt before the one the search reports, or at all when it reports none, succeeds. */
  lemma {:induction false} SearchCategoryFirst(s: string, i: nat, j: nat)
    requires i <= j <= |s|
    requires SearchCategory(s, i).Some? ==> j < SearchCategory(s, i).value.start
    ensures MatchCategoryAt(s, j).None?
    decreases |s| - i
  {
    if i < |s| {
      SearchCategoryHere(s, i);
      if i < j {
        SearchCategoryFirst(s, i + 1, j);
      }
    }
  }

  /** A search that reports nothing at `i`, or a later match, moves past `i`. */
  lemma SearchCategoryHere(s: string, i: nat)
    requires i < |s|
    requires SearchCategory(s, i).Some? ==> i < SearchCategory(s, i).value.start
    ensures MatchCategoryAt(s, i).None? && SearchCategory(s, i) == SearchCategory(s, i + 1)
  {
  }

  /**
   * The search finds a match exactly when the line has one, and the match it
   * finds is the leftmost.
   */
  lemma SearchCategoryLeftmost(s: string)
    ensures SearchCategory(s, 0).None? <==> !HasCategoryMatch(s)
    ensures SearchCategory(s, 0).Some? ==>
      var m := SearchCategory(s, 0).value;
      CategoryMatchAt(s, m.start, m.colon, m.amountStart)
      && forall j: nat, c: nat, d: nat :: j < m.start ==> !CategoryMatchAt(s, j, c, d)
  {
    var r := SearchCategory(s, 0);
    forall j: nat, c: nat, d: nat | CategoryMatchAt(s, j, c, d)
      ensures r.Some? && r.value.start <= j
    {
      MatchCategoryAtComplete(s, j, c, d);
      if r.None? || j < r.value.start {
        SearchCategoryFirst(s, 0, j);
      }
    }
    if r.Some? {
      MatchCategoryAtSound(s, r.value.start);
    }
  }

  // ---------------------------------------------------------------------------
  // budget_totals_from_lines
  // ---------------------------------------------------------------------------

  /** One parsed category: the stripped name and the amount. */
  datatype Category = Category(name: string, amount: nat)

  /** What the loop body does with one line. */
  datatype LineOutcome =
    | NoCategory       // the pattern does not match
    | Entry(category: Category)
    | EmptyAmount      // the amount is commas only: float("") raises ValueError

  function ParseLine(ln: string): (r: LineOutcome)
    ensures r.NoCategory? <==> SearchCategory(ln, 0).None?
  {
    match SearchCategory(ln, 0)
    case None => NoCategory
    case Some(m) => MatchOutcome(ln, m)
  }

  /**
   * The outcome of a line whose match is `m`: the stripped name and the
   * amount with its commas removed, or the failure of `float("")`.
   */
  function MatchOutcome(ln: string, m: CategoryMatch): (r: LineOutcome)
    requires m.start <= m.colon <= |ln| && m.amountStart <= m.amountEnd <= |ln|
    requires forall k :: m.amountStart <= k < m.amountEnd ==> InClass(ln[k], AmountChars)
    ensures !r.NoCategory?
  {
    var amount := ln[m.amountStart..m.amountEnd];
    assert forall k :: 0 <= k < |amount| ==> InClass(amount[k], AmountChars) by {
      assert forall k :: 0 <= k < |amount| ==> amount[k] == ln[m.amountStart + k];
    }
    var digits := RemoveCommas(amount);
    if digits == [] then EmptyAmount
    else Entry(Category(Strip(ln[m.start..m.colon]), DecimalValue(digits)))
  }

  /** A line yields no category exactly when the pattern does not match it. */
  lemma ParseLineNoCategory(ln: string)
    ensures ParseLine(ln).NoCategory? <==> !HasCategoryMatch(ln)
  {
    SearchCategoryLeftmost(ln);
  }

  /**
   * A line fails exactly when the pattern matches it and the amount group of
   * the leftmost match is commas only.
   */
  lemma ParseLineEmptyAmount(ln: string)
    ensures ParseLine(ln).EmptyAmount? <==>
      (SearchCategory(ln, 0).Some?
       && var m := SearchCategory(ln, 0).value;
          forall k :: m.amountStart <= k < m.amountEnd ==> ln[k] == ',')
  {
    if SearchCategory(ln, 0).Some? {
      var m := SearchCategory(ln, 0).value;
      CommasOnlySlice(ln, m.amountStart, m.amountEnd);
      assert ParseLine(ln).EmptyAmount? <==> RemoveCommas(ln[m.amountStart..m.amountEnd]) == [];
    }
  }

  /** Removing the commas of a slice leaves nothing exactly when the slice is commas only. */
  lemma CommasOnlySlice(ln: string, a: nat, e: nat)
    requires a <= e <= |ln|
    ensures RemoveCommas(ln[a..e]) == [] <==> forall k :: a <= k < e ==> ln[k] == ','
  {
    var g := ln[a..e];
    assert forall k :: a <= k < e ==> ln[k] == g[k - a];
  }

  /** The outcome of every line, in order. */
  function Outcomes(lines: seq<string>): (outs: seq<LineOutcome>)
    ensures |outs| == |lines|
    ensures forall k :: 0 <= k < |lines| ==> outs[k] == ParseLine(lines[k])
  {
    seq(|lines|, k requires 0 <= k < |lines| => ParseLine(lines[k]))
  }

  /** The categories of all lines, or the index of the line whose amount fails to parse. */
  datatype CategoriesOutcome = Parsed(categories: seq<Category>) | AmountFailure(line: nat)

  /**
   * The loop of `budget_totals_from_lines` over the lines' outcomes: it
   * appends each entry and stops at the first failure.
   */
  function Collect(outs: seq<LineOutcome>): (r: CategoriesOutcome)
    ensures r.Parsed? ==> |r.categories| <= |outs|
    ensures r.AmountFailure? ==> r.line < |outs|
    decreases |outs|
  {
    if outs == [] then Parsed([])
    else
      match Collect(outs[..|outs| - 1])
      case AmountFailure(k) => AmountFailure(k)
      case Parsed(cats) =>
        match outs[|outs| - 1]
        case NoCategory => Parsed(cats)
        case Entry(cat) => Parsed(cats + [cat])
        case EmptyAmount => AmountFailure(|outs| - 1)
  }

  /**
   * The categories of a concatenation are those of the first part followed by
   * those of the second: one entry per matching line, in line order.
   */
  lemma {:induction false} CollectAppend(a: seq<LineOutcome>, b: seq<LineOutcome>)
    ensures Collect(a + b) ==
      match Collect(a)
      case AmountFailure(k) => AmountFailure(k)
      case Parsed(ca) =>
        match Collect(b)
        case AmountFailure(k) => AmountFailure(|a| + k)
        case Parsed(cb) => Parsed(ca + cb)
    decreases |b|
  {
    if b == [] {
      assert a + b == a;
    } else {
      var b' := b[..|b| - 1];
      assert (a + b)[..|a + b| - 1] == a + b';
      assert (a + b)[|a + b| - 1] == b[|b| - 1];
      CollectAppend(a, b');
    }
  }

  /** Nothing is collected and nothing fails exactly when no line matches. */
  lemma {:induction false} CollectNothing(outs: seq<LineOutcome>)
    ensures Collect(outs) == Parsed([]) <==> forall k :: 0 <= k < |outs| ==> outs[k].NoCategory?
    decreases |outs|
  {
    if outs != [] {
      var init := outs[..|outs| - 1];
      CollectNothing(init);
      assert forall k :: 0 <= k < |init| ==> init[k] == outs[k];
    }
  }

  /** A failure is reported at the first failing line, and whenever there is one. */
  lemma {:induction false} CollectFailure(outs: seq<LineOutcome>)
    ensures Collect(outs).AmountFailure? <==> exists k :: 0 <= k < |outs| && outs[k].EmptyAmount?
    ensures Collect(outs).AmountFailure? ==>
      (var k := Collect(outs).line;
       outs[k].EmptyAmount? && forall j :: 0 <= j < k ==> !outs[j].EmptyAmount?)
    decreases |outs|
  {
    if outs != [] {
      var init := outs[..|outs| - 1];
      CollectFailure(init);
      assert forall j :: 0 <= j < |init| ==> init[j] == outs[j];
    }
  }

  /** The entries collected are exactly the entries of the lines, in order. */
  lemma {:induction false} CollectEntries(outs: seq<LineOutcome>)
    requires Collect(outs).Parsed?
    ensures Collect(outs).categories == Entries(outs)
    decreases |outs|
  {
    if outs != [] {
      var init := outs[..|outs| - 1];
      CollectEntries(init);
      assert outs == init + [outs[|outs| - 1]];
      EntriesAppend(init, [outs[|outs| - 1]]);
    }
  }

  /** The categories of the matching lines, front to back. */
  function Entries(outs: seq<LineOutcome>): seq<Category> {
    if outs == [] then []
    else (if outs[0].Entry? then [outs[0].category] else []) + Entries(outs[1..])
  }

  lemma {:induction false} EntriesAppend(a: seq<LineOutcome>, b: seq<LineOutcome>)
    ensures Entries(a + b) == Entries(a) + Entries(b)
  {
    if a == [] {
      assert a + b == b;
    } else {
      var head := if a[0].Entry? then [a[0].category] else [];
      assert (a + b)[0] == a[0];
      assert (a + b)[1..] == a[1..] + b;
      assert Entries(a + b) == head + Entries(a[1..] + b);
      EntriesAppend(a[1..], b);
      assert Entries(a) == head + Entries(a[1..]);
      assert head + (Entries(a[1..]) + Entries(b)) == (head + Entries(a[1..])) + Entries(b);
    }
  }

  /** What the budget tab gets back from `budget_totals_from_lines`. */
  datatype BudgetResult =
    | NoBudgetData                                        // None
    | Budget(total: nat, categories: seq<Category>)       // (total, cats)
    | AmountError(line: nat)                              // ValueError at this line

  function SumAmounts(cats: seq<Category>): nat {
    if cats == [] then 0 else SumAmounts(cats[..|cats| - 1]) + cats[|cats| - 1].amount
  }

  /** The result `budget_totals_from_lines` computes, as a function of its lines. */
  function BudgetTotals(lines: seq<string>): BudgetResult {
    match Collect(Outcomes(lines))
    case AmountFailure(k) => AmountError(k)
    case Parsed(cats) => if cats == [] then NoBudgetData else Budget(SumAmounts(cats), cats)
  }

  /**
   * `budget_totals_from_lines(lines)`: collect a category for every matching
   * line, then report their sum, or None when there are none.
   */
  method BudgetTotalsFromLines(lines: seq<string>) returns (res: BudgetResult)
    ensures res == BudgetTotals(lines)
  {
    ghost var outs := Outcomes(lines);
    var cats: seq<Category> := [];
    var i := 0;
    while i < |lines|
      invariant 0 <= i <= |lines|
      invariant Collect(outs[..i]) == Parsed(cats)
    {
      var o := ParseLine(lines[i]);
      assert o == outs[i];
      CollectStep(outs, i, cats);
      match o {
        case NoCategory =>
        case Entry(cat) =>
          cats := cats + [cat];
        case EmptyAmount =>
          FailureIsFinal(outs, i);
          return AmountError(i);
      }
      i := i + 1;
    }
    assert outs[..i] == outs;
    if cats != [] {
      res := Budget(SumAmounts(cats), cats);
    } else {
      res := NoBudgetData;
    }
  }

  /** One more line: its outcome decides how the collected categories grow. */
  lemma CollectStep(outs: seq<LineOutcome>, i: nat, cats: seq<Category>)
    requires i < |outs| && Collect(outs[..i]) == Parsed(cats)
    ensures Collect(outs[..i + 1]) ==
      match outs[i]
      case NoCategory => Parsed(cats)
      case Entry(c) => Parsed(cats + [c])
      case EmptyAmount => AmountFailure(i)
  {
    assert outs[..i + 1][..i] == outs[..i];
  }

  /** A failure stops the loop: no later line changes the outcome. */
  lemma FailureIsFinal(outs: seq<LineOutcome>, i: nat)
    requires i < |outs| && Collect(outs[..i + 1]) == AmountFailure(i)
    ensures Collect(outs) == AmountFailure(i)
  {
    CollectAppend(outs[..i + 1], outs[i + 1..]);
    assert outs[..i + 1] + outs[i + 1..] == outs;
  }

  /**
   * None means that no line matches the pattern; a total of zero is not
   * None.
   */
  lemma NoBudgetDataIffNoMatch(lines: seq<string>)
    ensures BudgetTotals(lines) == NoBudgetData <==>
      forall k :: 0 <= k < |lines| ==> !HasCategoryMatch(lines[k])
  {
    var outs := Outcomes(lines);
    CollectNothing(outs);
    forall k | 0 <= k < |lines| ensures outs[k].NoCategory? <==> !HasCategoryMatch(lines[k]) {
      ParseLineNoCategory(lines[k]);
    }
  }

  /**
   * When data comes back, it holds one category per matching line, in line
   * order, and the total is their sum.
   */
  lemma BudgetIsEntriesOfLines(lines: seq<string>)
    requires BudgetTotals(lines).Budget?
    ensures BudgetTotals(lines).categories == Entries(Outcomes(lines))
    ensures BudgetTotals(lines).total == SumAmounts(Entries(Outcomes(lines)))
  {
    CollectEntries(Outcomes(lines));
  }

  /**
   * A failure names the first line whose amount is commas only, and happens
   * whenever there is such a line.
   */
  lemma AmountErrorIsFirstCommasOnlyLine(lines: seq<string>)
    ensures BudgetTotals(lines).AmountError? <==> exists k :: 0 <= k < |lines| && ParseLine(lines[k]).EmptyAmount?
    ensures BudgetTotals(lines).AmountError? ==>
      (var k := BudgetTotals(lines).line;
       k < |lines| && ParseLine(lines[k]).EmptyAmount?
       && forall j :: 0 <= j < k ==> !ParseLine(lines[j]).EmptyAmount?)
  {
    var outs := Outcomes(lines);
    CollectFailure(outs);
    if exists k :: 0 <= k < |lines| && ParseLine(lines[k]).EmptyAmount? {
      var k :| 0 <= k < |lines| && ParseLine(lines[k]).EmptyAmount?;
      assert outs[k].EmptyAmount?;
    }
  }

  /** The total is the sum of the category amounts, and a sum of several parts adds up. */
  lemma {:induction false} SumAmountsAppend(a: seq<Category>, b: seq<Category>)
    ensures SumAmounts(a + b) == SumAmounts(a) + SumAmounts(b)
    decreases |b|
  {
    if b == [] {
      assert a + b == a;
    } else {
      assert (a + b)[..|a + b| - 1] == a + b[..|b| - 1];
      SumAmountsAppend(a, b[..|b| - 1]);
    }
  }

  // ---------------------------------------------------------------------------
  // Worked examples
  // ---------------------------------------------------------------------------

  /**
   * `ln` reads "Name: 1,250", or "Name: \U{20B9}1,250" with a currency sign:
   * letters up to the colon at `c`, one space, the optional sign, and an
   * amount from `d` to the end of the line.
   */
  predicate LabelledAt(ln: string, c: nat, d: nat) {
    0 < c && c + 2 <= d < |ln| && (d == c + 2 || (d == c + 3 && IsCurrency(ln[c + 2])))
    && (forall k :: 0 <= k < c ==> IsAsciiLetter(ln[k]))
    && ln[c] == ':' && ln[c + 1] == ' '
    && (forall k :: d <= k < |ln| ==> InClass(ln[k], AmountChars))
  }

  /** Such a line is matched as a whole: the name before the colon, the amount to the end. */
  lemma LabelledAmountMatch(ln: string, c: nat, d: nat)
    requires LabelledAt(ln, c, d)
    ensures SearchCategory(ln, 0) == Some(CategoryMatch(0, c, d, |ln|))
  {
    SkipClassUnique(ln, 0, c, NameChars);
    SkipClassUnique(ln, c + 1, c + 2, Whitespace);
    if d == c + 3 {
      SkipClassUnique(ln, c + 3, c + 3, Whitespace);
    }
    SkipClassUnique(ln, d, |ln|, AmountChars);
    assert MatchCategoryAt(ln, 0) == Some(CategoryMatch(0, c, d, |ln|));
  }

  /**
   * Such a line yields its name and its amount with the commas removed, or
   * fails when the amount is commas only.
   */
  lemma LabelledAmountLine(ln: string, c: nat, d: nat)
    requires LabelledAt(ln, c, d)
    ensures forall k :: 0 <= k < |ln[d..]| ==> InClass(ln[d..][k], AmountChars)
    ensures var digits := RemoveCommas(ln[d..]);
      ParseLine(ln) == if digits == [] then EmptyAmount else Entry(Category(ln[..c], DecimalValue(digits)))
  {
    LabelledAmountMatch(ln, c, d);
    ParseLineOfParts(ln, CategoryMatch(0, c, d, |ln|), ln[..c], ln[d..]);
    StripUnpadded(ln[..c]);
  }

  /** "Name: " followed by an optional sign and an amount is such a line. */
  lemma LabelledConcat(name: string, sign: string, amount: string)
    requires name != [] && forall k :: 0 <= k < |name| ==> IsAsciiLetter(name[k])
    requires sign == "" || (|sign| == 1 && IsCurrency(sign[0]))
    requires amount != [] && forall k :: 0 <= k < |amount| ==> InClass(amount[k], AmountChars)
    ensures var s, d := name + ": " + sign + amount, |name| + 2 + |sign|;
      LabelledAt(s, |name|, d) && s[..|name|] == name && s[d..] == amount
  {
    var s := name + ": " + sign + amount;
    var c, d := |name|, |name| + 2 + |sign|;
    LabelledAmountParts(name, sign, amount);
    assert forall k :: 0 <= k < c ==> s[k] == name[k];
    assert s[c] == ':' && s[c + 1] == ' ';
    assert sign != "" ==> s[c + 2] == sign[0];
    assert forall k :: d <= k < |s| ==> s[k] == amount[k - d];
  }

  /** The outcome of a line, read off the name and amount groups of its leftmost match. */
  lemma ParseLineOfParts(ln: string, m: CategoryMatch, name: string, amount: string)
    requires SearchCategory(ln, 0) == Some(m)
    requires ln[m.start..m.colon] == name && ln[m.amountStart..m.amountEnd] == amount
    ensures forall k :: 0 <= k < |amount| ==> InClass(amount[k], AmountChars)
    ensures var digits := RemoveCommas(amount);
      ParseLine(ln) == if digits == [] then EmptyAmount else Entry(Category(Strip(name), DecimalValue(digits)))
  {
    assert ParseLine(ln) == MatchOutcome(ln, m);
    AmountGroupChars(ln, m, amount);
    OutcomeOfParts(ln, m, name, amount);
  }

  /** The outcome of a match, read off its name and amount groups. */
  lemma OutcomeOfParts(ln: string, m: CategoryMatch, name: string, amount: string)
    requires m.start <= m.colon <= |ln| && m.amountStart <= m.amountEnd <= |ln|
    requires forall k :: m.amountStart <= k < m.amountEnd ==> InClass(ln[k], AmountChars)
    requires ln[m.start..m.colon] == name && ln[m.amountStart..m.amountEnd] == amount
    ensures var digits := RemoveCommas(amount);
      MatchOutcome(ln, m) == if digits == [] then EmptyAmount else Entry(Category(Strip(name), DecimalValue(digits)))
  {
  }

  /** The amount group holds only amount characters. */
  lemma AmountGroupChars(ln: string, m: CategoryMatch, amount: string)
    requires m.amountStart <= m.amountEnd <= |ln|
    requires forall k :: m.amountStart <= k < m.amountEnd ==> InClass(ln[k], AmountChars)
    requires ln[m.amountStart..m.amountEnd] == amount
    ensures forall k :: 0 <= k < |amount| ==> InClass(amount[k], AmountChars)
  {
    assert forall k :: 0 <= k < |amount| ==> amount[k] == ln[m.amountStart + k];
  }

  /** The name and the amount are the slices before the colon and after the sign. */
  lemma LabelledAmountParts(name: string, sign: string, amount: string)
    ensures var s := name + ": " + sign + amount;
      s[|name| + 2 + |sign|..|s|] == amount && s[0..|name|] == name
  {
    SliceConcat(name + ": " + sign, amount);
    ConcatAssoc(name, ": ", sign);
    ConcatAssoc(name, ": " + sign, amount);
    SliceConcat(name, ": " + sign + amount);
  }

  /** A matching line with amount 0 is data with total 0, not None. */
  lemma ZeroAmountIsData(name: string, sign: string)
    requires name != [] && forall k :: 0 <= k < |name| ==> IsAsciiLetter(name[k])
    requires sign == "" || (|sign| == 1 && IsCurrency(sign[0]))
    ensures BudgetTotals([name + ": " + sign + "0"]) == Budget(0, [Category(name, 0)])
  {
    assert DecimalValue("0") == 0;
    DigitsLine(name, sign, "0");
    OneEntry(name + ": " + sign + "0", Category(name, 0));
  }

  /** An amount made of commas only is the error case: Python's float("") raises. */
  lemma CommasOnlyAmountFails(name: string, sign: string, commas: string)
    requires name != [] && forall k :: 0 <= k < |name| ==> IsAsciiLetter(name[k])
    requires sign == "" || (|sign| == 1 && IsCurrency(sign[0]))
    requires commas != [] && forall k :: 0 <= k < |commas| ==> commas[k] == ','
    ensures BudgetTotals([name + ": " + sign + commas]) == AmountError(0)
  {
    var s := name + ": " + sign + commas;
    assert ParseLine(s) == EmptyAmount by {
      LabelledConcat(name, sign, commas);
      LabelledAmountLine(s, |name|, |name| + 2 + |sign|);
    }
    OneFailure(s);
  }

  /** A single line that yields a category: that category is the whole budget. */
  lemma OneEntry(ln: string, c: Category)
    requires ParseLine(ln) == Entry(c)
    ensures BudgetTotals([ln]) == Budget(c.amount, [c])
  {
    assert Outcomes([ln]) == [Entry(c)];
    CollectOne(c);
  }

  /** A single line whose amount fails: the error names line 0. */
  lemma OneFailure(ln: string)
    requires ParseLine(ln) == EmptyAmount
    ensures BudgetTotals([ln]) == AmountError(0)
  {
    var outs := Outcomes([ln]);
    assert outs == [EmptyAmount] && outs[..0] == [];
  }

  /**
   * Two lines that each yield a category, such as "Accommodation: \U{20B9}5000"
   * and "Food: \U{20B9}2000" (see DigitsLine): both categories, in line order,
   * and the sum of their amounts.
   */
  lemma TwoEntries(l1: string, l2: string, c1: Category, c2: Category)
    requires ParseLine(l1) == Entry(c1) && ParseLine(l2) == Entry(c2)
    ensures BudgetTotals([l1, l2]) == Budget(c1.amount + c2.amount, [c1, c2])
  {
    OutcomesTwo(l1, l2);
    CollectTwo(c1, c2);
  }

  lemma OutcomesTwo(l1: string, l2: string)
    ensures Outcomes([l1, l2]) == [ParseLine(l1), ParseLine(l2)]
  {
    var outs := Outcomes([l1, l2]);
    assert outs[0] == ParseLine(l1) && outs[1] == ParseLine(l2);
  }

  lemma CollectOne(c: Category)
    ensures Collect([Entry(c)]) == Parsed([c]) && SumAmounts([c]) == c.amount
  {
    assert [Entry(c)][..0] == [];
    assert [c][..0] == [];
  }

  lemma CollectTwo(c1: Category, c2: Category)
    ensures Collect([Entry(c1), Entry(c2)]) == Parsed([c1, c2])
    ensures SumAmounts([c1, c2]) == c1.amount + c2.amount
  {
    CollectOne(c1);
    assert [Entry(c1), Entry(c2)][..1] == [Entry(c1)];
    assert [c1, c2][..1] == [c1];
  }

  /** A labelled line whose amount is plain digits yields that number. */
  lemma DigitsLine(name: string, sign: string, amount: string)
    requires name != [] && forall k :: 0 <= k < |name| ==> IsAsciiLetter(name[k])
    requires sign == "" || (|sign| == 1 && IsCurrency(sign[0]))
    requires amount != [] && AllDigits(amount)
    ensures ParseLine(name + ": " + sign + amount) == Entry(Category(name, DecimalValue(amount)))
  {
    var s := name + ": " + sign + amount;
    LabelledConcat(name, sign, amount);
    LabelledAmountLine(s, |name|, |name| + 2 + |sign|);
    RemoveCommasOfDigits(amount);
  }


}
