/**
 * The trip-settings form and the prompt the planner sends to the backend:
 * `build_prompt` and the choice between the typed request and the composed one.
 */
module PromptBuilder {
  import opened Wrappers
  import opened Text

  datatype BudgetLevel = Shoestring | Moderate | Comfort | Luxury

  datatype Vibe = Relaxed | FamilyFriendly | Adventure | Romantic | CultureFocused | Nightlife

  datatype Language = English | Hindi | Telugu | Tamil | Kannada | Bengali

  /**
   * The sidebar's settings. The start date is the already formatted
   * `start_date.isoformat()` text.
   */
  datatype TripRequest = TripRequest(
    destination: string,
    startDate: string,
    days: nat,
    travelers: nat,
    budgetLevel: BudgetLevel,
    vibe: Vibe,
    hotelStars: nat,
    mustInclude: string,
    avoid: string,
    language: Language)

  function BudgetLevelName(b: BudgetLevel): string {
    match b
    case Shoestring => "Shoestring"
    case Moderate => "Moderate"
    case Comfort => "Comfort"
    case Luxury => "Luxury"
  }

  function VibeName(v: Vibe): string {
    match v
    case Relaxed => "Relaxed"
    case FamilyFriendly => "Family-friendly"
    case Adventure => "Adventure"
    case Romantic => "Romantic"
    case CultureFocused => "Culture-focused"
    case Nightlife => "Nightlife"
  }

  function LanguageName(l: Language): string {
    match l
    case English => "English"
    case Hindi => "Hindi"
    case Telugu => "Telugu"
    case Tamil => "Tamil"
    case Kannada => "Kannada"
    case Bengali => "Bengali"
  }

  const DEFAULT_DESTINATION := "the selected city"

  const OUTPUT_SHAPE :=
    " Return a markdown itinerary with day-by-day sections, activities (morning/afternoon/evening), "
    + "reasonable commuting hints, estimated costs per day with a final budget summary, must-try food places, "
    + "and quick safety tips. Include a short paragraph 'Why this plan is unique' and a 3-line teaser at top."

  /** The fixed closing instructions, ending with the output language. */
  function Instructions(l: Language): string {
    OUTPUT_SHAPE + " Write in " + LanguageName(l) + "."
  }

  function Opening(days: nat): string {
    "Plan a " + NatToString(days) + "-day trip to "
  }

  /** The destination as the prompt names it: "the selected city" when none is set. */
  function ShownDestination(req: TripRequest): string {
    if req.destination != "" then req.destination else DEFAULT_DESTINATION
  }

  /** The trip, party and tone clauses that open every composed prompt. */
  function Preamble(req: TripRequest): string {
    var base := Opening(req.days) + ShownDestination(req) + " starting " + req.startDate + ".";
    var prefs := " Travelers: " + NatToString(req.travelers)
      + ". Budget: " + BudgetLevelName(req.budgetLevel)
      + ". Preferred hotel stars: " + NatToString(req.hotelStars) + ".";
    var tone := " Vibe: " + VibeName(req.vibe) + ".";
    base + prefs + tone
  }

  function MustIncludePart(mustInclude: string): string {
    if mustInclude != "" then " Must include: " + mustInclude + "." else ""
  }

  function AvoidPart(avoid: string): string {
    if avoid != "" then " Avoid: " + avoid + "." else ""
  }

  /** `build_prompt()`: the composed instruction for the backend. */
  function BuildPrompt(req: TripRequest): (prompt: string)
    ensures |prompt| > |Opening(req.days)| + |Instructions(req.language)|
    ensures prompt[..|Opening(req.days)|] == Opening(req.days)
    ensures prompt[|prompt| - |Instructions(req.language)|..] == Instructions(req.language)
  {
    var pre := Preamble(req);
    assert pre[..|Opening(req.days)|] == Opening(req.days);
    pre + MustIncludePart(req.mustInclude) + AvoidPart(req.avoid) + Instructions(req.language)
  }

  /**
   * The day count can be read back from the prompt: the digits right after
   * "Plan a " and before "-day" are the decimal rendering of `days`.
   */
  lemma PromptStatesDays(req: TripRequest)
    ensures StatesDays(BuildPrompt(req), req.days)
  {
    DaysAfterOpening(BuildPrompt(req), req.days);
  }

  /** The digits at offset 7 of `p`, up to a '-', spell `days` in decimal. */
  predicate StatesDays(p: string, days: nat) {
    var n := |NatToString(days)|;
    7 + n < |p| && AllDigits(p[7..7 + n]) && p[7 + n] == '-'
    && DecimalValue(p[7..7 + n]) == days
  }

  /** Any text that starts with the opening clause states the day count. */
  lemma DaysAfterOpening(p: string, days: nat)
    requires |p| > |Opening(days)| && p[..|Opening(days)|] == Opening(days)
    ensures StatesDays(p, days)
  {
    ReadDigits(p, Opening(days), NatToString(days));
    NatToStringRoundTrip(days);
  }

  /** A text that starts with the opening clause carries its digits at offset 7. */
  lemma ReadDigits(p: string, o: string, digits: string)
    requires o == "Plan a " + digits + "-day trip to " && |o| <= |p| && p[..|o|] == o
    ensures 7 + |digits| < |p| && p[7..7 + |digits|] == digits && p[7 + |digits|] == '-'
  {
    var n := |digits|;
    assert o[7..7 + n] == digits;
    assert o[7 + n] == '-';
    assert p[7..7 + n] == p[..|o|][7..7 + n];
    assert p[7 + n] == p[..|o|][7 + n];
  }

  /**
   * The "Must include" clause is present exactly when the field is non-empty:
   * a non-empty value inserts " Must include: X." right after the opening
   * trip, party and vibe clauses and changes nothing else; an empty one adds
   * nothing.
   */
  lemma MustIncludeClause(req: TripRequest)
    ensures var without := BuildPrompt(req.(mustInclude := ""));
      var k := |Preamble(req)|;
      k <= |without|
      && BuildPrompt(req) == without[..k]
        + (if req.mustInclude != "" then " Must include: " + req.mustInclude + "." else "")
        + without[k..]
  {
    PromptParts(req);
    PromptParts(req.(mustInclude := ""));
    assert |Preamble(req)| <= |BuildPrompt(req.(mustInclude := ""))|;
    Splice(Preamble(req), MustIncludePart(req.mustInclude), AvoidPart(req.avoid) + Instructions(req.language));
  }

  /** The composed prompt, clause group by clause group. */
  lemma PromptParts(req: TripRequest)
    ensures BuildPrompt(req)
      == Preamble(req) + MustIncludePart(req.mustInclude) + (AvoidPart(req.avoid) + Instructions(req.language))
    ensures Preamble(req.(mustInclude := "")) == Preamble(req)
    ensures Preamble(req.(avoid := "")) == Preamble(req)
  {
    var pre, m, a, i := Preamble(req), MustIncludePart(req.mustInclude), AvoidPart(req.avoid), Instructions(req.language);
    assert BuildPrompt(req) == pre + m + a + i;
    ConcatAssoc(pre + m, a, i);
    PreambleFields(req, req.(mustInclude := ""));
    PreambleFields(req, req.(avoid := ""));
  }

  /** The opening clauses depend on neither the "Must include" nor the "Avoid" field. */
  lemma PreambleFields(req: TripRequest, other: TripRequest)
    requires req.(mustInclude := "", avoid := "") == other.(mustInclude := "", avoid := "")
    ensures Preamble(req) == Preamble(other)
  {
    assert req.destination == other.destination && req.startDate == other.startDate;
    assert req.days == other.days && req.travelers == other.travelers && req.hotelStars == other.hotelStars;
    assert req.budgetLevel == other.budgetLevel && req.vibe == other.vibe;
  }

  /** Cutting `pre + rest` after `pre` and inserting `mid` there. */
  lemma Splice(pre: string, mid: string, rest: string)
    ensures (pre + rest)[..|pre|] + mid + (pre + rest)[|pre|..] == pre + mid + rest
  {
    assert (pre + rest)[..|pre|] == pre;
    assert (pre + rest)[|pre|..] == rest;
  }

  /**
   * The "Avoid" clause is present exactly when the field is non-empty, and
   * sits immediately before the closing instructions.
   */
  lemma AvoidClause(req: TripRequest)
    ensures var without := BuildPrompt(req.(avoid := ""));
      var k := |without| - |Instructions(req.language)|;
      0 <= k <= |without|
      && BuildPrompt(req) == without[..k]
        + (if req.avoid != "" then " Avoid: " + req.avoid + "." else "")
        + without[k..]
  {
    PromptParts(req);
    PromptParts(req.(avoid := ""));
    Splice(Preamble(req) + MustIncludePart(req.mustInclude), AvoidPart(req.avoid), Instructions(req.language));
  }

  /**
   * Every composed prompt opens with the trip, party and vibe clauses, in
   * that order: the day count, the destination and the start date; then the
   * number of travelers, the budget level and the hotel stars; then the vibe.
   */
  lemma PromptStatesTrip(req: TripRequest)
    ensures var base := Opening(req.days) + ShownDestination(req) + " starting " + req.startDate + ".";
      var party := " Travelers: " + NatToString(req.travelers) + ". Budget: " + BudgetLevelName(req.budgetLevel)
        + ". Preferred hotel stars: " + NatToString(req.hotelStars) + ".";
      var tone := " Vibe: " + VibeName(req.vibe) + ".";
      var pre := base + party + tone;
      |pre| <= |BuildPrompt(req)| && BuildPrompt(req)[..|pre|] == pre
  {
    PromptParts(req);
    HeadOfConcat(Preamble(req), MustIncludePart(req.mustInclude) + (AvoidPart(req.avoid) + Instructions(req.language)));
  }

  lemma HeadOfConcat(a: string, b: string)
    ensures |a| <= |a + b| && (a + b)[..|a|] == a
  {
  }

  /**
   * With neither a "Must include" nor an "Avoid" value, nothing comes between
   * the vibe clause and the closing instructions. Together with
   * `MustIncludeClause` and `AvoidClause`, this fixes every composed prompt.
   */
  lemma NoOptionalClauses(req: TripRequest)
    requires req.mustInclude == "" && req.avoid == ""
    ensures var base := Opening(req.days) + ShownDestination(req) + " starting " + req.startDate + ".";
      var party := " Travelers: " + NatToString(req.travelers) + ". Budget: " + BudgetLevelName(req.budgetLevel)
        + ". Preferred hotel stars: " + NatToString(req.hotelStars) + ".";
      var tone := " Vibe: " + VibeName(req.vibe) + ".";
      BuildPrompt(req) == base + party + tone + Instructions(req.language)
  {
    PromptParts(req);
    DropEmpty(Preamble(req), MustIncludePart(req.mustInclude), AvoidPart(req.avoid), Instructions(req.language));
  }

  lemma DropEmpty(pre: string, m: string, a: string, i: string)
    requires m == [] && a == []
    ensures pre + m + (a + i) == pre + i
  {
    assert a + i == i;
    assert pre + m == pre;
  }

  /** The destination, or "the selected city", follows the opening words directly. */
  lemma PromptNamesDestination(req: TripRequest)
    ensures var o, d := |Opening(req.days)|, ShownDestination(req);
      o + |d| <= |BuildPrompt(req)| && BuildPrompt(req)[o..o + |d|] == d
  {
    PromptStatesTrip(req);
    var party := " Travelers: " + NatToString(req.travelers) + ". Budget: " + BudgetLevelName(req.budgetLevel)
      + ". Preferred hotel stars: " + NatToString(req.hotelStars) + ".";
    var tone := " Vibe: " + VibeName(req.vibe) + ".";
    FollowsAt(BuildPrompt(req), Opening(req.days), ShownDestination(req), " starting ", req.startDate, ".", party, tone);
  }

  /** In a text that starts with `o + d + a + b + c + e + f`, `d` sits right after `o`. */
  lemma FollowsAt(p: string, o: string, d: string, a: string, b: string, c: string, e: string, f: string)
    requires var pre := o + d + a + b + c + e + f; |pre| <= |p| && p[..|pre|] == pre
    ensures |o| + |d| <= |p| && p[|o|..|o| + |d|] == d
  {
    var pre := o + d + a + b + c + e + f;
    assert forall k :: 0 <= k < |d| ==> p[|o| + k] == pre[|o| + k] == d[k];
  }

  /** An empty destination is written as "the selected city". */
  lemma EmptyDestinationIsSelectedCity(req: TripRequest)
    requires req.destination == ""
    ensures BuildPrompt(req) == BuildPrompt(req.(destination := DEFAULT_DESTINATION))
    ensures var o := |Opening(req.days)|;
      o + |DEFAULT_DESTINATION| <= |BuildPrompt(req)|
      && BuildPrompt(req)[o..o + |DEFAULT_DESTINATION|] == DEFAULT_DESTINATION
  {
    PromptNamesDestination(req);
  }

  /**
   * The prompt the form settles on: the stripped typed request if it is not
   * blank; otherwise the composed prompt when a destination is set; otherwise
   * nothing.
   */
  function FinalPrompt(userInput: string, req: TripRequest): (prompt: string)
    ensures Strip(userInput) != "" ==> prompt == Strip(userInput)
    ensures Strip(userInput) == "" && req.destination != "" ==> prompt == BuildPrompt(req)
    ensures prompt == "" <==> AllSpace(userInput) && req.destination == ""
  {
    var typed := if Strip(userInput) != "" then Strip(userInput) else "";
    if typed == "" && req.destination != "" then BuildPrompt(req) else typed
  }

  /** A typed request makes every sidebar setting irrelevant. */
  lemma TypedRequestWins(userInput: string, req: TripRequest, other: TripRequest)
    requires !AllSpace(userInput)
    ensures FinalPrompt(userInput, req) == FinalPrompt(userInput, other)
  {
  }

  /**
   * The prompt sent to the backend, if any: one is sent only when either
   * button was pressed and the final prompt is not empty.
   */
  function BackendRequest(userInput: string, req: TripRequest, generatePressed: bool, regeneratePressed: bool)
    : (sent: Option<string>)
    ensures sent.Some? <==> (generatePressed || regeneratePressed) && (!AllSpace(userInput) || req.destination != "")
    ensures sent.Some? ==> sent.value == FinalPrompt(userInput, req) && sent.value != ""
  {
    var prompt := FinalPrompt(userInput, req);
    if (generatePressed || regeneratePressed) && prompt != "" then Some(prompt) else None
  }
}
