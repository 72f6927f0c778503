# AI Trip Planner — a verified model of its text-handling core

The trip planner is a Streamlit page. It turns the sidebar's trip settings
into a prompt and sends the prompt to a question-answering backend. It then
shows the markdown plan it gets back in tabs (overview, day plan, map,
budget, weather). A companion module picks the Groq model the backend uses.
This project models the logic in those two files and proves what it
promises:

- **PromptBuilder** (`prompt.dfy`): `build_prompt`, and the choice between
  the typed request and the composed prompt.
- **BudgetParser** (`budget.dfy`): `extract_budget_lines`, which keeps at
  most 20 lines that look like money. Also `budget_totals_from_lines`,
  which reads "Category: amount" pairs from those lines and adds the
  amounts up.
- **DaySections** (`days.dfy`): the "Day Plan" tab. It splits the plan at
  `\n Day N:` headers with `re.split` and `re.findall`, then renders one
  expander per section.
- **WeatherBlock** (`weather.dfy`): the "Weather" tab. It scans for the
  first line that starts with "Weather" and collects lines up to the first
  blank one.
- **ModelLoader** (`model_loader.dfy`): `_resolve_groq_model`, meaning the
  priority chain environment variable, then config, then default, followed
  by the decommissioned-model fallback. Also the key guard and allow-list
  check of `load_llm`, as a function returning a `Result`.
- **Text** and **Wrappers** (`text.dfy`): the parts of Python's `str` and
  `re` the code relies on. These are `strip`, `splitlines`, `replace(",", "")`,
  `str(int)`, greedy character-class runs and ASCII case folding. Also the
  `Option` and `Result` types.

Each pattern searched with a regular expression is modelled in one of two
ways. The keyword test of `extract_budget_lines` is stated directly, as
`BudgetParser.IsBudgetLine`. It accepts a line when its ASCII-lower-cased
form contains "budget", "cost", "₹", "$", "inr" or "usd". The other three
patterns are hand-written scanners. The weather-line scanner is
`WeatherBlock.IsWeatherLine`, which accepts a run of whitespace followed by
"weather" in any case. The three scanners are:
- the category pattern of `budget_totals_from_lines`;
- the day-header pattern;
- the weather-line pattern.

Each scanner tries the pattern at one position and is proved sound and
complete against a separate predicate saying when the pattern matches
there. For the first two, a leftmost search calls the scanner at each
position in turn.

Each loop in the source that computes a value is a method with a `while`
loop. The budget loop and the weather loop (`CollectBlock`, called by
`ScanWeather`) are proved equal to a specification function, and lemmas
then prove the source's promises about that function. The expander loop of
the day plan is proved against an ensures that gives each section's title,
text and expanded flag.

The code has these edge cases, which the model keeps:

- A "Day N:" header counts only after a line feed (`\n\s*Day…`). So a plan
  whose first line is "Day 1: Arrival" gets no section for day 1. Its text
  becomes the piece before the first header, which the tab never shows.
  `DaySections.FirstLineHeaderIsMissed` proves this for
  "Day 1: Arrival\nDay 2: City tour". The tab shows one section, titled
  "Day 2:".
- Only the Groq provider exists.
- A `GROQ_MODEL` made only of whitespace is truthy, so it wins the priority
  chain. Stripped, it gives the empty model name rather than the default
  (`ModelLoader.BlankEnvironmentGivesEmptyName`).
- An amount made only of commas ("Food: ,,,") makes `float("")` raise. The
  exception is not caught, so `budget_totals_from_lines` fails. The model
  returns `AmountError(line)` for the first such line.

## Model

| member | source | states |
|---|---|---|
| `PromptBuilder.BuildPrompt` | streamlit_app.py:87-102 | the prompt opens with "Plan a {days}-day trip to " and ends with the fixed output instructions naming the language |
| `PromptBuilder.PromptStatesDays` | streamlit_app.py:88 | the digits right after "Plan a " and before "-" read back as the requested number of days |
| `PromptBuilder.PromptStatesTrip` | streamlit_app.py:88-90 | every composed prompt opens with "Plan a {days}-day trip to {destination} starting {date}.", then the travelers, budget level and hotel stars clauses, then the vibe clause, in that order |
| `PromptBuilder.PromptNamesDestination` | streamlit_app.py:88 | the destination, or "the selected city" when it is empty, follows the opening words directly |
| `PromptBuilder.EmptyDestinationIsSelectedCity` | streamlit_app.py:88 | an empty destination gives the same prompt as the destination "the selected city", and that phrase appears right after the opening words |
| `PromptBuilder.NoOptionalClauses` | streamlit_app.py:87-102 | with empty "Must include" and "Avoid" values, the prompt is exactly the trip, party and vibe clauses followed by the instructions; nothing else comes between them |
| `PromptBuilder.MustIncludeClause` | streamlit_app.py:92-93 | a non-empty must-include value inserts " Must include: X." right after the preamble and changes nothing else; an empty one adds nothing |
| `PromptBuilder.AvoidClause` | streamlit_app.py:94-95 | a non-empty avoid value inserts " Avoid: X." right before the instructions and changes nothing else; an empty one adds nothing |
| `PromptBuilder.FinalPrompt` | streamlit_app.py:183-186 | a typed request, stripped, wins; otherwise the composed prompt if a destination is set; the result is empty exactly when the request is blank and there is no destination |
| `PromptBuilder.TypedRequestWins` | streamlit_app.py:183 | with a non-blank typed request, the sidebar settings do not affect the final prompt |
| `PromptBuilder.BackendRequest` | streamlit_app.py:188-190 | the backend is called exactly when a button was pressed and the final prompt is non-empty, and it is sent that prompt |
| `BudgetParser.BudgetHits` | streamlit_app.py:119 | each kept line is a budget line taken from the input, and there are no more of them than input lines |
| `BudgetParser.BudgetHitsAppend` | streamlit_app.py:119 | the filter works line by line: the hits of a concatenation are the hits of each part, in order |
| `BudgetParser.BudgetHitsComplete` | streamlit_app.py:119 | every budget line is kept |
| `BudgetParser.ExtractBudgetLines` | streamlit_app.py:117-120 | at most 20 lines; each is a budget line; they are the first min(20, number of hits) budget lines of the plan, in order |
| `BudgetParser.ExtractBudgetLinesComplete` | streamlit_app.py:117-120 | when fewer than 20 lines come back, every budget line of the plan is among them |
| `BudgetParser.MatchCategoryAt` | streamlit_app.py:127 | an attempt at `i` that succeeds starts at `i`, has its colon before a non-empty amount run inside the line, and that amount run is as long as possible |
| `BudgetParser.MatchCategoryAtSound` | streamlit_app.py:127 | what the attempt at `i` reports is a match of `([A-Za-z ]+):\s*([₹$])?\s*([\d,]+)` at `i` |
| `BudgetParser.MatchCategoryAtComplete` | streamlit_app.py:127 | every match of the pattern at `i` is the one the attempt finds |
| `BudgetParser.SearchCategory` | streamlit_app.py:127 | a result from `i` on is the attempt at its own start position |
| `BudgetParser.SearchCategoryFirst` | streamlit_app.py:127 | no attempt before the search result succeeds |
| `BudgetParser.SearchCategoryLeftmost` | streamlit_app.py:127 | `re.search` finds nothing exactly when the line has no match; otherwise it finds a match and none starts earlier |
| `BudgetParser.ParseLine` | streamlit_app.py:127-131 | a line yields no category exactly when the search fails |
| `BudgetParser.MatchOutcome` | streamlit_app.py:129-131 | a match always yields a category or an amount failure, never "no category" |
| `BudgetParser.ParseLineNoCategory` | streamlit_app.py:127-128 | a line is skipped exactly when the pattern matches nowhere in it |
| `BudgetParser.ParseLineEmptyAmount` | streamlit_app.py:130 | a line fails exactly when its leftmost match has an amount group made only of commas |
| `BudgetParser.Collect` | streamlit_app.py:126-131 | the categories collected are no more than the lines, and a failure names a line |
| `BudgetParser.CollectAppend` | streamlit_app.py:126-131 | the loop over a concatenation is the loop over the first part, then the second part (line numbers shifted); a failure stops it |
| `BudgetParser.CollectNothing` | streamlit_app.py:126-132 | nothing is collected exactly when no line matches |
| `BudgetParser.CollectFailure` | streamlit_app.py:130 | the loop fails exactly when some line's amount is commas only, and it fails at the first such line |
| `BudgetParser.CollectEntries` | streamlit_app.py:126-131 | when the loop succeeds, the categories are the entries of the lines in line order |
| `BudgetParser.EntriesAppend` | streamlit_app.py:131 | the entries of a concatenation are the entries of each part |
| `BudgetParser.BudgetTotalsFromLines` | streamlit_app.py:122-135 | the loop method computes the specification `BudgetTotals` of its lines |
| `BudgetParser.NoBudgetDataIffNoMatch` | streamlit_app.py:132-135 | `None` comes back exactly when no line matches the pattern; a zero total is not `None` |
| `BudgetParser.BudgetIsEntriesOfLines` | streamlit_app.py:131-134 | the categories returned are the entries of the lines, in order, and the total is the sum of their amounts |
| `BudgetParser.AmountErrorIsFirstCommasOnlyLine` | streamlit_app.py:130 | the call fails exactly when some line's amount is commas only, and it fails at the first such line |
| `BudgetParser.SumAmountsAppend` | streamlit_app.py:133 | the sum is additive over concatenation |
| `BudgetParser.LabelledAmountMatch` | streamlit_app.py:127 | on a line "Name: [sign]amount", the search finds the whole line, with the name before the colon and the amount after the gap |
| `BudgetParser.LabelledAmountLine` | streamlit_app.py:127-131 | such a line yields its name and the value of its amount with commas removed, or fails when the amount is commas only |
| `BudgetParser.DigitsLine` | streamlit_app.py:123-131 | a line like "Accommodation: ₹5000" yields category "Accommodation" with amount 5000 |
| `BudgetParser.TwoEntries` | streamlit_app.py:123-134 | two such lines give both categories in order, and the total is the sum of their amounts |
| `BudgetParser.ZeroAmountIsData` | streamlit_app.py:132-134 | a line with amount 0 gives a budget of total 0, not `None` |
| `BudgetParser.CommasOnlyAmountFails` | streamlit_app.py:130 | a line "Name: [sign],,," makes the call fail at that line |
| `DaySections.HeaderMatchAt` | streamlit_app.py:231-232 | an attempt at `p` that succeeds starts at `p`, and its title, number and colon positions follow in that order inside the text |
| `DaySections.HeaderMatchAtSound` | streamlit_app.py:231-232 | what the attempt at `p` reports is a match of `\n\s*Day\s*\d+[:：]`, ignoring case |
| `DaySections.HeaderMatchAtComplete` | streamlit_app.py:231-232 | every match of the header pattern at `p` is the one the attempt finds |
| `DaySections.AttemptsComplete` | streamlit_app.py:231-232 | where every attempt fails, no header pattern matches |
| `DaySections.FindFromFirst` | streamlit_app.py:231-232 | every attempt before the next successful one fails |
| `DaySections.FindFromSkips` | streamlit_app.py:231-232 | skipping failed attempts does not change the next match found |
| `DaySections.MatchesProps` | streamlit_app.py:231-232 | the matches found are successful attempts, in order, and none overlaps the next |
| `DaySections.MatchesFirstGap` | streamlit_app.py:231-232 | no attempt succeeds before the first match found |
| `DaySections.MatchesGap` | streamlit_app.py:231-232 | no attempt succeeds between the end of one match and the start of the next, or after the last |
| `DaySections.Headers` | streamlit_app.py:231-232 | the header matches lie inside the text, in order, each ending before the next starts |
| `DaySections.HeadersExact` | streamlit_app.py:231-232 | the headers are exactly the non-overlapping leftmost matches: each is a match, and none starts before the first, between two, or after the last |
| `DaySections.HeaderSound` | streamlit_app.py:231-232 | each header found is a match of the pattern |
| `DaySections.HeadersFirstGap` | streamlit_app.py:231 | no match starts before the first header |
| `DaySections.HeadersGap` | streamlit_app.py:231 | no match starts between one header's end and the next header |
| `DaySections.DaySplit` | streamlit_app.py:231 | `re.split` gives one more piece than there are headers |
| `DaySections.DayHeaders` | streamlit_app.py:232 | `re.findall` gives one title per header |
| `DaySections.Expanders` | streamlit_app.py:234-237 | expander `k` has the stripped title `k`, piece `k + 1`, and is open only for `k = 0` |
| `DaySections.SectionOfHeader` | streamlit_app.py:232-235 | the stripped title of header `k` is the "Day N:" text it matched, and piece `k + 1` is the text from the header's end to the next header |
| `DaySections.TitleOfHeader` | streamlit_app.py:232-235 | stripping a title found by `findall` leaves it unchanged |
| `DaySections.TitleUnpadded` | streamlit_app.py:232-235 | `strip` keeps a matched title whole, because it starts with d or D and ends with a colon |
| `DaySections.RenderDayPlan` | streamlit_app.py:231-239 | the notice is shown exactly when no header pattern matches anywhere; otherwise there is one section per header, titled with the header, holding the text up to the next header, with only the first expanded |
| `DaySections.FirstLineExampleHeaders` | streamlit_app.py:231-232 | in "Day 1: Arrival\nDay 2: City tour" only the second header is found |
| `DaySections.FirstLineHeaderIsMissed` | streamlit_app.py:231-239 | in that plan, splitting gives "Day 1: Arrival" and " City tour", and the titles are just "Day 2:" |
| `DaySections.OneHeaderSplit` | streamlit_app.py:231-232 | a text with a single header splits into the text before it and the text after it, and has that one title |
| `WeatherBlock.IsWeatherLineSound` | streamlit_app.py:294 | a line the scanner accepts matches `^\s*Weather`, ignoring case, after its leading whitespace run |
| `WeatherBlock.IsWeatherLineComplete` | streamlit_app.py:294 | every match of `^\s*Weather` in a line is accepted by the scanner, at the same position |
| `WeatherBlock.BlankIsStrippedEmpty` | streamlit_app.py:298 | `ln.strip() == ""` holds exactly for whitespace-only lines |
| `WeatherBlock.WeatherLineNotBlank` | streamlit_app.py:294-298 | a weather line is never blank, so the scan cannot stop on the line where it starts |
| `WeatherBlock.FirstWeather` | streamlit_app.py:294 | a result is a weather line at or after the start position |
| `WeatherBlock.FirstWeatherFirst` | streamlit_app.py:294 | no line before the first weather line is a weather line |
| `WeatherBlock.FirstWeatherIs` | streamlit_app.py:294 | a weather line with no weather line before it is the first weather line |
| `WeatherBlock.BlockEnd` | streamlit_app.py:296-299 | the block ends inside the lines, at or after its start |
| `WeatherBlock.BlockEndFirstBlank` | streamlit_app.py:298-299 | the block ends just after its first blank line, or at the end of the lines; no earlier line in it is blank |
| `WeatherBlock.ScanWeather` | streamlit_app.py:291-299 | the loop over `splitlines()` collects exactly `WeatherChunk` of the plan |
| `WeatherBlock.CollectBlock` | streamlit_app.py:291-299 | the loop collects exactly the lines from the first weather line up to and including the first blank line after it, each followed by a line feed |
| `WeatherBlock.WeatherSnapshot` | streamlit_app.py:300-303 | the tab shows a snapshot only when the stripped chunk is non-empty, and the snapshot is that stripped chunk |
| `WeatherBlock.SnapshotIffWeatherLine` | streamlit_app.py:293-303 | a snapshot is shown exactly when some line of the plan starts with "Weather" (any case) after optional whitespace |
| `WeatherBlock.ChunkIsFirstBlock` | streamlit_app.py:291-299 | the chunk is the first weather line and the lines after it up to the first blank one, each line-feed terminated |
| `ModelLoader.Preferred` | utils/model_loader.py:58 | a non-empty environment value wins, then a non-empty config value, then the default |
| `ModelLoader.ResolveGroqModel` | utils/model_loader.py:43-67 | the result is never a decommissioned model; it is the stripped preferred name whenever that is not decommissioned, and otherwise the default |
| `ModelLoader.ConfigWinsWhenEnvUnset` | utils/model_loader.py:50-65 | with `GROQ_MODEL` unset or empty and a non-empty configured name, unset and empty behave alike, and the result is the stripped configured name, or the default if that is decommissioned |
| `ModelLoader.DefaultIsClean` | utils/model_loader.py:12-18 | the default is not decommissioned and has no surrounding whitespace |
| `ModelLoader.EnvironmentWins` | utils/model_loader.py:50-65 | with `GROQ_MODEL` set and non-empty, the config value is ignored: the result is the stripped environment value, or the default if that is decommissioned |
| `ModelLoader.DefaultWhenNothingSet` | utils/model_loader.py:50-58 | with neither the environment variable nor the config key set (or both empty), the result is the default |
| `ModelLoader.PaddedDecommissionedFallsBack` | utils/model_loader.py:58-65 | a decommissioned name with whitespace around it is still caught, because stripping comes first |
| `ModelLoader.BlankEnvironmentGivesEmptyName` | utils/model_loader.py:50-58 | a whitespace-only `GROQ_MODEL` yields the empty model name |
| `ModelLoader.ResolvedIsStripped` | utils/model_loader.py:58-65 | the resolved name has no surrounding whitespace |
| `ModelLoader.ResolveIsIdempotent` | utils/model_loader.py:43-67 | feeding a non-empty resolved name back as `GROQ_MODEL` resolves to the same name |
| `ModelLoader.LoadLlm` | utils/model_loader.py:69-90 | loading fails exactly when `GROQ_API_KEY` is unset or empty; otherwise it uses the resolved model and that key, and flags the model as custom exactly when it is neither the default nor an allowed fallback |
| `ModelLoader.KeyCheckedFirst` | utils/model_loader.py:76-80 | with no API key the model settings are never consulted: the failure is the same for any settings |
| `ModelLoader.DefaultIsNotCustom` | utils/model_loader.py:76-83 | with a key and no model settings, the default model is used and is not flagged as custom |
| `Text.SkipClass` | streamlit_app.py:127 | a greedy run of a character class stops at the first character outside the class |
| `Text.SkipClassUnique` | streamlit_app.py:127 | a run that stops at a character outside the class is the greedy run |
| `Text.Strip` | streamlit_app.py:129 | the stripped text is empty exactly for whitespace-only text; otherwise it neither starts nor ends with whitespace |
| `Text.StripPadded` | streamlit_app.py:129 | the stripped text sits inside the original with only whitespace around it |
| `Text.StripUnpadded` | streamlit_app.py:129 | text that neither starts nor ends with whitespace is its own strip |
| `Text.StripIdempotent` | utils/model_loader.py:58 | stripping twice is stripping once |
| `Text.StripIsUniqueCore` | utils/model_loader.py:58 | any unpadded text that sits in the original with only whitespace around it is the strip |
| `Text.SplitLines` | streamlit_app.py:118 | no line contains a line feed |
| `Text.SplitLinesRoundTrip` | streamlit_app.py:118 | putting a line feed after every line gives the text back, with a final line feed added if it had none |
| `Text.TerminatedAppend` | streamlit_app.py:297 | terminating the lines of a concatenation is terminating each part |
| `Text.LowerAscii` | streamlit_app.py:119 | the lower-cased text has the same length and no letter A-Z; every character other than A-Z is unchanged |
| `Text.LowerAsciiIdempotent` | streamlit_app.py:119 | lower-casing twice is lower-casing once |
| `BudgetParser.BudgetLineIgnoresCase` | streamlit_app.py:119 | a line is a budget line exactly when its lower-cased form is, so the keyword test ignores case |
| `Text.NatToString` | streamlit_app.py:88 | the rendering is a non-empty string of digits with no leading zero |
| `Text.NatToStringRoundTrip` | streamlit_app.py:88 | reading back the decimal rendering of `n` gives `n` |
| `Text.RemoveCommas` | streamlit_app.py:130 | the result has no commas and is empty exactly when the input is commas only; amount characters leave digits; a single character is dropped if it is a comma and kept otherwise |
| `Text.RemoveCommasAppend` | streamlit_app.py:130 | removal works character by character: the result for a concatenation is the results for its parts, in order |
| `Text.ThousandsSeparator` | streamlit_app.py:130 | digits, a comma, digits becomes the digits run together, whose value is the first group shifted left by the second group's length plus the second group |
| `Text.DecimalValueAppend` | streamlit_app.py:130 | appending digits multiplies the value by ten per digit and adds the appended digits' value |
| `Text.RemoveCommasOfDigits` | streamlit_app.py:130 | digits have no commas to remove |

## Left out

- The Streamlit page itself is not modelled: the widgets, their value ranges, layout, spinner, markdown rendering, download buttons and notices. The sidebar values come into the model as a `TripRequest`.
- `call_backend` (the HTTP POST to the backend) is not modelled. Its answer is the markdown string the tab functions take as input.
- `md_to_pdf_bytes`, the map tab's geocoding request and the budget chart are third-party rendering or network calls. They are not modelled.
- The "Estimated total" metric's `int(total)` formatting is not modelled.
- `datetime`: the start date is the already formatted `isoformat()` text. The "Generated" timestamp is not modelled.
- `ChatGroq` construction is not modelled, including the temperature of 0.2 and the 60-second timeout. `LoadLlm` returns the settings it would pass: model, key and the custom-model flag.
- The `print` notices in the model loader are not modelled. The flag for the custom-model notice is kept as `customModel`.
- `load_dotenv`, `ConfigLoader` and `load_config` are not modelled. The environment variables and the config value `llm.groq.model_name` come in as `Option<string>`. A missing key, or any other failure to read it, is `None`.
- `model_provider`, the fixed literal "groq", is not modelled.
- `BudgetParser.BudgetTotals`: amounts are exact non-negative integers, not Python floats. The model does not capture float rounding on very large amounts, or overflow to infinity when an amount has more than about 309 digits.
- `Text.Strip`, `Text.SplitLines`, `DaySections.HeaderMatchAt`, `WeatherBlock.IsWeatherLine`, `BudgetParser.MatchCategoryAt`, `BudgetParser.IsBudgetLine`: the character handling is ASCII only and covers less than Python does.
  - Whitespace is space, tab, line feed, carriage return, vertical tab and form feed. Python's `strip` and `\s` also count the separators \x1c-\x1f and Unicode spaces.
  - `\d` is 0-9 only. Python also matches other Unicode decimal digits, such as Devanagari ones, and `float` parses them.
  - Case-insensitive matching folds A-Z only.
  - `splitlines` splits at line feeds only, not at the other line boundaries Python also recognises.
  - The full-width colon is recognised in day headers, as the source's pattern does.
