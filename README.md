# Health content idea generator: the button run, modelled in Dafny

The application is a single Streamlit script (`app.py`). An operator types a
health topic, picks a number of ideas, a format and an audience, and presses
one button. The press checks the two credentials and the topic, clears the
three session fields (`generated_content`, `search_terms`, `topic_used`),
asks an autocomplete search service for suggestions, de-duplicates and sorts
them, asks a text generator for ideas, and parses the generated text into a
list of ideas. A results block then lists the ideas numbered from 1 and offers
a CSV download whose name is made from the topic.

This project models that pipeline and proves what it promises:

- `text.dfy`: `Base` (an `Option` type) and `PyText`, the parts of Python's
  `str` that the pipeline uses. These are `isspace`, `strip`/`lstrip`/`rstrip`
  and `split` on one character.
- `suggestions.dfy`: `Suggestions`, the suggestion normaliser. It covers the
  collecting loop over the optional `suggestions` field and `sorted(set(...))`
  under Python's code-point order on strings.
- `parser.dfy`: `ContentParser`, the generated-text parser. It covers the line
  comprehension, the two marker substitutions, the cleaning loop and the slice.
- `presenter.dfy`: `ResultPresenter`, the results block. It covers the rows
  labelled from 1 and the download file name.
- `session.dfy`: `RunSession`, the button run. `Handle` is a function over the
  three session fields. The class `Session` holds those fields and updates
  them one step at a time in `Click`, proved equal to `Handle`. `Rerun` is one
  pass of the script: the handler, then the results block.

The two services are parameters. A `Reply` is either `Raised` (the call threw)
or `Returned(value)`: a search payload, or the generated text. The run reports
the calls it made, in order, so "no call was made" can be stated. Each
`st.stop()` ends the run, and the results block is not reached on that pass.

Four details of the code that are easy to misread, all modelled as written:

- The download name replaces only `' '` with `'_'`, not all whitespace. A tab
  in the topic stays a tab.
- The numeral marker is `\d+\.\s*`, so no space is needed after the period.
  A line starting with a decimal such as `2.5 mg` loses `2.` and becomes
  `5 mg` (`StripMarkersDecimal`).
- The prompt gets the topic as typed, not stripped. The search query and
  `topic_used` get the stripped topic. `Call.Generate` records the unstripped
  topic.
- `search_terms` is stored before the empty check. A search with no
  suggestions therefore leaves an empty trend list stored, not the old one.

## Model

| member | source | states |
|---|---|---|
| PyText.Trim | app.py:282 | `strip()` leaves no whitespace at either end and never lengthens the string |
| PyText.TrimIsSlice | app.py:275 | `strip()` keeps one contiguous slice of the input; everything it drops on either side is whitespace |
| PyText.TrimEmptyIffAllSpace | app.py:275 | `not topic.strip()` holds exactly when the topic is empty or all whitespace |
| PyText.TrimOfTrimmed | app.py:361 | a string with no whitespace at its ends is its own `strip()` |
| PyText.JoinSplit | app.py:361 | joining the pieces of `split('\n')` with `'\n'` gives the text back, so splitting loses nothing |
| PyText.SplitJoin | app.py:361 | splitting a `'\n'`-join of newline-free lines gives exactly those lines back |
| PyText.Split | app.py:361 | `split('\n')` always yields at least one piece and no piece contains a newline |
| Suggestions.Less | app.py:311 | Python's `<` on strings, code-point lexicographic with a proper prefix first; it never holds between equal strings |
| Suggestions.LessTransitive | app.py:311 | Python's `<` on strings (code-point lexicographic) is transitive |
| Suggestions.LessTotal | app.py:311 | any two distinct strings are ordered one way or the other |
| Suggestions.StrictlySortedDistinct | app.py:311 | an ascending list with strict steps has no duplicates |
| Suggestions.Insert | app.py:311 | inserting into a strictly ascending list keeps it strictly ascending and adds exactly the new string |
| Suggestions.Normalize | app.py:311 | `sorted(set(xs))` is strictly ascending (so duplicate-free) and holds exactly the strings of `xs` |
| Suggestions.StrictlySortedUnique | app.py:311 | two strictly ascending lists with the same strings are equal |
| Suggestions.NormalizeCharacterised | app.py:311 | any strictly ascending list with the strings of `xs` is `sorted(set(xs))` |
| Suggestions.NormalizeIdempotent | app.py:311 | normalising a normalised list returns it unchanged |
| Suggestions.NormalizeEmptyIff | app.py:311-319 | the normalised list is empty exactly when no value was collected |
| Suggestions.NormalizeExample | app.py:311 | `["b","a","b"]` normalises to `["a","b"]` |
| Suggestions.EntryValues | app.py:305-306 | the values of the entries in order, one per entry, or a failure exactly when some entry has no `value` key |
| Suggestions.Values | app.py:305-306 | an absent `suggestions` field yields the empty list; a present one yields a result exactly when every entry has a `value`, and then one value per entry, in order |
| Suggestions.CollectValues | app.py:305-306 | the for-append loop returns what `Values` specifies, failing at an entry without a `value` |
| ContentParser.LeadingDigits | app.py:367 | the length of the leading `\d+` run: all digits up to it, and a non-digit or the end right after |
| ContentParser.LeadingDigitsOfRun | app.py:367 | the `\d+` run at the start of a line ends at the first non-digit |
| ContentParser.NumberMarkerIff | app.py:367 | a string matches `\d+\.\s*` in full exactly when its leading digit run is non-empty, a period follows, then only whitespace |
| ContentParser.StripNumberMarker | app.py:367 | the numeral substitution never lengthens a line, and when it removes something the rest does not start with whitespace |
| ContentParser.StripNumberMarkerMatches | app.py:367 | the numeral substitution removes the longest prefix matched by `^\d+\.\s*`, and nothing when no prefix matches |
| ContentParser.StripBulletMarker | app.py:368 | the bullet substitution never lengthens a line, and when it removes something the rest does not start with whitespace |
| ContentParser.StripBulletMarkerMatches | app.py:368 | the bullet substitution removes the longest prefix matched by `^[-•]\s*`, and nothing when no prefix matches |
| ContentParser.StripMarkers | app.py:367-368 | both substitutions in order only ever remove a prefix, and leave a line that starts with neither a digit nor `-`/`•` unchanged |
| ContentParser.StripNumberMarkerAt | app.py:367 | digits then a period: the substitution leaves the rest with leading whitespace removed |
| ContentParser.StripMarkersNumberThenBullet | app.py:367-368 | `"1. - Foo"` becomes `"Foo"`: one numeral marker, then one bullet marker |
| ContentParser.StripMarkersBulletThenNumber | app.py:367-368 | `"- 1. Foo"` becomes `"1. Foo"`: the numeral pattern is tried only once, before the bullet |
| ContentParser.StripMarkersOneNumber | app.py:367 | `"1. 2. Foo"` becomes `"2. Foo"`: at most one numeral marker goes |
| ContentParser.StripMarkersNoPeriod | app.py:367 | `"12 x"` (digits without a period) is unchanged |
| ContentParser.StripMarkersDecimal | app.py:367 | `"2.5 mg"` becomes `"5 mg"`: no space is required after the period |
| ContentParser.StripMarkersOnlyMarker | app.py:367-368 | `"1. "` cleans to the empty string |
| ContentParser.CleanIdea | app.py:367-368 | a cleaned line has no whitespace at either end |
| ContentParser.MarkerOnlyCleansToNothing | app.py:367-369 | a line that is only a numeral or only a bullet marker cleans to nothing |
| ContentParser.MarkerOnlyLineDropped | app.py:365-370 | such a line adds nothing to the cleaned list |
| ContentParser.MapNonEmpty | app.py:361-370 | filter-after-map never grows the list and keeps only non-empty strings |
| ContentParser.MapNonEmptyAppend | app.py:365-370 | the cleaning step distributes over concatenation, so the order of lines is kept |
| ContentParser.NonBlankLines | app.py:361 | `[l.strip() for l in lines if l.strip()]` yields non-empty, trimmed strings, no more than there were lines |
| ContentParser.NonBlankLinesAppend | app.py:361 | each line contributes its stripped form in its own place, or nothing when blank, so blank lines are dropped and the order kept |
| ContentParser.NonBlankLinesDropsEmpty | app.py:361 | for three trimmed non-empty lines around an empty one, `[a, b, "", d]`, the result is `[a, b, d]` |
| ContentParser.CleanAll | app.py:365-370 | every cleaned idea is non-empty and trimmed, and there are no more of them than input lines |
| ContentParser.CleanAllSnoc | app.py:365-370 | one more line appends its cleaned form, unless that is empty |
| ContentParser.CleanIdeas | app.py:365-370 | the for-append loop computes `CleanAll` of its input |
| ContentParser.Take | app.py:372 | the slice `xs[:n]` is the first `min(n, len(xs))` elements of `xs` |
| ContentParser.IdeaLines | app.py:360-361 | every candidate line is non-empty with no whitespace at either end |
| ContentParser.Parse | app.py:360-372 | at most `count` ideas, each non-empty with no whitespace at either end |
| ContentParser.ParseProperties | app.py:360-372 | at most `count` ideas, a prefix of the cleaned lines in order, all of them when fewer (no padding), each non-empty and trimmed |
| ContentParser.IdeaLinesExample | app.py:360-361 | `"1. Foo\n- Bar\n\n2. Baz"` gives the three non-blank lines in order |
| ContentParser.ParseFirstTwo | app.py:372 | when the first two candidate lines clean to something, a count of 2 keeps exactly those two |
| ContentParser.ParseExample | app.py:360-372 | `"1. Foo\n- Bar\n\n2. Baz"` with a count of 2 gives `["Foo","Bar"]` |
| ResultPresenter.Numbered | app.py:393-398 | labels run consecutively from the first one, each row keeping its string |
| ResultPresenter.TextsNumbered | app.py:398 | dropping the labels gives back the listed strings in order |
| ResultPresenter.NumberedFromOne | app.py:398 | data-frame labels run 1..n, strictly increasing |
| ResultPresenter.ReplaceSpaces | app.py:405 | `replace(' ', '_')` keeps the length |
| ResultPresenter.ReplaceSpacesAt | app.py:405 | each space becomes `_` and every other character stays in place |
| ResultPresenter.ReplaceSpacesUnchangedIff | app.py:405 | the replacement changes a string exactly when it holds a space |
| ResultPresenter.DownloadName | app.py:405 | the name is as long as the topic plus the fixed tail, and ends with `_health_content_ideas.csv` |
| ResultPresenter.DownloadNameShape | app.py:405 | the name is the topic with spaces as underscores followed by `_health_content_ideas.csv`, and holds no space |
| ResultPresenter.DownloadNameDoubleSpace | app.py:405 | two spaces give two underscores (`heart  health` gives `heart__health_health_content_ideas.csv`), with no collapsing |
| ResultPresenter.DownloadNameCollision | app.py:405 | `a b` and `a_b` get the same download name |
| ResultPresenter.Display | app.py:380-405 | something is shown exactly when non-empty ideas are stored; ideas and trends are listed in order labelled from 1; the file name comes from the stored topic |
| RunSession.HandleRejects | app.py:269-277 | a missing key, then an empty or whitespace-only topic, stops the press before any field changes and before either call |
| RunSession.HandleClears | app.py:279-325 | past the checks the stripped topic is stored and searched for first; no ideas stay stored unless the press generated them; a failed search leaves the trends empty |
| RunSession.HandleStoresTrends | app.py:305-319 | after a search that answered, the stored trends are its normalised values, stored even when empty; a search that answers with values never ends as a failed search; no trends ends the press after the one search |
| RunSession.HandleGenerates | app.py:317-377 | a second call is always the generator, made only with the stored non-empty trends, the settings and the topic as typed, and always when such trends were stored; a press that called it ends with ideas exactly when it answered, and they are the parse of its text |
| RunSession.HandleOutcome | app.py:269-377 | each outcome holds exactly under its inputs: failed search iff past the checks and the search raised or lacked a value; no trends iff it answered with no values; failed or successful generation iff there were values and the generator raised or answered; the calls are exactly none, the search for the stripped topic, or that search then the generator with the settings, the topic as typed and the normalised values |
| RunSession.Handle | app.py:269-377 | a press calls at most the two services; it calls none exactly when it is rejected, and then changes no field |
| RunSession.HandleKeepsValid | app.py:269-377 | every press keeps the fields consistent: trends ascending without repeats; stored ideas trimmed and non-empty, with a trimmed topic and non-empty trends |
| RunSession.InitialValid | app.py:170-176 | the initial fields are consistent |
| RunSession.HandleForgetsPrevious | app.py:279-282 | a press past the checks does not depend on what the fields held before |
| RunSession.GeneratedIdeas | app.py:360-372 | the stored ideas are at most the count asked for, taken in order from the front of the cleaned lines |
| RunSession.Session.constructor | app.py:170-176 | a new session starts with no ideas, no trends and an empty topic |
| RunSession.Session.Click | app.py:269-377 | updating the fields step by step ends in the state and outcome `Handle` specifies, with the calls it specifies |
| RunSession.Session.Rerun | app.py:269-380 | without a press nothing changes; a press ended early shows nothing on that pass; otherwise the results block shows the stored fields |
| RunSession.RejectedKeepsEarlierResult | app.py:269-380 | after a rejected press the earlier result is still what the next pass shows |
| RunSession.NoStaleDisplay | app.py:279-380 | a press that fails the search, finds no trends or fails generation leaves nothing to display |
| RunSession.GeneratedDisplay | app.py:372-405 | after a press that kept ideas, the page shows the parsed ideas and the non-empty trends, and the file name comes from the stripped topic |

## Left out

- The page layout, styling, feature cards, progress widgets, expanders and footer (app.py:21-256, 286-288, 381-441) are presentation only.
- Loading the credentials from the environment and building the OpenAI client (app.py:9-18) are configuration I/O. Key presence is two booleans (`Keys`). When `OPENAI_API_KEY` is unset, `OpenAI()` at app.py:18 raises before any press, so `Keys(_, false)` stands only for that variable set to the empty string.
- The SerpAPI search and the OpenAI call (app.py:302-303, 355-358) are network I/O. They are the `Reply` parameters of the run.
- The prompt text (app.py:329-352) is an opaque string sent to an outside model. `Call.Generate` records what it embeds: settings, topic as typed, stored trends.
- The CSV serialisation and UTF-8 encoding (app.py:397, 404) are library behaviour. Only the 1-based row labels and the file name are modelled.
- The status messages and their texts (errors, warnings, counts) are not modelled. `Outcome` says which one a press ends with.
- `st.stop()` raises a control-flow exception in Streamlit. Here it is simply the end of the run.
- Payloads that are not a list of dictionaries with string values are not representable (`Payload` holds only such lists). In the program they behave as follows:
  - a `suggestions` field that is `None` or a number, a non-empty string or dictionary, or a list with non-dictionary entries raises inside the `try` and ends the run as a failed search;
  - an empty string or empty dictionary iterates zero times and ends the run with no trends (app.py:317-319);
  - values that are not strings raise at `set` or `sorted` (app.py:311) when unhashable or of mixed unorderable types, a failed search; values all of one orderable type, such as all integers, are sorted and reach the generator.
- The format and audience selections only feed the prompt. They are carried in `Settings` but nothing depends on them.
- PyText: strings are sequences of Unicode scalar values, so a Python `str` holding a lone surrogate (possible after decoding an escaped surrogate from a JSON payload) cannot be represented.
- ContentParser.StripNumberMarker: `\d` is taken as the ASCII digits 0-9. Python's `\d` on `str` patterns also matches other Unicode decimal digits.
