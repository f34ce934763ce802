# Lease-contract assistant: a verified model of its core

The system is a bilingual (Arabic and English) assistant that writes, edits,
explains and reviews residential and commercial lease contracts under
Jordanian law. A web front end keeps one cookie session per user. A router
asks a language model to classify each message and picks a branch from the
answer. Dates in the user's request and in every generated contract pass
through a date validator first. Offline scripts split lease, law and "common
mistake" texts into retrieval chunks and upload them to a vector store.

This project models that core in Dafny and proves what it promises:

- **Date validation.** `Calendar` holds the proleptic Gregorian calendar: leap years, month lengths and a day ordinal. `DateParse` models `parse_date`: Arabic month names, the `strptime` formats, and the manual split fallback. `DateValidator` models single dates, ranges, the text scan, the suggestions and the two module-level helpers. The reference "now" is a parameter.
- **Routing and memory.** `ContractRouter` holds language detection, the intent classifier's fallback, the date gates, the create and edit outcome checks, and `get_chat_response`. It is a class, `LLMClient`, whose `memory` field is the per-session contract dictionary. Every model call is an oracle reply handed in by the caller.
- **Web session.** `WebSession.Session` holds the session slots `chat_id`, `turn_index` and `current_contract`, together with the `/api/chat`, `/api/clear-session` and `/api/get-contract` logic.
- **Splitters.**
  - `SplitClauses`: the lease splitter and the clause re-grouping.
  - `SplitLaw`: the law splitter.
  - `SplitMistakes`: the mistakes splitter.
  - `Chunking`: shared pieces of the splitters, such as cutting before headings, blank-line splits and the length filter.
  - `Records`: the JSONL records and their `kind:name:index` ids.
- **Contextual clauses.** `Clauses` holds the standard clause list, the fifteen contextual templates and `generate_contextual_clauses`.
- **Context detection.** `LeaseContext` models `detect_lease_context` over the keyword table.
- **Upload.** `Ingest` models the batching, the schema check and the per-batch upsert of the upload script. The embedding and storage back ends are function parameters.
- **Shared utilities.** `Text` models the Python string operations the code relies on: `strip`, `split`, `join`, `lower`, `int()` on digit strings and `str(n)`. A digit is what `\d` and `int()` accept: a decimal digit of any Unicode block (general category Nd). `Seqs` holds the sequence utilities and `Wrappers` the `Option` and `Result` types.

Where the proved behaviour is surprising, the model follows the code as written:

- The English failure text of generation, "Sorry, error generating contract.", is stored as the session's contract. It starts with no warning sign and holds no Arabic "error" word, so the router takes it for a contract (`ContractRouter.LLMClient.EnglishFailureIsStored`).
- A failing "from X to Y" range whose two dates are each valid is reported twice. Two of the case-insensitive range patterns match the same text (`DateValidator.FromToErrorReportedTwice`). When an endpoint is itself no valid date, the scan stops at the date hits and the phrase is reported once, as that date (`DateValidator.FromToBadEndpointReportedOnce`).
- "30/02/YYYY" is reported as a format error, never as "does not exist in the calendar". Parsing already refuses dates that are not in the calendar (`DateValidator.Feb30IsFormatError`).
- `get_validation_suggestions` can only ever produce the format hint or the "long past" line. The date it inspects has already parsed, so it is a real date (`DateValidator.GetValidationSuggestions`). The February 29 and day-of-month branches are modelled by `DateValidator.SuggestionsFor` over any inspectable date.

## Model

| member | source | states |
|---|---|---|
| `Calendar.DaysInMonth` | date_validator.py:80 | A month has between 28 and 31 days |
| `Calendar.DaysInMonthIsRfcTable` | date_validator.py:58-60 | Month lengths agree with the day-of-month table of section 5.7 of RFC 3339 and the leap-year rule of its Appendix C |
| `Calendar.Feb29IffLeap` | date_validator.py:58-90 | February 29 is a calendar date exactly when the year is divisible by 4 and not by 100, or divisible by 400 |
| `Calendar.OrdinalOrder` | date_validator.py:203-217 | For real dates, comparing dates is comparing day ordinals, both ways; equal ordinals mean equal dates |
| `Calendar.DayWithinYear` | date_validator.py:217 | A real date's day of the year lies within its year's length, so ordinals of different years never overlap |
| `DateParse.RealDate` | date_validator.py:86 | `datetime(year, month, day)` succeeds exactly for calendar dates in years 1..9999 and yields that date |
| `DateParse.MonthNumber` | date_validator.py:34-47 | An Arabic month name maps to a month 1..12 exactly when the table lists it |
| `DateParse.SearchFrom` | date_validator.py:108-109 | The leftmost match of the Arabic-month pattern has 1-2 decimal digits of any block, a run of Arabic letters and 4 such digits, separated by white space |
| `DateParse.ArabicDate` | date_validator.py:107-117 | The Arabic-month branch only ever yields a real date, read from digits of any block |
| `DateParse.TryFormats` | date_validator.py:120-124 | The format loop fails exactly when every format fails, and any date it yields is real; `%Y` and the second digit of `%d` take decimal digits of any block |
| `DateParse.ManualParse` | date_validator.py:127-142 | The split fallback only ever yields a real date; its `int()` calls read digits of any block |
| `DateParse.ParseDate` | date_validator.py:92-144 | The empty text parses to nothing, and whatever parses is a real date, whichever block its digits come from |
| `DateParse.PlainParse` | date_validator.py:105-144 | For a stripped text free of Arabic-month matches, parsing is the format loop, then the split fallback |
| `DateParse.DayFirstText` | date_validator.py:129-136 | `D/M/YYYY` and `DD/MM/YYYY`, in decimal digits of any block, parse day-first to the calendar date, or to nothing when it does not exist |
| `DateParse.YearFirstText` | date_validator.py:120-140 | `YYYY-M-D`, in decimal digits of any block, parses year-first to the calendar date, or to nothing |
| `DateParse.DayFirstRoundTrip` | date_validator.py:120-136 | Rendering a date as `DD/MM/YYYY` and parsing it back gives the date, or nothing when it is not in the calendar |
| `DateParse.IsoRoundTrip` | date_validator.py:120-140 | Rendering a date as `YYYY-MM-DD` and parsing it back gives the date, or nothing |
| `DateParse.Feb30IsNoDate` | date_validator.py:92-144 | "30/02/YYYY" never parses, whatever four digits the year has |
| `DateParse.OtherScriptDigitsRead` | date_validator.py:120-136 | `%Y` takes a year in Devanagari digits and reads it as 2024, and `int()` reads fullwidth "15" as 15 |
| `DateParse.Feb29ParsesInLeapYears` | date_validator.py:92-144 | "29/02/YYYY" parses exactly in leap years, whatever four digits the year has |
| `DateParse.UncapturableNamesNeverMatch` | date_validator.py:108 | Month names holding a letter outside the pattern's range (such as "آذار", whose first letter U+0622 lies below the range) are never captured, even though the table lists them |
| `DateParse.NotOfNameLetters` | date_validator.py:108 | Every name made only of capturable letters lies outside the uncapturable set |
| `DateParse.NoSpaceNoMatch` | date_validator.py:108-110 | A text without white space never matches the Arabic-month pattern |
| `DateParse.ThreeFields` | date_validator.py:129-132 | Three digit fields joined by one separator split back into those three fields |
| `DateParse.Pad2Props` | date_validator.py:337 | Two-digit rendering yields two ASCII digits whose value is the number |
| `DateParse.DigitsValueOfRendering` | date_validator.py:135 | `int(str(n)) == n` |
| `DateParse.PyIntOfDigits` | date_validator.py:135 | `int()` of a non-empty string of decimal digits of any block is its decimal value |
| `DateParse.DigitsBound` | date_validator.py:135 | A digit string of length k denotes a number below 10^k |
| `DateValidator.ValidateDate` | date_validator.py:146-169 | A date is accepted exactly when it parses with a year in 1900..2100, and then yields the parsed real date; a text that does not parse is a format error; the "not in the calendar" error never occurs |
| `DateValidator.IsValidDateText` | date_validator.py:371-382 | The module helper is true exactly when the parse succeeds with a year in 1900..2100 |
| `DateValidator.Feb30IsFormatError` | date_validator.py:156-163 | "30/02/YYYY" is rejected as a format error |
| `DateValidator.ValidateDateRange` | date_validator.py:171-231 | An accepted range has two valid dates and a duration of at least one day within the bounds |
| `DateValidator.RangeAcceptedIff` | date_validator.py:192-231 | A range is accepted exactly when both dates are valid, the start is not before now (unless allowed), the end is after the start and the duration is within bounds |
| `DateValidator.EndNotAfterStartFails` | date_validator.py:210-214 | A range whose end is not after its start is rejected |
| `DateValidator.StartTodayIsInThePast` | date_validator.py:203-207 | With past starts forbidden, a start of today is "in the past" once the day has begun |
| `DateValidator.ValidateLeaseDates` | date_validator.py:351-368 | The module helper accepts only valid ranges of 1 to 36500 days |
| `DateValidator.Findings` | date_validator.py:258-269 | There is one finding per match |
| `DateValidator.FindingsAt` | date_validator.py:258-269 | Finding i pairs match i with its verdict |
| `DateValidator.DateErrorsIff` | date_validator.py:271-272 | The date errors are empty exactly when every finding is valid |
| `DateValidator.RangeErrorsIff` | date_validator.py:286-294 | The range errors are empty exactly when every range passes |
| `DateValidator.ScanProperties` | date_validator.py:255-299 | The scan is valid exactly when it has no errors; it lists every date match in order with its verdict |
| `DateValidator.ScanValidIff` | date_validator.py:233-299 | The scan is valid exactly when every date match validates and every range match passes |
| `DateValidator.RejectedTwice` | date_validator.py:286-294 | A failing pair found twice is reported twice |
| `DateValidator.ErrorTextOfTwo` | date_validator.py:275 | Two errors are joined with "; " |
| `DateValidator.FromToErrorReportedTwice` | date_validator.py:248-297 | When both endpoints of a "from X to Y" phrase are valid dates (they are hits of the day-first date pattern) and the range fails, the two matching range patterns yield the same error twice |
| `DateValidator.FromToBadEndpointReportedOnce` | date_validator.py:248-275 | When the start of a "from X to Y" phrase is no valid date, the scan fails with that one date error and never reaches the range patterns |
| `DateValidator.EndpointFindings` | date_validator.py:256-272 | The two endpoints give one finding each, in order; no date error when both are valid, exactly the start's error when only it is invalid |
| `DateValidator.ExtractAndValidateDates` | date_validator.py:233-299 | The scan loop returns the validity, error text and findings of the scan's definition |
| `DateValidator.CheckDateHits` | date_validator.py:258-272 | The date loop yields the findings and errors of the definition |
| `DateValidator.CheckRangeHits` | date_validator.py:286-294 | The range loop yields the range errors of the definition |
| `DateValidator.FirstLeapAfterIsFirst` | date_validator.py:324-326 | The next leap year is a leap year at most 8 years ahead, with no leap year in between |
| `DateValidator.NextLeapYear` | date_validator.py:324-326 | The search loop finds the year `FirstLeapAfterIsFirst` describes |
| `DateValidator.LongPastIsBefore` | date_validator.py:340 | A date more than 365 days before now is before today by at least 365 ordinal days |
| `DateValidator.SuggestionsFor` | date_validator.py:319-346 | The three suggestion checks, run on a date, give the suggestions of the definition |
| `DateValidator.Feb29OfCommonYear` | date_validator.py:320-337 | February 29 of a common year yields the two leap-year hints first and then the day-of-month hints; the next leap year lies within 8 years |
| `DateValidator.SuggestionsForRealDate` | date_validator.py:319-346 | For a real date, the only possible suggestion is the "long past" line |
| `DateValidator.GetValidationSuggestions` | date_validator.py:301-346 | Unparsable text gets only the format hint; parsed text gets the "long past" line or nothing |
| `ContractRouter.CountWhere` | llm_client.py:115-116 | A count of characters never exceeds the text's length |
| `ContractRouter.CountAppend` | llm_client.py:115-116 | Counts add up over concatenated texts |
| `ContractRouter.DetectLanguageIsRatio` | llm_client.py:108-121 | The text is Arabic exactly when it has letters and more than 30% of them are Arabic-block characters |
| `ContractRouter.RatioTest` | llm_client.py:121 | The integer test `10a > 3t` is the ratio test `a/t > 0.3` |
| `ContractRouter.ArabicLettersAreArabic` | llm_client.py:108-121 | A non-empty text of Arabic letters is Arabic |
| `ContractRouter.NoArabicIsEnglish` | llm_client.py:108-121 | A text with no Arabic-block character is English |
| `ContractRouter.ClassifyIntent` | llm_client.py:191-205 | A decoded classifier reply is passed through; a failed call or an undecodable reply becomes "chat" with confidence 0 |
| `ContractRouter.ClassifierFallback` | llm_client.py:399-482 | A failed classification routes to chat, and so does every action outside create/edit/explain/review |
| `ContractRouter.AlertLooksLikeError` | llm_client.py:407 | Every alert opening with the warning sign is taken for an error |
| `ContractRouter.AsciiIsNoError` | llm_client.py:407 | An ASCII text is never taken for an error |
| `ContractRouter.Keep` | llm_client.py:409-411 | A reply that keeps the contract says "unchanged" with a contract and "none" without, and leaves memory alone |
| `ContractRouter.CreateTurnKeeps` | llm_client.py:402-422 | Create stores exactly a non-empty answer that does not look like an error, under this session only; otherwise it keeps the active contract |
| `ContractRouter.EditTurnKeeps` | llm_client.py:434-454 | Edit stores exactly an answer that is no error, has at least 200 stripped characters and differs from the active contract; otherwise "unchanged" with the active contract |
| `ContractRouter.DateAlert` | llm_client.py:139-142 | The date alert starts with the warning sign |
| `ContractRouter.GeneratedAlert` | llm_client.py:249-251 | The alert about generated dates starts with the warning sign |
| `ContractRouter.EditedAlert` | llm_client.py:291-293 | The alert about edited dates starts with the warning sign |
| `ContractRouter.LLMClient.constructor` | llm_client.py:46-47 | The memory starts empty and the client's scan is the validator's |
| `ContractRouter.LLMClient.SetCurrentContract` | llm_client.py:49-51 | The session's entry becomes the contract and nothing else changes |
| `ContractRouter.LLMClient.GetCurrentContract` | llm_client.py:53-57 | A contract is returned exactly when the session has one, and it is the stored one |
| `ContractRouter.LLMClient.ClearContract` | llm_client.py:59-62 | The session's entry is removed and nothing else changes |
| `ContractRouter.LLMClient.DateGate` | llm_client.py:123-151 | The gate passes exactly when the scan is valid, and an alert starts with the warning sign |
| `ContractRouter.LLMClient.DateGateIsScan` | llm_client.py:123-151 | The gate passes exactly when every date match validates and every range passes with past starts forbidden |
| `ContractRouter.LLMClient.RequestGateSkipsBackend` | llm_client.py:211-217 | A request whose dates fail is answered with the alert whatever the backend would have said |
| `ContractRouter.LLMClient.GenerateOutcomes` | llm_client.py:207-253 | Generation returns an alert, one of the two failure texts, or the stripped reply whose dates pass |
| `ContractRouter.LLMClient.CreateBranch` | llm_client.py:402-422 | The create branch's reply and new memory are those of the create turn |
| `ContractRouter.LLMClient.EditBranch` | llm_client.py:434-454 | The edit branch's reply and new memory are those of the edit turn |
| `ContractRouter.LLMClient.GetChatResponse` | llm_client.py:365-499 | The router's reply and new memory are those of the turn definition |
| `ContractRouter.LLMClient.TurnInvariants` | llm_client.py:365-499 | Every reply: "none" without a contract and a contract otherwise; "updated" stores the returned contract under this session; other sessions are never touched |
| `ContractRouter.LLMClient.UpdatedIsStored` | llm_client.py:414-417 | An "updated" reply returns a contract, and memory holds exactly that contract for the session |
| `ContractRouter.LLMClient.ReadOnlyRoutes` | llm_client.py:456-499 | Explain, review and chat never update and leave memory as synced |
| `ContractRouter.LLMClient.CallerContractSynced` | llm_client.py:384-392 | A non-blank caller contract is stored as given and is the active contract, stripped |
| `ContractRouter.LLMClient.EditNeedsContractFirst` | llm_client.py:426-432 | Edit without an active contract answers the same whatever the backend says |
| `ContractRouter.LLMClient.EditStoresOnlyChanges` | llm_client.py:434-454 | An edit updates only when it changed the contract substantially |
| `ContractRouter.LLMClient.CreateStoresNoAlert` | llm_client.py:402-422 | Create never stores something that looks like an error |
| `ContractRouter.LLMClient.EnglishFailureIsStored` | llm_client.py:237-241 | In English, a failed generation call stores "Sorry, error generating contract." as the contract |
| `WebSession.PassedContract` | flask_app.py:226-230 | The front end's contract is used when truthy, otherwise the session's |
| `WebSession.SentContract` | flask_app.py:257-271 | "updated" and "unchanged" send the returned contract, "none" sends nothing |
| `WebSession.Session.constructor` | flask_app.py:85-94 | A new session has no chat id, no turn count and no contract |
| `WebSession.Session.GetChatId` | flask_app.py:85-88 | The fresh id is drawn only when there is none, and the id stays from then on |
| `WebSession.Session.NextTurnIndex` | flask_app.py:91-94 | The turn count moves from its stored value (0 when absent) up by one |
| `WebSession.Session.SetCurrentContract` | flask_app.py:177-187 | The contract goes into the session and into the router's memory under the chat id |
| `WebSession.Session.ClearCurrentContract` | flask_app.py:190-201 | The contract leaves the session and the router's memory under the chat id |
| `WebSession.Session.Chat` | flask_app.py:213-292 | A blank message is refused with nothing changed; otherwise the reply is the router's turn for the session's chat id, the session contract changes only on "updated", the chat id stays and the turn count moves by one |
| `WebSession.Session.Answer` | flask_app.py:245-292 | For a non-blank message the reply is the router's turn for the session's chat id; only "updated" writes the session contract; the chat id stays and the turn count moves by one |
| `WebSession.Session.ClearSession` | flask_app.py:381-392 | Every slot is emptied and the chat's contract leaves the router's memory |
| `WebSession.Session.GetContract` | flask_app.py:395-403 | Reports the stored contract, whether there is one, and its length |
| `WebSession.TwoTurns` | flask_app.py:213-292 | In a new session the first turn draws the chat id, the second keeps it, the counts are 1 and 2, and a blank message is refused |
| `SplitClauses.KeptLinesTrimmed` | split_clauses.py:33 | Every kept line is non-empty and stripped |
| `SplitClauses.Groups` | split_clauses.py:38-47 | There are no groups exactly when there are no lines |
| `SplitClauses.GroupsShape` | split_clauses.py:38-47 | The groups concatenate back to the lines, and every group after the first opens with a clause start and contains no other |
| `SplitClauses.ChunksKeepText` | split_clauses.py:35-47 | The chunks, joined with spaces, are the lines joined with spaces: no word is lost or added |
| `SplitClauses.SplitIntoChunks` | split_clauses.py:29-50 | The loop yields the grouped chunks longer than 40 characters |
| `SplitClauses.FixBrokenClauses` | split_clauses.py:56-105 | The merge loop yields the definition's clauses |
| `SplitClauses.Kept` | split_clauses.py:65-68 | Blank chunks are dropped, so no more chunks come out than went in |
| `SplitClauses.FixIsGrouping` | split_clauses.py:56-105 | The clauses partition the non-blank chunks, in order: each clause is one run of chunks of one file, joined with spaces |
| `SplitClauses.FixCount` | split_clauses.py:56-105 | There are no more clauses than non-blank chunks, and no more of those than chunks |
| `SplitClauses.FixMetadataFirst` | split_clauses.py:94-100 | Metadata entries come only before the first clause start, and none opens with a clause start |
| `SplitClauses.NumberClauses` | split_clauses.py:153-200 | Clause i gets id `lease:file:i`, the lease metadata, and an id no other clause has |
| `Records.RecordIdParts` | split_law.py:67 | An id `kind:name:index` reads back to its kind, its name and its index |
| `Records.RecordIdInjective` | split_law.py:65-67 | Within one kind, equal ids have equal names and indexes |
| `Records.KindsNeverCollide` | split_mistakes.py:77 | Ids of different kinds never collide |
| `Records.NumberChunks` | split_law.py:65-77 | Chunk i becomes record i+1 of the file, and no two records share an id |
| `Records.StemDropsExtension` | split_law.py:63 | `name.ext` loses exactly its extension |
| `Records.StemWithoutExtension` | split_mistakes.py:73 | A name without a dot is kept |
| `Chunking.CutBeforeConcat` | split_law.py:21-22 | Cutting before headings loses and adds nothing |
| `Chunking.BlankSplitClean` | split_mistakes.py:30 | No piece of a blank-line split contains a blank line |
| `Chunking.LongStrippedTrimmed` | split_mistakes.py:45-49 | Every emitted piece is stripped and long enough |
| `Chunking.LongStrippedEmitted` | split_law.py:34-37 | Pieces of bounded length give stripped, long-enough, bounded chunks |
| `Chunking.LongStrippedAppend` | split_law.py:34-37 | Filtering distributes over concatenation |
| `Chunking.LongStrippedFrom` | split_law.py:35 | Every emitted piece is the stripped form of an input piece |
| `SplitLaw.NormalizedShape` | split_law.py:18 | The normalised text is stripped and has no blank line |
| `SplitLaw.SplitLawByArticle` | split_law.py:13-39 | The loop yields the chunks of the definition, each stripped, at least `min_len` long and at most `max_chars` |
| `SplitLaw.LawChunksEmitted` | split_law.py:26-37 | Every chunk is stripped and within the length bounds |
| `SplitLaw.LongPartWindows` | split_law.py:33-37 | A long part is cut into consecutive windows of at most `max_chars` that concatenate back to the part |
| `SplitLaw.LawChunksAppend` | split_law.py:26-37 | Chunking distributes over concatenating parts |
| `SplitLaw.ShortPartDropped` | split_law.py:28-29 | A part shorter than `min_len` contributes nothing |
| `SplitLaw.FittingPartsPass` | split_law.py:31-32 | Parts within the bounds come out stripped, one chunk each |
| `SplitLaw.AppendWindows` | split_law.py:34-37 | The window loop appends the long-enough stripped windows |
| `SplitLaw.LawRecords` | split_law.py:62-77 | Chunk i becomes `law:stem:i` with the law metadata; ids are distinct |
| `SplitMistakes.CrLfAppend` | split_mistakes.py:15 | Replacing "\r\n" pairs distributes over a concatenation whose left part does not end in a carriage return |
| `SplitMistakes.CrLfBecomesOneNewline` | split_mistakes.py:15 | A "\r\n" pair becomes exactly one newline, with the text on each side replaced on its own |
| `SplitMistakes.ReplaceCr` | split_mistakes.py:15 | Each CR becomes a newline and nothing else changes |
| `SplitMistakes.NormalizeNoCr` | split_mistakes.py:15 | No CR survives normalisation |
| `SplitMistakes.NormalizeIdempotent` | split_mistakes.py:15 | Normalising twice is normalising once, and a text without CR is left alone |
| `SplitMistakes.NormalizeKeepsText` | split_mistakes.py:15 | Apart from line breaks, normalisation keeps the text |
| `SplitMistakes.FallbackOnFewHeadings` | split_mistakes.py:26-30 | Fewer than two long heading parts switch to blank-line parts, which hold no blank line |
| `SplitMistakes.PackConcat` | split_mistakes.py:40-47 | Packing sentences into buffers loses and adds nothing |
| `SplitMistakes.PartBuffersConcat` | split_mistakes.py:39-47 | The buffers of a part concatenate back to the part |
| `SplitMistakes.PackBound` | split_mistakes.py:42-47 | Every buffer fits in `max_chars` or is a single sentence |
| `SplitMistakes.PackSentences` | split_mistakes.py:38-49 | The packing loop appends the long-enough stripped buffers |
| `SplitMistakes.SplitMistakes` | split_mistakes.py:18-51 | The loop yields the definition's chunks, each stripped and at least `min_len` long |
| `SplitMistakes.MistakeChunksTrimmed` | split_mistakes.py:33-49 | Long-enough stripped parts give long-enough stripped chunks |
| `SplitMistakes.FittingPartsPass` | split_mistakes.py:35-36 | Parts within `max_chars` come out unchanged |
| `SplitMistakes.LongPartPacking` | split_mistakes.py:37-49 | A long part is packed into buffers that concatenate back to it and fit or are single sentences |
| `SplitMistakes.MistakeRecords` | split_mistakes.py:73-87 | Chunk i becomes `mistake:stem:i` with the mistake metadata; ids are distinct |
| `Clauses.LookUp` | clauses.py:184-186 | A key finds a template exactly when the table lists it, and it finds the listed template |
| `Clauses.Bullets` | clauses.py:194 | Each clause becomes one bullet "- clause", in order |
| `Clauses.GenerateContextualClauses` | clauses.py:173-197 | The loop yields the header followed by the sections of the selected templates, or "" |
| `Clauses.ActiveAppend` | clauses.py:183-187 | Selection distributes over concatenated contexts |
| `Clauses.ActiveEmpty` | clauses.py:183-187 | Nothing is selected exactly when no context is both set and known |
| `Clauses.ContextualEmptyIff` | clauses.py:189-190 | The result is "" exactly when no context is both set and known |
| `Clauses.IgnoresUnselected` | clauses.py:186 | A context that is unset or unknown changes nothing |
| `Clauses.SectionListAppend` | clauses.py:192-195 | Sections distribute over concatenated templates |
| `Clauses.SectionsInOrder` | clauses.py:192-197 | More contexts append their sections after the existing ones |
| `Clauses.SectionLines` | clauses.py:194-195 | A section's lines are a blank line, the bold title line and one bullet per clause |
| `Clauses.StandardClausesCount` | clauses.py:8-36 | There are 27 standard clauses |
| `Clauses.TemplateKeysInOrder` | clauses.py:40-170 | The templates are keyed, in order, by exactly the keys of the context patterns |
| `LeaseContext.DetectLeaseContext` | utils.py:9-21 | There is one flag per context of the table |
| `LeaseContext.AnyInIff` | utils.py:19 | A context is flagged exactly when one of its words occurs |
| `LeaseContext.DetectFlags` | utils.py:17-21 | Flag i has key i and is set exactly when one of its keywords occurs in the lower-cased text |
| `LeaseContext.DetectedKeys` | config.py:121-137 | The detected keys are, in order, the keys of the templates |
| `LeaseContext.DetectMonotone` | utils.py:19 | A flag set for a text stays set when text is added around it |
| `LeaseContext.LoweredMessageSameFlags` | utils.py:17 | Lower-casing the message beforehand changes no flag |
| `LeaseContext.DetectSeesOnlyKeywordLetters` | utils.py:17-21 | Two lower-cased texts that agree wherever either holds a keyword letter raise the same flags |
| `LeaseContext.KelvinSignFlagsParking` | utils.py:17-21 | "PAR\u212AING", with the Kelvin sign, sets the parking flag |
| `LeaseContext.KeywordInAnyCase` | utils.py:17-19 | A keyword in any letter case sets its flag |
| `LeaseContext.CapitalOfficeFlagged` | config.py:130 | "OFFICE" sets the office flag |
| `LeaseContext.EmptyFlagsNothing` | utils.py:17-21 | The empty text sets no flag |
| `LeaseContext.KeywordsNonEmpty` | config.py:121-137 | No keyword is empty |
| `LeaseContext.OfficeWordFlagsTwo` | config.py:123-130 | "مكتب" sets both the commercial and the office flag |
| `LeaseContext.ShopWordFlagsTwo` | config.py:123-131 | "محل" sets both the commercial and the shop flag |
| `Ingest.ChunkListConcat` | ingest_to_supabase.py:71-74 | The batches concatenate back to the rows |
| `Ingest.ChunkListShape` | ingest_to_supabase.py:71-74 | Every batch holds 1 to n rows, all but the last exactly n, and there are ceil(len/n) batches |
| `Ingest.SchemaFirstRowOnly` | ingest_to_supabase.py:120-124 | The schema check looks at the first row only |
| `Ingest.ColumnsOf` | ingest_to_supabase.py:129-131 | The columns exist exactly when every row has "id" and "text"; they hold each row's text, id and metadata (default {}) |
| `Ingest.WithDocType` | ingest_to_supabase.py:144-146 | The result has "doc_type": the existing one when present, else the file's type; every other entry is unchanged |
| `Ingest.WithDocTypeIdempotent` | ingest_to_supabase.py:144-146 | Adding a doc type twice is adding it once |
| `Ingest.PrepareBatch` | ingest_to_supabase.py:141-153 | The loop fails exactly when there are more vectors than rows; otherwise record i has id, text and vector i and metadata i with the doc type |
| `Ingest.MigrateFile` | ingest_to_supabase.py:119-163 | The file loop yields the definition's outcome and counts what it upserted |
| `Ingest.StoppedStays` | ingest_to_supabase.py:129-131 | A batch with a row missing a key ends the run: later batches change nothing |
| `Ingest.MigratedAtMostRows` | ingest_to_supabase.py:126-161 | A migrated file upserts at most as many records as it has rows, each with a "doc_type" |
| `Ingest.BadFirstRowSkipsFile` | ingest_to_supabase.py:120-124 | A first row without "id" or "text" skips the file |
| `Ingest.BatchAllUpserted` | ingest_to_supabase.py:128-157 | When embedding and storing succeed, a batch upserts one record per row |
| `Ingest.AllRowsWhenAllSucceed` | ingest_to_supabase.py:126-161 | When every row has its keys and every call succeeds, every row is upserted in order |
| `Text.StripProps` | split_law.py:27 | `strip` yields a trimmed middle slice with only white space cut on either side |
| `Text.StripIdempotent` | split_mistakes.py:19 | Stripping twice is stripping once |
| `Text.StripBlank` | flask_app.py:235 | A text strips to "" exactly when it is all white space |
| `Text.JoinSplit` | clauses.py:202 | Joining the split pieces with the separator restores the text |
| `Text.SplitJoin` | clauses.py:194 | Splitting joined pieces that hold no separator restores the pieces |
| `Text.CollapseNoDoubleNewline` | split_clauses.py:31 | Collapsing newline runs leaves no blank line |
| `Text.CollapseKeepsText` | split_law.py:18 | Collapsing newline runs keeps every other character |
| `Text.NatToStringInjective` | split_law.py:67 | Different numbers render differently |
| `Text.LowerIdempotent` | utils.py:17 | Lower-casing twice is lower-casing once |
| `Text.LowerAppend` | utils.py:17 | Lower-casing distributes over concatenation |
| `Text.ContainsLower` | utils.py:17-19 | An occurrence of a word is an occurrence of its lower-cased form in the lower-cased text |
| `Text.LowerKelvinParking` | utils.py:17 | The Kelvin sign lower-cases to an ASCII 'k' |
| `Text.LowerPointwise` | utils.py:17 | Without a capital I with dot above, the lower-cased text has the same length and each character is the one-character lower case of the original at that place |
| `Text.SpaceIsNoDigit` | date_validator.py:108 | No white-space character is a decimal digit |

## Left out

- NFKC normalisation (split_law.py:15, split_mistakes.py:13) is not modelled. The splitters work on already-normalised text.
- The regular expressions are not modelled as regular-expression engines:
  - The clause-start pattern is a `string -> bool` parameter.
  - The law and mistake heading patterns are cut predicates.
  - The date and range finders are given as their match lists.
  - Only the Arabic-month pattern inside `parse_date` is modelled character by character.
- `str.isalpha` is modelled for ASCII, Latin-1 and the Arabic block only. Language detection is exact for text in those scripts.
- Text.IsDigit: the decimal-digit blocks are those of Unicode 15.0, the database of Python 3.12; a Python built on another Unicode version may list more blocks.
- Text.Lower: `str.lower()` is modelled for the capitals of ASCII and Latin-1, the Kelvin sign (U+212A, to 'k') and the capital I with dot above (U+0130, to 'i' and U+0307); every other character is kept, so Greek, Cyrillic and other cased scripts are not lower-cased.
- LeaseContext.DetectLeaseContext: the flags agree with Python's for every message even so. Python's `lower()` and `Lower` give strings of one length that differ only where neither holds a keyword letter (ASCII lower case, the space, Arabic letters): in the Unicode database no character outside ASCII other than U+212A and U+0130 lower-cases to such a letter. `DetectSeesOnlyKeywordLetters` turns that into equal flags; the character-database fact itself is not proved.
- LeaseContext.LoweredMessageSameFlags: that upper-casing a message keeps its flags is not claimed. It is false for Python: `upper()` turns 'ß' into "SS" and the dotless 'ı' into 'I'. The core never upper-cases.
- DateParse.ManualParse: the `OverflowError` that `datetime` raises for huge integers propagates in the source; the model returns no date instead.
- `strptime`'s `%-d` and `%#d` formats are bad directives in CPython and always fail. They are modelled that way.
- Parsed dates are midnights. The reference moment carries a time of day in microseconds, which matters for "start in the past" and "long past". Durations are whole days.
- `strftime('%Y')` is rendered without zero padding for years below 1000, as glibc does.
- DateValidator.GetValidationSuggestions requires the reference moment to be more than 365 days after 0001-01-01, because the source's `timedelta` subtraction would overflow otherwise.
- The 500 error paths, the logging (`_log_event`, `print`), Flask routing and cookies, `/api/review`, `/api/export-pdf` and `/health` are left out. `uuid4` is a parameter (`freshId`).
- All OpenAI, Cohere and Supabase calls are oracles. This covers retrieval (`_retrieve_context`), prompts, `review_contract`'s and `explain_clause`'s texts, embeddings (a type parameter `E`) and upserts (a `store` predicate).
- The file loops and loaders of the scripts are left out: `read_text_file`, `load_jsonl`, `main`'s environment checks and the per-file directory walk. Only their per-file logic is modelled.
- `split_law_by_article` with `max_chars <= 0` is not modelled; SplitLaw requires `maxChars > 0`, and the only caller passes the default 3500. With `max_chars == 0`, `range` raises `ValueError` once a part reaches the window loop. With a negative `max_chars`, every long-enough part goes to the window loop, whose `range` is empty, so the function returns `[]`.
- SplitClauses.SplitIntoChunks: the `\n{2,}` collapse is modelled and proved to leave no blank line, but that it is redundant after the line filter is not proved.
- Clauses.StandardClausesCount: the line structure and numbering of the standard text, and for the templates the "(N additional clauses)" count against each list, are not proved for the concrete tables. Lemmas over these long literals exceed the solver budget, so the generic lemmas (SectionLines, SplitJoin) carry that content instead.
- LeaseContext.KeywordsNonEmpty: that every keyword is already lower case is shown only by the `OfficeWordFlagsTwo`, `ShopWordFlagsTwo` and `CapitalOfficeFlagged` instances, not for the whole table.
- `metadatas[i].copy()` is value semantics in the model: maps are values.
- Ingest.Row: a row whose `"metadata"` is JSON `null` is not representable. In the source, `None.copy()` raises inside the `try`, which drops the whole batch; the run goes on with the next one.
- Ingest.Row: ids and texts are strings; a row with a numeric `id` (or any other JSON value there) is not representable.
- pdf_utils.py, prompts.py, data_extract.py and supabase_client.py are not part of this model.
