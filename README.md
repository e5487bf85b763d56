# Rental-listing matcher: a Dafny model

The system is a retrieval-and-ranking service for room rentals in London. A
chat backend turns the conversation into an "ideal listing" and a summary,
fetches candidate listings by vector search, drops those that break the hard
constraints, has a language model score the rest concurrently, and streams
the results to a React client as server-sent events. The client folds the
events into a ranked list of listings, pages them five at a time and shows
the extracted rules as chips. A separate scraper builds the listing records
from listing pages.

This project models the deterministic part of that system and proves what
it promises:

- `ListingFilter` — the hard-constraint filter `filter_by_ideal` and its
  helpers `_matches_yes` and `_matches_value`, in both copies:
  - the streaming service reads a missing price as 0;
  - the batch endpoint indexes the price and raises.

  A comparison or `.lower()` that Python would reject is a `None` outcome.
- `MatchService` — the event sequence of `stream_matches`: one `init`, one
  `score` per scoring unit that succeeds (in completion order), one `done`,
  each framed as `data: <json>` plus a blank line (`JsonDump` models
  `json.dumps`).
- `BatchMatches` — `find_matches`: the 30/15 caps, dropping of failed
  units, and the stable descending sort by score (`Sorting`).
- `Chat` — the text handed to rule extraction, the rules text, the
  ten-message window, the message list, and the `search_suggested`
  heuristic of both `generate_response` functions.
- `OpenAiClient` — `conv_text`, the normalisation of the rule-extraction
  reply, and the construction of the scoring request: image cap, model
  choice, criteria text and commute section.
- `ApiClient` — `post` and `streamPost`: the error thrown on a non-ok
  response, the incremental `"\n\n"` splitter with its held-back buffer,
  and the `data: ` payload extraction. It proves that the client hands
  `onMessage` exactly the service's events whatever the chunking.
- `ChatController` — the `handleStreamUpdate` reducer, as a class with the
  state fields it updates, and the `searchListings` and `deleteRule` flows.
- `Rent` — `weeklyToMonthly` and `normalizeRent`.
- `ListingsPanel` — the shown listings (blacklist and score order), the
  pagination arithmetic, the page-reset effect, the rank badge, the score
  chip, and the two counters of the loading indicator.
- `RulesPanel` — `formatRule` and the chips' delete targets.
- `UseRules` — the rule-list operations and the `saveRules`/`loadRules`
  state updates.
- `Scrape` — `get_listing_details` from the parsed page on (key-name
  normalisation, postcode, price section, images), the id de-duplication
  loop and the CSV column order.

Shared modules:
- `Json` is one value type for Python dictionaries and JavaScript objects:
  association lists, with each language's truthiness. Python's `str()` and
  `repr()` and JavaScript's `String()` and object spread are modelled;
  `repr` escapes the non-printable characters up to U+00FF.
- `Text` holds the string helpers: ASCII lowercasing, `strip`/`trim`, split
  and join, and substring search.
- `Seqs` holds selection (`Keep`), subsequences and index permutations.
- `Wrappers` holds `Option`/`Result`.

The language-model, embedding, vector-store and database calls are
parameters:
- the completion order of the concurrent scoring units is a permutation;
- each unit's outcome is an `Option`;
- the model's JSON reply goes through a given `parse` function;
- the result of a database write or read is a given flag or value.

Behaviour of the code that the model keeps:
- The filter can raise on malformed fields, and the model makes each raise
  a `None` outcome:
  - the batch copy raises on a listing without a price;
  - both copies raise on a rent bound that Python cannot compare with the
    price, such as a string bound against a numeric price;
  - both copies raise on a truthy text criterion that is not a string.
- Only the batch endpoint caps scoring at 15 candidates. The streaming
  service scores every filtered candidate.
- Only an ideal value of exactly "Yes" switches an amenity filter on. The
  listing side is read by `_matches_yes`, which accepts `True`, 1 and the
  words "yes", "y", "true" and "1" in any case.

## Model

| member | source | states |
|---|---|---|
| ListingFilter.MatchesYesIff | backend/app/services/match_service.py:9-13 | `_matches_yes` holds exactly for `True`, the integer 1, and a string reading "yes", "y", "true" or "1" once lowered and stripped; lists and dicts never match |
| ListingFilter.MatchesYesOfBool | backend/app/services/match_service.py:11-13 | a boolean matches exactly when it is `True` (its `str` is "True") |
| ListingFilter.MatchesYesOfNum | backend/app/services/match_service.py:11-13 | an integer matches exactly when it is 1 (0 is falsy, other numbers print otherwise) |
| ListingFilter.NotYesWord | backend/main.py:110-114 | the text of a list or dict starts and ends with a bracket, so it is never one of the yes words |
| ListingFilter.MatchesValue | backend/app/services/match_service.py:16-20 | passes whenever the listing value or the target is falsy; raises exactly when both are truthy and the target is not a string |
| ListingFilter.MatchesValueIsSubstring | backend/app/services/match_service.py:20 | for a present value and non-empty target, the result is the case-insensitive substring test, and it does not depend on the target's case |
| ListingFilter.PriceOf | backend/app/services/match_service.py:29-32 | the service copy reads a missing price as 0; the batch copy (`l["price"]`, backend/main.py:129-132) raises on it |
| ListingFilter.YesStages | backend/app/services/match_service.py:35-38 | a boolean field filters exactly when the ideal sets it to the string "Yes" |
| ListingFilter.FuzzyStages | backend/app/services/match_service.py:41-44 | a text field filters exactly when the ideal value for it is truthy |
| ListingFilter.StagesMembers | backend/app/services/match_service.py:28-44 | the comprehensions run are the rent ceiling/floor for truthy bounds, the "Yes" amenities and the truthy text criteria |
| ListingFilter.ApplyStagesIsSelection | backend/app/services/match_service.py:23-46 | the staged comprehensions raise exactly when evaluating some listing raises, and otherwise keep exactly the listings passing every stage, in input order |
| ListingFilter.EvalAllPass | backend/app/services/match_service.py:23-46 | a listing passes the conjunction exactly when every stage keeps it |
| ListingFilter.EvalRaises | backend/app/services/match_service.py:23-46 | evaluating the conjunction raises only when some stage's test raises |
| ListingFilter.AdmitsIff | backend/app/services/match_service.py:28-44 | a listing survives iff 0 < price <= max_rent (truthy ceiling), price >= min_rent (truthy floor), every "Yes" amenity reads as yes, and every truthy text criterion matches |
| ListingFilter.FilterKeepsAdmitted | backend/app/services/match_service.py:23-46 | the result is a subsequence of the input, in input order, holding exactly the admitted listings |
| ListingFilter.FilterIdempotent | backend/app/services/match_service.py:23-46 | filtering the result again with the same ideal changes nothing |
| ListingFilter.FilterNarrows | backend/app/services/match_service.py:23-46 | an ideal with more stages yields a subsequence of the result of one with fewer |
| ListingFilter.RequireAmenityNarrows | backend/app/services/match_service.py:36-38 | setting one more amenity to "Yes" never enlarges the result |
| ListingFilter.FilterDoesNotRaise | backend/app/services/match_service.py:23-46 | with integer rent bounds, string text criteria and, under a rent bound, readable prices, the filter returns |
| ListingFilter.PricedListingsAgree | backend/main.py:124-152 | when every listing has a price, the batch copy returns what the service copy returns |
| ListingFilter.MissingPriceRaises | backend/main.py:128-132 | with a rent bound set, one listing without a price makes the batch copy raise |
| ListingFilter.TextRentFloor | backend/app/services/match_service.py:31-32 | a string price against a string floor is compared in Python string order, so a price of "900" passes a floor of "1000" |
| ListingFilter.PyGe | backend/app/services/match_service.py:32 | `>=` is defined exactly when both sides are integers or booleans, or both are strings |
| ListingFilter.MissingPriceDropped | backend/app/services/match_service.py:28-29 | under a rent ceiling the service copy drops a listing without a price |
| Json.PyEscape | backend/app/services/chat_service.py:48 | the `repr` of a text inside a list or dict holds no character Python counts as unprintable |
| Json.ReprOfControl | backend/app/services/chat_service.py:48 | a control character is written as `\x01` |
| Json.ReprOfLineFeed | backend/app/services/chat_service.py:48 | a line feed is written as `\n` |
| Json.ReprOfApostrophe | backend/app/services/chat_service.py:48 | a text holding a single quote and no double quote is put in double quotes |
| JsonDump.DumpsHasNoLineBreak | backend/app/services/match_service.py:77 | `json.dumps` output holds no line break, so each event is one `data:` line |
| MatchService.FramePayloadIsOneLine | backend/app/services/match_service.py:77-108 | each frame is "data: ", a payload without line breaks, then a blank line |
| MatchService.StreamMatches | backend/app/services/match_service.py:70-108 | the events are `init` with total = number of candidates, one `score` per successful unit in completion order, then `done`; the frames are their texts |
| MatchService.YieldScores | backend/app/services/match_service.py:101-105 | the yielded events extend the earlier ones with one `score` per successful unit in completion order, and the frames are their texts |
| MatchService.CompletedAreFaithful | backend/app/services/match_service.py:80-93 | each score event names an index below `total`, carries that candidate unchanged, its scoring result as reasoning and that result's "overall_score" as score |
| MatchService.CompletedIndices | backend/app/services/match_service.py:99-105 | the indices of the score events are the successful units' indices in completion order |
| MatchService.CompletedDistinct | backend/app/services/match_service.py:99-105 | no candidate is reported twice |
| MatchService.CompletedCovers | backend/app/services/match_service.py:94-105 | a candidate is reported iff its unit succeeds |
| MatchService.CountIsSuccesses | backend/app/services/match_service.py:102-105 | the number of score events equals the number of successful units |
| BatchMatches.SubmittedIsFirstFifteen | backend/main.py:235-253 | what is scored is the first 15 filtered listings (the 30-cap never matters) |
| BatchMatches.CompletionOrder | backend/main.py:252-254 | the completion order restricted to the submitted units is a permutation of them |
| BatchMatches.FindMatches | backend/main.py:213-266 | filter (strict copy), cap, collect successful results in completion order, sort by score; `None` when the filter raises, or when two or more results have scores that are neither all numbers nor all strings (Python's sort then compares unlike values) |
| BatchMatches.ScoreInPool | backend/main.py:252-258 | the collected results are the successful outcomes, in completion order |
| BatchMatches.RankingIsStableSort | backend/main.py:260 | the ranking exists exactly when the scores are comparable and is a permutation of the collected results; numeric scores come out non-increasing, string scores in non-increasing Python string order ("9" before "10"), and equal scores keep completion order |
| BatchMatches.NumericSortIsStable | backend/main.py:260 | sorting numeric scores gives a non-increasing permutation that keeps completion order among equal scores |
| BatchMatches.TextSortIsStable | backend/main.py:260 | sorting string scores gives a permutation in non-increasing Python string order that keeps completion order among equal strings |
| BatchMatches.TextRankOrders | backend/main.py:260 | a score that sorts below another in Python string order gets a smaller sort key |
| BatchMatches.CollectedAreSuccesses | backend/main.py:238-258 | at most 15 matches, one per successful unit; each carries its result as reasoning and its "overall_score" as score |
| Chat.UserTextEndsWithNewMessage | backend/main.py:199-202 | the extraction text is the earlier user contents and then the new message, joined by one space |
| Chat.UserTextIgnoresOtherRoles | backend/app/services/chat_service.py:37-39 | messages of other roles never reach the extractor |
| Chat.RuleLines | backend/app/services/chat_service.py:48 | one "field: value" line per rule, in order; raises iff some rule is not a dict or lacks one of the two keys |
| Chat.RulesTextNoneYet | backend/app/services/chat_service.py:48 | the rules text is "None yet" exactly for no rules, else the lines joined by ", " |
| Chat.AssembleMessages | backend/app/services/chat_service.py:53-60 | the system prompt, the last min(10, n) history messages in order, then the user message |
| Chat.GenerateResponseBatch | backend/main.py:164-184 | between 2 and 12 messages: the filled system prompt first, then the last min(10, n) history messages in order (`history[-10:]`), then the user message |
| Chat.GenerateResponse | backend/app/services/chat_service.py:42-84 | search is suggested iff (a max_budget rule and a location-type rule) or (at least 4 history messages and some rule); the nudge is appended last exactly then; the flag is returned |
| OpenAiClient.ConvTextSnoc | backend/clients/openai_client.py:70 | each further message adds exactly one "role: content" line at the end |
| OpenAiClient.RulesJsonIsDumps | backend/clients/openai_client.py:155 | the rules text is always the JSON of the list, "[]" when empty |
| OpenAiClient.ReplyText | backend/clients/openai_client.py:168 | an empty reply is read as "{}", any other reply as itself |
| OpenAiClient.RulesFromReply | backend/clients/openai_client.py:167-176 | an object with "rules" gives that value, a list gives itself, anything else or a parse failure gives the existing rules |
| OpenAiClient.UnusableReplyKeepsRules | backend/clients/openai_client.py:172-176 | every reply that is neither a list nor an object with "rules" keeps the existing rules |
| OpenAiClient.EmptyReplyKeepsRules | backend/clients/openai_client.py:168-174 | an empty reply keeps the existing rules |
| OpenAiClient.CriteriaAreNonNullEntries | backend/clients/openai_client.py:230 | the criteria lines are exactly the entries whose value is not `None`, as "- key: value", in key order |
| OpenAiClient.AllNullCriteriaIsEmpty | backend/clients/openai_client.py:230 | with no criterion set the criteria text is empty |
| OpenAiClient.CommuteSection | backend/clients/openai_client.py:187-202 | present iff target_location is truthy; the limit is max_commute or "not specified, assume ~40 minutes" |
| OpenAiClient.BuildScoreRequest | backend/clients/openai_client.py:230-246 | the heading first; the first 5 image urls in order, each at detail "low"; the vision model iff images are given |
| ApiClient.ErrorOf | frontend/src/api/client.ts:27-30 | a null body throws a runtime error; otherwise the thrown message is `String(detail)` for any truthy "detail" (the text itself for a string), else "API Error: " and the status text |
| ApiClient.ListDetailMessage | frontend/src/api/client.ts:27-30 | a "detail" that is a list of objects, as a validation error carries, gives the message "[object Object]" |
| ApiClient.Post | frontend/src/api/client.ts:13-32 | an ok response gives its parsed body; a non-ok one throws the error above |
| ApiClient.SkippedFrames | frontend/src/api/client.ts:73-75 | frames without "data: ", blank payloads and "[DONE]" call nothing |
| ApiClient.PayloadsAtMostOnePerFrame | frontend/src/api/client.ts:72-84 | each frame calls `onMessage` at most once |
| ApiClient.PayloadsAppend | frontend/src/api/client.ts:72-84 | the values delivered for two runs of frames are those of each run, in order |
| ApiClient.StreamPost | frontend/src/api/client.ts:34-86 | non-ok throws before reading; no body delivers nothing; otherwise the values of every complete frame of the whole text, in order, and the text after the last blank line stays in the buffer |
| ApiClient.BufferStep | frontend/src/api/client.ts:66-70 | one read keeps the invariant: the processed frames and the buffer are the split of all text so far |
| ApiClient.HandleFrames | frontend/src/api/client.ts:72-84 | the loop over one read's frames delivers their payloads in order |
| ApiClient.HeldHasNoSeparator | frontend/src/api/client.ts:66-70 | the held-back buffer never contains "\n\n" |
| ApiClient.NoTextLost | frontend/src/api/client.ts:66-70 | the complete frames rejoined with "\n\n", then the buffer, give back all the text |
| ApiClient.DeliveriesGrow | frontend/src/api/client.ts:62-85 | more text only adds deliveries; unterminated text delivers nothing yet |
| ApiClient.FramePayload | frontend/src/api/client.ts:73-79 | a frame the service writes delivers exactly its event |
| ApiClient.ClientReceivesEvents | frontend/src/api/client.ts:62-85 | end to end, `onMessage` receives exactly the service's events, in order |
| ChatController.InitResets | frontend/src/hooks/useChatController.ts:53-55 | `init` empties the listings and sets the progress to 0 of `total` |
| ChatController.ScoreAddsOne | frontend/src/hooks/useChatController.ts:56-70 | `score` adds exactly one listing, keeps them ordered by score, adds 1 to `scored` and keeps `total` |
| ChatController.ScoreInsertsListing | frontend/src/hooks/useChatController.ts:57-70 | the new listing is the normalised listing with score and reasoning, sorted into the list |
| ChatController.DoneStopsLoading | frontend/src/hooks/useChatController.ts:71-72 | `done` only stops loading |
| ChatController.OtherValuesChangeNothing | frontend/src/hooks/useChatController.ts:52-74 | any other value, or a score value whose handling throws (a missing or null match or listing, or a truthy summary that is not a string), changes nothing |
| ChatController.ScalarListingIsAdded | frontend/src/hooks/useChatController.ts:57-62 | a listing that is a number, boolean, string or array does not throw: it is spread into the new listing, which gets price 0 and the label "£0/month" |
| ChatController.ScoredCountsListings | frontend/src/hooks/useChatController.ts:53-70 | once an `init` has been seen, `scored` equals the number of listings |
| ChatController.ListingsStayRanked | frontend/src/hooks/useChatController.ts:64-68 | the listings stay ordered by score, a missing score counting as 0 |
| ChatController.ApplyScore | frontend/src/hooks/useChatController.ts:56-70 | one score value adds one listing exactly when it normalises, and keeps total and loading |
| ChatController.ScoreValuesAddListings | frontend/src/hooks/useChatController.ts:56-70 | a run of score values adds at most one listing each, exactly one when each normalises |
| ChatController.ScoreEventValue | frontend/src/hooks/useChatController.ts:57-62 | the service's score event is a score value, and it adds a listing exactly when the match's listing normalises |
| ChatController.InitEventStarts | frontend/src/hooks/useChatController.ts:53-55 | the service's `init` event restarts the progress at its total |
| ChatController.DoneEventStops | frontend/src/hooks/useChatController.ts:71-72 | the service's `done` event stops loading |
| ChatController.ScoreEventsAddAll | frontend/src/hooks/useChatController.ts:56-70 | the service's score events add one listing each when every listing normalises |
| ChatController.ServiceStreamView | frontend/src/hooks/useChatController.ts:52-74 | after a whole stream: one listing per score event, `scored` = that count, `total` from `init`, loading off, listings ranked by score |
| ChatController.RemainingRulesDropField | frontend/src/hooks/useChatController.ts:164 | no rule with the field is left, every other rule is kept in order, and filtering again changes nothing |
| ChatController.ChatController.constructor | frontend/src/hooks/useChatController.ts:29-34 | no listings, progress 0 of 0, not loading, no suggestion |
| ChatController.ChatController.HandleStreamUpdate | frontend/src/hooks/useChatController.ts:52-74 | the state fields become the reducer applied to the old state and the value |
| ChatController.ChatController.StartProgress | frontend/src/hooks/useChatController.ts:53-55 | on an `init` value the new state is the reducer's (progress 0 of the announced total, no listings) and the search suggestion is untouched |
| ChatController.ChatController.AddScored | frontend/src/hooks/useChatController.ts:56-71 | on a `score` value the new state is the reducer's (its listing ranked in, one more scored, or nothing when it carries no listing) and the search suggestion is untouched |
| ChatController.ChatController.InsertListing | frontend/src/hooks/useChatController.ts:65-71 | the listings become the old ones plus the new one sorted by descending score, and the scored count grows by one |
| ChatController.ChatController.SearchListings | frontend/src/hooks/useChatController.ts:76-106 | nothing without a conversation or token; otherwise the delivered values are applied from a reset progress, and loading and the suggestion end false |
| ChatController.ChatController.DeleteRule | frontend/src/hooks/useChatController.ts:161-183 | the rules saved are those of other fields; with messages a new search runs, and a throw stops loading |
| Rent.WeeklyToMonthlyIsNearest | frontend/src/utils/rent.ts:5 | the result is the unique integer nearest to 52p/12 |
| Rent.WeeklyToMonthlyMonotone | frontend/src/utils/rent.ts:5 | a higher weekly price never gives a lower monthly one |
| Rent.NormalizeRentKeepsOtherFields | frontend/src/utils/rent.ts:12-16 | every field other than price and priceLabel is copied unchanged |
| Rent.NormalizeRentWeekly | frontend/src/utils/rent.ts:14-15 | a weekly listing's price becomes the monthly equivalent, labelled "£p" + "pw (£m/mo)" |
| Rent.NormalizeRentMonthly | frontend/src/utils/rent.ts:14-15 | any other listing keeps its price and is labelled "£p/month" |
| Rent.MissingSummaryIsMonthly | frontend/src/utils/rent.ts:9-10 | a listing without a summary is not weekly |
| Rent.MissingPriceIsZero | frontend/src/utils/rent.ts:11 | a missing price reads as 0 and converts to 0 |
| Rent.UnpricedIsZeroMonthly | frontend/src/utils/rent.ts:8-16 | a listing without summary and price normalises to price 0 labelled "£0/month" |
| ListingsPanel.ShownAreNotBlacklisted | frontend/src/components/ListingsPanel.tsx:107-109 | in matches mode each listing is shown as often as it occurs, unless blacklisted |
| ListingsPanel.ScoreKeyCoerces | frontend/src/components/ListingsPanel.tsx:109 | the score the sort subtracts is a digit string's value, a number itself, 1 for `true`, and 0 for any falsy score |
| ListingsPanel.ShownAreRanked | frontend/src/components/ListingsPanel.tsx:107-109 | in matches mode the shown listings are ordered by score, ties kept in input order |
| ListingsPanel.TotalPagesIsCeiling | frontend/src/components/ListingsPanel.tsx:112 | the page count is the least number of five-item pages that hold the listings |
| ListingsPanel.PageShowsItsSlice | frontend/src/components/ListingsPanel.tsx:113-114 | a page shows at most five items, from its start index on, and each badge is the item's position plus one |
| ListingsPanel.EveryListingHasAPage | frontend/src/components/ListingsPanel.tsx:193 | each listing appears on exactly one page within the page count, with badge k + 1 |
| ListingsPanel.Pager.constructor | frontend/src/components/ListingsPanel.tsx:102 | the page starts at 1 |
| ListingsPanel.Pager.ResetIfPastEnd | frontend/src/components/ListingsPanel.tsx:117-121 | back to page 1 exactly when the page is past a non-zero page count |
| ListingsPanel.ChipBands | frontend/src/components/ListingsPanel.tsx:248-252 | success from 70, warning from 50 to 69, default below 50, and no chip for 0 or no score |
| ListingsPanel.LoadingIndicator.constructor | frontend/src/components/ListingsPanel.tsx:22-23 | message 0, progress 0 |
| ListingsPanel.LoadingIndicator.NextMessage | frontend/src/components/ListingsPanel.tsx:27-29 | the message index advances cyclically and stays below 6 |
| ListingsPanel.LoadingIndicator.Tick | frontend/src/components/ListingsPanel.tsx:32-39 | progress grows by 2, 1 or 0.5 points below 50, 70 and 90, stops at 90, never decreases and never passes 90 |
| RulesPanel.FormatRule | frontend/src/components/RulesPanel.tsx:10-20 | every label other than the two flags ends with the value |
| RulesPanel.BudgetLabel | frontend/src/components/RulesPanel.tsx:13-14 | "Max " or "Min ", "£" iff the unit is "GBP", then the value |
| RulesPanel.UnitOnlyForBudgets | frontend/src/components/RulesPanel.tsx:13-18 | the unit changes no label but a budget's |
| RulesPanel.FlagLabelsAreFixed | frontend/src/components/RulesPanel.tsx:16-17 | pets_allowed and bills_included have fixed labels whatever the value |
| RulesPanel.LocationLabel | frontend/src/components/RulesPanel.tsx:15 | "Location: " and the value |
| RulesPanel.OtherFieldsNamed | frontend/src/components/RulesPanel.tsx:18 | any other field is labelled by its name, ": ", then the value |
| RulesPanel.Chips | frontend/src/components/RulesPanel.tsx:47-51 | one chip per rule, labelled by `formatRule`, deleting that rule's field |
| RulesPanel.DeleteTargetsOwnField | frontend/src/components/RulesPanel.tsx:49-51 | chips of different fields delete different fields |
| UseRules.Appended | frontend/src/hooks/useRules.ts:82 | the old rules, then the new one at the end |
| UseRules.WithoutIndexIsSplice | frontend/src/hooks/useRules.ts:87 | only the element at the index is dropped, others in order; an out-of-range index drops nothing |
| UseRules.AddThenRemoveRestores | frontend/src/hooks/useRules.ts:81-89 | removing the rule just added gives the old list back |
| UseRules.Replaced | frontend/src/hooks/useRules.ts:92 | same length, only the index replaced |
| UseRules.ReplacedOutOfRange | frontend/src/hooks/useRules.ts:92 | an out-of-range index changes nothing; a second update at the same index overrides the first |
| UseRules.LoadedRules | frontend/src/hooks/useRules.ts:36-44 | the stored list, or [] on an error, no row or a null column |
| UseRules.RulesStore.constructor | frontend/src/hooks/useRules.ts:19-20 | no rules, not loading |
| UseRules.RulesStore.LoadRules | frontend/src/hooks/useRules.ts:22-46 | nothing without a user and a conversation; otherwise the loaded rules, loading ended |
| UseRules.RulesStore.ConversationChanged | frontend/src/hooks/useRules.ts:49-55 | loads with a user and a conversation, otherwise clears the rules |
| UseRules.RulesStore.SaveRules | frontend/src/hooks/useRules.ts:57-79 | fails without a user or a conversation, or when the upsert fails; adopts the new list exactly when it does not fail |
| UseRules.RulesStore.AddRule | frontend/src/hooks/useRules.ts:81-84 | on success the rules are the old ones with the rule appended |
| UseRules.RulesStore.RemoveRule | frontend/src/hooks/useRules.ts:86-89 | on success the rules lack the element at the index |
| UseRules.RulesStore.UpdateRule | frontend/src/hooks/useRules.ts:91-94 | on success only the index is replaced |
| UseRules.RulesStore.ClearRules | frontend/src/hooks/useRules.ts:96-98 | on success the rules are empty |
| Scrape.NormaliseKey | scrape.py:136-137 | a normalised key holds no whitespace, no upper-case letter, no "?", "#" or "/" |
| Scrape.NormaliseKeyIdempotent | scrape.py:136-137 | normalising a normalised key changes nothing |
| Scrape.PostcodeIsFirstToken | scrape.py:105 | the postcode is the first word of the feature text, the empty text stays empty |
| Scrape.FeatureStep | scrape.py:98-111 | a key feature never removes a field or moves an existing key |
| Scrape.KeyFeatureFields | scrape.py:96-111 | the key features in order keep every existing key in place |
| Scrape.KeyFeaturesStopAtError | scrape.py:98-105 | once a key feature raises, the whole page does |
| Scrape.PairFields | scrape.py:130-138 | the zipped pairs keep every existing key in place; what each pair writes is stated by the two lemmas below |
| Scrape.PairFieldsWriteValue | scrape.py:132-137 | after the first `n` pairs, the value of pair `from - 1` is stored under its normalised key name, unless a later pair among them has a key with the same name |
| Scrape.GenericSectionWritesPairs | scrape.py:128-137 | a generic section stores each zipped `dd` text under its `dt` key's normalised name; when several keys normalise to one name, the last pair wins |
| Scrape.PriceFields | scrape.py:117-126 | the price section keeps every existing key in place, stores the first `dt` text as `rent` when there is a `dt`, and the first `dd` text as `room_type` when there is a `dd` |
| Scrape.PriceSectionWritesTwoKeys | scrape.py:117-126 | the price section writes only "rent" and "room_type" |
| Scrape.PairFieldsWriteNormalisedKeys | scrape.py:128-138 | a generic section writes only the normalised names of its zipped keys |
| Scrape.SectionFields | scrape.py:115-138 | a section keeps every existing key in place |
| Scrape.SectionsFields | scrape.py:114-138 | the sections in order keep every existing key in place |
| Scrape.Images | scrape.py:141-146 | every collected image is a non-empty href |
| Scrape.ImagesAreNonEmptyHrefs | scrape.py:141-146 | the images are exactly the present, non-empty hrefs, in page order |
| Scrape.ImagesJson | scrape.py:147 | the images are stored as a JSON list of their strings, in order |
| Scrape.DetailsShape | scrape.py:87-147 | the record starts with "flatshare_id", and "images" holds the JSON text of the list of non-empty hrefs |
| Scrape.FillKeyFeatures | scrape.py:95-111 | the key-feature loop computes the key-feature record, or raises |
| Scrape.FillSection | scrape.py:115-138 | the section loop computes the section's record |
| Scrape.CollectImages | scrape.py:141-146 | the photo loop collects the images |
| Scrape.StartRecord | scrape.py:87-111 | the id, the description and the key features give the record before the sections, or the key-feature loop raises |
| Scrape.FillSections | scrape.py:113-138 | the loop over the feature sections computes their record |
| Scrape.ParseListing | scrape.py:73-149 | the record filled in place equals the reference definition of the record |
| Scrape.Dedup | scrape.py:166-172 | the loop with its seen-set returns each id at its first occurrence |
| Scrape.FirstOccurrencesSpec | scrape.py:166-172 | no duplicates, exactly the ids collected, in order of first occurrence |
| Scrape.SortKeysSpec | scrape.py:203 | the keys sorted by Python string order, each once |
| Scrape.IncreasingUnique | scrape.py:203 | two increasing key lists with the same members are equal |
| Scrape.Columns | scrape.py:203 | "flatshare_id" first, then every other key once, in increasing order |
| Scrape.ColumnsIgnoreKeyOrder | scrape.py:187-203 | the columns depend only on the set of keys, not on the order they were met |

## Left out

- Language-model, embedding, vector-store and database calls: their results are parameters (an outcome per scoring unit, a `parse` function for replies, an upsert-failure flag, a stored row).
- Concurrency (`asyncio.as_completed`, the thread pools, React state batching): a scoring run is a given completion-order permutation with an `Option` outcome per unit; cancellation, worker counts and timing are not modelled.
- Floating point: numbers are integers. The loading indicator's progress is kept in half percentage points. `weeklyToMonthly` is defined for integer weekly prices only; arithmetic on a weekly price that is not a number makes `Rent.NormalizeRent` return `None`.
- Python exceptions in the filter, in `str.split` and in dictionary indexing are `None` outcomes; the exception types and messages are not.
- Lowercasing is ASCII only; Unicode case mapping is not modelled.
- Prompt prose: the system prompts are kept as the values spliced into them (today's date, rules text, commute values). The wording around them is a `Template` or left out. Today's date is a parameter.
- `TextDecoder`: the stream body arrives as already decoded text chunks.
- `saveRules` reports a failed upsert through its returned `error`, as the source does; the `data` it returns alongside is not modelled.
- ChatController.RemainingRules: a rule that is `null` is kept, where reading `r.field` of `null` throws a `TypeError` in JavaScript; such a rule never reaches a delete, because rendering it in the rules panel already throws.
- A missing property of a rule reads as JSON null, so `RulesPanel.FormatRule` prints an absent value as "null" where JavaScript prints "undefined".
- Scrape: the HTTP requests, the BeautifulSoup navigation and `get_flatshare_ids` are left out. A page is given as the texts `get_text(strip=True)` returns. On such a text the postcode line cannot raise (`Scrape.PostcodeIsFirstToken`). `Scrape.Postcode` returns `None` only for a non-empty text without a word, which a stripped text never is.
- The fetch loop of the scraper's `main` is left out: the ids are given, and pages that fail to parse are not collected. The CSV writing is left out apart from its column order.
- `_prepare_candidates`, `extract_rules_from_conversation`'s call to the model, and `generate_ideal_listing`/`summarize_conversation` are glue around model calls: only the text they pass on is modelled.
- `sendMessage`, `handleReject`, `handleShortlist`, `handleReset` and `handleSignOut` in the controller belong to persistence and UI flows outside this model.
- Rendering: the JSX markup and styles; only the label, ordering, paging and chip logic are modelled.
- ListingsPanel.ScoreKey: a string score other than plain digits (" 7", "-3", "1e2"), an array score and an object score are read as 0. JavaScript's subtraction converts such a string or a one-element array to a number, or gets NaN, which the sort treats as "equal" for every pair involving that listing.
- BatchMatches.Comparable: when every score is a list, Python compares the lists element by element; the model counts this as a raise.
- ListingFilter.PyGe: a list price against a list floor compares element by element in Python; the model counts this as a raise.
- Json.PyEscape: characters above U+00FF that Python's `repr` escapes (the other non-printable code points) are copied unchanged.
- Json.Spread: a spread string is indexed by code point. JavaScript indexes it by UTF-16 code unit, so a character outside the Basic Multilingual Plane gives two entries there and one here.
