# Prompt Architect: a Dafny model

Prompt Architect turns a short interview about a prompt (its goal, audience,
inputs, output format, constraints and more) into a generated "metaprompt".
The model covers the two parts where the logic lives.

The first part is the server's edge function, `prompt-architect`:

- request validation;
- the mapping of thrown errors to HTTP statuses, and the pass-through of AI-gateway failures;
- the interview step: the missing fields, the progress text, the next focus and the ready answer;
- hybrid retrieval: search terms, keywords, fusion of dense and keyword candidates, rerank and the historical top performers;
- evidence and citation assembly, and the citation merge;
- JSON extraction from model replies, with its fallbacks;
- the rubric composite and the one-pass refinement gate;
- the response, and whether storing the prompt record succeeds;
- the request dispatch.

The second part is the front end's computable logic:

- chunking and upload progress in the knowledge base;
- form validation, title, first message and completion in the conversation view;
- keyword field extraction and the Generate button in the interview wizard;
- score tiers, percentage, grid, reference counts and copy/download text in the prompt display;
- the record-to-view mapping in the prompt history.

The modules follow the program's structure:

- `Common` holds strings, `Option`/`Result`, JavaScript numbers with NaN, `Math.round` and the stable descending sort.
- `Json` holds parsed JSON values.
- `Validation`, `Responses`, `Interview`, `Retrieval`, `Evidence`, `Extraction`, `Scoring` and `Pipeline` model the edge function.
- `KnowledgeBase`, `ConversationView`, `InterviewWizard`, `PromptDisplay` and `PromptHistory` model the components.

Every network, database, embedding and AI-gateway call is a parameter: the model receives the rows, the replies and the success flags these calls would produce. `JSON.parse` is a parameter `parse` too.

Some loops are imperative Dafny, each proved against a reference function:

- the fusion of candidates;
- the evidence and citation loops;
- `validateCollected`;
- `chunkText` and the upload loop;
- the error map of the form;
- the wizard's field extraction.

Each component whose state the source updates in place is a class (`InterviewWizard.Wizard`).

Several properties span two files. These observations are not corrected; each is stated by the lemma named with it:

- The server adds the rubric result to the scores under `composite`, never under `total` (index.ts:580 and 650, modelled by `Pipeline.FinalScores`; the database record that stores them is not modelled). For scores without `total`, the display shows 0% (`PromptDisplay.MissingTotalIsZero`), and the history falls back to `total_score` (`PromptHistory.StoredRecordBadge`).
- The generation response names its reference counts `kb_chunks` and `historical_prompts`. The display reads `kb_count` and `historical_count`, so it shows 0 and 0 (`PromptDisplay.ServerReferencesShowZero`).
- The generation response carries the artifact under `metaprompt`, with neither `final_prompt` nor `prompt`. Copy and download have nothing to export from it (`PromptDisplay.ServerResponseNotExported`).
- The wizard fills only five of the server's required fields, so its record never makes the interview answer ready (`InterviewWizard.WizardRecordNeverReady`). The Generate button then depends on the wizard's own completion.
- The form's messages say "less than N characters", but the bounds are inclusive: N characters pass (`ConversationView.Check`).
- The form enables its submit button as soon as every field has some text, though validation can still refuse the submission (`ConversationView.EnabledButInvalid`).
- Selecting a history record does not change the display. The history dispatches its record in the event's detail. The display's listener ignores the detail and rereads `latestPrompt` from localStorage (PromptDisplay.tsx:14-26), which only the wizard writes. `PromptHistory.SelectedPromptExports` states what the dispatched object holds; nothing in the model passes it to the display.

The edge function checks that the caller owns the conversation (`verifyConversationOwnership`, index.ts:143-151). It never checks that the caller owns the project.

## Model

| member | source | states |
|---|---|---|
| Common.Trim | supabase/functions/prompt-architect/index.ts:124 | `value.trim()`: the result is no longer than the input and neither starts nor ends with ECMAScript whitespace |
| Common.TrimStart | supabase/functions/prompt-architect/index.ts:124 | the leading whitespace run removed: a suffix of the input, everything cut off is whitespace, and the result does not start with whitespace |
| Common.TrimEnd | supabase/functions/prompt-architect/index.ts:124 | the trailing whitespace run removed: a prefix of the input, everything cut off is whitespace, and the result does not end with whitespace |
| Common.TrimIsBothEnds | supabase/functions/prompt-architect/index.ts:124 | trimming is trimming the start and then the end |
| Common.TrimEmptyIffBlank | supabase/functions/prompt-architect/index.ts:221 | `value.trim() === ''` holds exactly when the value consists only of whitespace |
| Common.ToLower | src/components/InterviewWizard.tsx:68 | `toLowerCase()` keeps the length and lower-cases each ASCII letter at its position |
| Common.LowerChar | src/components/InterviewWizard.tsx:68 | a lower-cased character is never an upper-case ASCII letter, and every other character is kept |
| Common.ContainsMiddle | supabase/functions/prompt-architect/index.ts:200-211 | `includes` finds every piece a string is glued from |
| Common.NotContainsMissingChar | supabase/functions/prompt-architect/index.ts:200-211 | a string that lacks one character of a phrase does not `include` that phrase |
| Common.Prefix | src/components/PromptHistory.tsx:130 | `substring(0, n)` / `slice(0, n)`: the first min(n, length) elements, and exactly those |
| Common.NatToString | supabase/functions/prompt-architect/index.ts:306 | a number interpolated into a template string is a non-empty run of decimal digits |
| Common.NatToStringRoundTrip | supabase/functions/prompt-architect/index.ts:306 | reading the rendered digits back gives the number |
| Common.Round | src/components/PromptDisplay.tsx:85 | `Math.round`: an integer within half a unit of the argument, halves going up |
| Common.RoundOfInteger | src/components/PromptDisplay.tsx:85 | `Math.round` leaves an integer unchanged |
| Common.InsertDesc | supabase/functions/prompt-architect/index.ts:410-415 | inserting into a list sorted by descending key keeps it sorted and adds exactly the new element, which lands at the head or behind the old head |
| Common.SortDesc | supabase/functions/prompt-architect/index.ts:410-415 | `sort((a, b) => b.score - a.score)`: a permutation of the input with non-increasing keys |
| Common.InsertDescStable | supabase/functions/prompt-architect/index.ts:410-415 | the inserted element goes before every element with the same key, and the elements of each key keep their order |
| Common.SortDescStable | supabase/functions/prompt-architect/index.ts:410-415 | the sort is stable: for every key value, the elements with that key appear in the same order as in the input |
| Common.SortedDescPrefix | supabase/functions/prompt-architect/index.ts:415 | `slice(0, n)` of a sorted list is sorted |
| Common.SortedDescSplit | supabase/functions/prompt-architect/index.ts:415 | every element kept by `slice(0, n)` scores at least as high as every element cut off |
| Json.Keys | supabase/functions/prompt-architect/index.ts:137 | the member names of an object, one per member, in order |
| Json.Lookup | supabase/functions/prompt-architect/index.ts:138 | `obj[key]`: undefined exactly when no member has that name, otherwise the value of a member with that name that no later member overrides (the last one) |
| Json.Assign | supabase/functions/prompt-architect/index.ts:528 | `obj[key] = v`: reading `key` gives `v`, every other key reads as before, an existing key keeps its place and a new key is appended |
| Json.Replace | supabase/functions/prompt-architect/index.ts:528 | overwriting an existing property keeps the key order, and only `key` reads differently |
| Json.Or | src/components/PromptHistory.tsx:63-72 | `a \|\| b` on property values: `a` when truthy, `b` otherwise |
| Json.ToNumber | src/components/PromptDisplay.tsx:84 | the number a numeric value holds; `undefined` is NaN |
| Json.Distinct | src/components/PromptHistory.tsx:145-148 | `Object.keys`: the same names with repeats dropped, never more of them, and no name twice |
| Json.FirstIndex | src/components/PromptHistory.tsx:145-148 | the position where a name first occurs: it holds the name and no earlier position does |
| Json.DistinctInFirstOrder | src/components/PromptHistory.tsx:145-148 | the names are listed in the order of their first appearance |
| Validation.ValidateString | supabase/functions/prompt-architect/index.ts:121-125 | accepts exactly the strings no longer than the bound and returns them trimmed; a non-string gives "… must be a string", an over-long string "… exceeds N chars" |
| Validation.AllHexSlice | supabase/functions/prompt-architect/index.ts:129 | a group `[0-9a-f]{n}` matches a slice exactly when every character in it is a hex digit of either case |
| Validation.UuidRegexIffLayout | supabase/functions/prompt-architect/index.ts:129 | the anchored 8-4-4-4-12 regular expression accepts exactly the 36-character strings with hyphens at 8, 13, 18 and 23 and hex digits elsewhere |
| Validation.ValidateUUID | supabase/functions/prompt-architect/index.ts:127-132 | returns the value unchanged exactly when it is a string in UUID layout; otherwise "… must be a string" or "… must be valid UUID" |
| Validation.FormattedUuidAccepted | supabase/functions/prompt-architect/index.ts:127-132 | five hex groups of lengths 8, 4, 4, 4 and 12 joined with hyphens are accepted by validateUUID and returned unchanged |
| Validation.ValidatedPrefix | supabase/functions/prompt-architect/index.ts:136-139 | the dictionary built from the first n visited members has exactly their keys, less "__proto__", which the assignment never stores |
| Validation.ReadMembers | supabase/functions/prompt-architect/index.ts:137-138 | the members visited for a list of keys: one per key, in that order, each with the value `collected[key]` reads |
| Validation.ForInKeysFacts | supabase/functions/prompt-architect/index.ts:137 | `for...in` visits each own key of the object exactly once; array-index keys come first, ascending, and the other keys keep their creation order |
| Validation.ForInObjectValid | supabase/functions/prompt-architect/index.ts:137-139 | every visited member is valid exactly when, for every key of the object, the value `collected[key]` reads (its last member's) is a string of at most 2000 characters |
| Validation.ValidatedObject | supabase/functions/prompt-architect/index.ts:136-140 | on a valid object the result has exactly the object's keys less "__proto__", each mapped to the trimmed value of the key's last member |
| Validation.RepeatedKeyLastValueWins | supabase/functions/prompt-architect/index.ts:137-139 | `{"Goal": 1, "Goal": "x"}` is visited as the single member Goal = "x" and validates to `{Goal: "x"}` |
| Validation.IndexKeyVisitedFirst | supabase/functions/prompt-architect/index.ts:137-139 | in `{"b": 1, "1": 2}` the key "1" is visited first, and it is the first member that fails |
| Validation.ValidateCollected | supabase/functions/prompt-architect/index.ts:134-141 | a non-object gives "Collected must be object"; otherwise, over the members in `for...in` order (each key once, with its last value): success exactly when every member passes validateString, the result maps each key except "__proto__" to its trimmed value, and a failure is the error of the first member that fails in that order |
| Validation.ValidateMembers | supabase/functions/prompt-architect/index.ts:137-140 | the `for...in` loop over the visited members: stops at the first member that fails with that member's error, otherwise returns the trimmed value of every member whose key is not "__proto__" |
| Validation.ValidatedPrefixStep | supabase/functions/prompt-architect/index.ts:138 | one loop iteration stores the trimmed value of the current member under its key, unless the key is "__proto__" |
| Validation.ValidatedPrefixValue | supabase/functions/prompt-architect/index.ts:137-139 | each key holds the trimmed value of its last occurrence among the members |
| Responses.Classify | supabase/functions/prompt-architect/index.ts:196-216 | the first of four branches that applies decides: "Unauthorized" or "access denied" gives 403 "Access denied"; "not found" gives 404 "Resource not found"; "must be", "exceeds" or "required" gives 400 with the message itself; everything else, including a thrown non-Error, gives 500 "An error occurred" |
| Responses.NoDetailLeaks | supabase/functions/prompt-architect/index.ts:198-211 | every status except 400 carries one of three fixed texts, never the thrown message |
| Responses.MustBeIsClientError | supabase/functions/prompt-architect/index.ts:122 | a "… must be …" validation error never becomes a 500 |
| Responses.ExceedsIsClientError | supabase/functions/prompt-architect/index.ts:123 | a "… exceeds N chars" validation error never becomes a 500 |
| Responses.RequiredIsClientError | supabase/functions/prompt-architect/index.ts:185-186 | a "… required" error never becomes a 500 |
| Responses.FieldNameCanShadowValidation | supabase/functions/prompt-architect/index.ts:138 | a collected key named "Unauthorized" whose value is not a string answers 403 "Access denied", not 400 |
| Responses.ClassifyAccessDenied | supabase/functions/prompt-architect/index.ts:201-203 | a message naming an access failure is a 403 |
| Responses.ClassifyClientError | supabase/functions/prompt-architect/index.ts:207-209 | a validation message that names no access or lookup failure is a 400 with the message |
| Responses.ClassifyInternal | supabase/functions/prompt-architect/index.ts:198-199 | a message naming none of the phrases is a 500 |
| Responses.UnauthorizedIs403 | supabase/functions/prompt-architect/index.ts:168 | a failed authentication answers 403 "Access denied" |
| Responses.NotOwnedIs403 | supabase/functions/prompt-architect/index.ts:151 | a conversation the user does not own answers 403, not 404, because "access denied" is tested first |
| Responses.MissingProjectIs400 | supabase/functions/prompt-architect/index.ts:185 | a missing project_id answers 400 "project_id required" |
| Responses.NoAccessPhrases | supabase/functions/prompt-architect/index.ts:201-206 | a message missing "U" and one character each of "access denied" and "not found" is neither a 403 nor a 404 |
| Responses.NoValidationPhrases | supabase/functions/prompt-architect/index.ts:207 | a message missing one character each of "must be", "exceeds" and "required" is not a validation message |
| Responses.InvalidActionFacts | supabase/functions/prompt-architect/index.ts:194 | "Invalid action" names none of the classified phrases |
| Responses.StoreFailureAccessFacts | supabase/functions/prompt-architect/index.ts:698-701 | "Failed to save prompt record" names no access or lookup failure |
| Responses.StoreFailureValidationFacts | supabase/functions/prompt-architect/index.ts:698-701 | "Failed to save prompt record" is not a validation message |
| Responses.GatewayErrorAccessFacts | supabase/functions/prompt-architect/index.ts:288 | "AI gateway error" names no access or lookup failure |
| Responses.GatewayErrorValidationFacts | supabase/functions/prompt-architect/index.ts:288 | "AI gateway error" is not a validation message |
| Responses.SynthesisFailedAccessFacts | supabase/functions/prompt-architect/index.ts:496 | "Synthesis failed" names no access or lookup failure |
| Responses.SynthesisFailedValidationFacts | supabase/functions/prompt-architect/index.ts:496 | "Synthesis failed" is not a validation message |
| Responses.InternalMessagesAre500 | supabase/functions/prompt-architect/index.ts:194 | an unknown action, a failed store and the two gateway failures all reach the client as 500 "An error occurred" |
| Responses.GatewayFailure | supabase/functions/prompt-architect/index.ts:275-289 | a failed gateway reply: 429 and 402 are returned with their own messages, any other status is thrown as the given error |
| Responses.StatusOf | supabase/functions/prompt-architect/index.ts:196-216 | the status the client sees: 200 for success, the upstream status for an early response, the classified status for a thrown value |
| Responses.GatewayFailureStatus | supabase/functions/prompt-architect/index.ts:275-289 | a failed gateway call reaches the client as 429, 402 or otherwise 500 |
| Interview.MissingOf | supabase/functions/prompt-architect/index.ts:221 | `fields.filter(...)`: exactly the fields that are absent or blank after trimming, in their original order, never more than the fields |
| Interview.Missing | supabase/functions/prompt-architect/index.ts:221 | the missing list is exactly the required fields that are not filled, in declared order, at most ten of them |
| Interview.FilledCount | supabase/functions/prompt-architect/index.ts:306 | the count of filled required fields is at most the number of fields |
| Interview.MissingPlusFilled | supabase/functions/prompt-architect/index.ts:221-306 | missing and filled fields add up to all the required fields |
| Interview.ProgressText | supabase/functions/prompt-architect/index.ts:306 | the progress text is "k/10 fields collected" for some k between 0 and 10 |
| Interview.ProgressSuffix | supabase/functions/prompt-architect/index.ts:306 | the `/${REQUIRED_FIELDS.length}` part reads "/10" |
| Interview.ProgressCountsFilled | supabase/functions/prompt-architect/index.ts:306 | the k in the progress text is the number of filled required fields |
| Interview.MissingEmptyIffAllFilled | supabase/functions/prompt-architect/index.ts:221-229 | nothing is missing exactly when every required field is filled |
| Interview.FocusArea | supabase/functions/prompt-architect/index.ts:237-255 | the focus named in the system prompt sent to the gateway (not returned to the client) is the first of Business_Context, Audience, Brand_Voice, Guardrails, Success_Metrics that is absent or empty; only when all five are present is it "Remaining Details" with the first three missing fields |
| Interview.TrimIdempotent | supabase/functions/prompt-architect/index.ts:124 | trimming twice is trimming once |
| Interview.ValidatedIsTrimmed | supabase/functions/prompt-architect/index.ts:138 | every value in the validated dictionary is already trimmed |
| Interview.FocusAgreesWithMissing | supabase/functions/prompt-architect/index.ts:221-255 | on a validated dictionary a field is missing exactly when it is empty, the focus field is one of the missing fields, and "Remaining Details" lists only missing non-priority fields |
| Interview.BlankValueMissingButNotFocus | supabase/functions/prompt-architect/index.ts:221-237 | on an unvalidated dictionary the two tests disagree: a value of one space is missing but is not chosen as the focus |
| Interview.HandleInterview | supabase/functions/prompt-architect/index.ts:220-320 | nothing missing gives "ready" with the record, whatever the gateway says; otherwise a failed gateway gives 429, 402 or "AI gateway error", a reply without a message throws a TypeError, and a reply gives the questions with the missing list, the dictionary `collected` as received and the progress text (the focus is not a response field) |
| Interview.ReadyIffComplete | supabase/functions/prompt-architect/index.ts:229-319 | the reply is "ready" exactly when every required field is filled |
| Interview.QuestionsListMissingFields | supabase/functions/prompt-architect/index.ts:300-309 | questions come with one to ten missing fields, each a required field that is not filled, and echo the dictionary the client sent as `collected` |
| Retrieval.SearchTerms | supabase/functions/prompt-architect/index.ts:331 | the search terms are Goal, Audience and Output_Format (missing ones empty) joined by spaces and lower-cased, so they hold no upper-case ASCII letter |
| Retrieval.RunLength | supabase/functions/prompt-architect/index.ts:368 | the leading word of a string is a whitespace-free run that ends at whitespace or at the end |
| Retrieval.Words | supabase/functions/prompt-architect/index.ts:368 | `split(/\s+/)` with empty pieces dropped: every word is non-empty and whitespace-free |
| Retrieval.RunOfWord | supabase/functions/prompt-architect/index.ts:368 | a word followed by whitespace or the end is read as one run |
| Retrieval.WordsOfJoin | supabase/functions/prompt-architect/index.ts:368 | splitting words joined by single spaces gives the words back |
| Retrieval.WordsConcat | supabase/functions/prompt-architect/index.ts:368 | the words glued together are the input with its whitespace removed: splitting loses nothing but whitespace |
| Retrieval.LongWords | supabase/functions/prompt-architect/index.ts:368 | `filter(k => k.length > 3)`: exactly the words longer than three characters, each as often as it occurs |
| Retrieval.LongWordsAppend | supabase/functions/prompt-architect/index.ts:368 | the filter works piece by piece, so the kept words stay in their order |
| Retrieval.KeywordsAreLongLowercaseWords | supabase/functions/prompt-architect/index.ts:331-368 | every keyword is a word of the search terms, whitespace-free and longer than three characters |
| Retrieval.WordsOfLowercase | supabase/functions/prompt-architect/index.ts:331-368 | the words of lower-cased text are lower-case |
| Retrieval.LongWordsKeepsLong | supabase/functions/prompt-architect/index.ts:368 | a list of words that are all long passes the filter whole |
| Retrieval.AsSparse | supabase/functions/prompt-architect/index.ts:378 | a keyword row keeps its id, text and source name and gets similarity 0.6 |
| Retrieval.SparseRows | supabase/functions/prompt-architect/index.ts:378 | every keyword row is re-tagged in place, one for one |
| Retrieval.Ids | supabase/functions/prompt-architect/index.ts:392-397 | the ids of the rows, one per row, in order |
| Retrieval.LastWith | supabase/functions/prompt-architect/index.ts:392 | the dense row `Map.set` leaves for an id is present exactly when some row has that id |
| Retrieval.FirstWith | supabase/functions/prompt-architect/index.ts:397 | the keyword row that creates an entry is present exactly when some row has that id |
| Retrieval.Entry | supabase/functions/prompt-architect/index.ts:391-399 | a candidate's entry is about its own id |
| Retrieval.FusedEntries | supabase/functions/prompt-architect/index.ts:401 | `Array.from(candidateMap.values())`: one entry per distinct id in first-insertion order, each the entry fusion gives it |
| Retrieval.DistinctSnoc | supabase/functions/prompt-architect/index.ts:391-399 | a `Map` keeps the position of an id already present and appends a new one |
| Retrieval.DenseStep | supabase/functions/prompt-architect/index.ts:392 | one dense row stores the row scored 0.65·similarity under its id, and a new id joins the insertion order |
| Retrieval.SparseStep | supabase/functions/prompt-architect/index.ts:393-399 | one keyword row adds 0.35·similarity to an existing entry or inserts a new one scored that much, and a new id joins the insertion order |
| Retrieval.SparseStart | supabase/functions/prompt-architect/index.ts:392-393 | the map after the dense pass is the fused map for no keyword rows |
| Retrieval.ValuesInOrder | supabase/functions/prompt-architect/index.ts:401 | the map's values listed in insertion order |
| Retrieval.FusedValues | supabase/functions/prompt-architect/index.ts:391-401 | the values of the map the two loops build, in insertion order, are exactly the fused entries |
| Retrieval.Fuse | supabase/functions/prompt-architect/index.ts:391-401 | the two `forEach` loops over a `Map` followed by the sort give the fused entries sorted by score, highest first |
| Retrieval.SparseSumAbsent | supabase/functions/prompt-architect/index.ts:395 | an id with no keyword row gets no keyword share |
| Retrieval.SparseSumCounts | supabase/functions/prompt-architect/index.ts:378-395 | with every keyword row at similarity 0.6, an id's keyword share is 0.21 per occurrence |
| Retrieval.DenseOnlyScore | supabase/functions/prompt-architect/index.ts:392 | a candidate found only by the vector search scores 0.65 times the similarity of its last dense row |
| Retrieval.SparseOnlyScore | supabase/functions/prompt-architect/index.ts:397 | a candidate found once, and only by the keyword search, scores 0.21 |
| Retrieval.BothScore | supabase/functions/prompt-architect/index.ts:392-395 | a candidate found by both searches, once by keywords, scores 0.65·similarity + 0.21 and keeps its dense tag |
| Retrieval.CountedIsPresent | supabase/functions/prompt-architect/index.ts:394 | an id that occurs is in the list of ids |
| Retrieval.FusedCoversIds | supabase/functions/prompt-architect/index.ts:391-401 | the fused list is sorted by score and has an entry for an id exactly when either search returned it |
| Retrieval.Boost | supabase/functions/prompt-architect/index.ts:411-413 | the boost is +0.1 exactly for a source name containing "best_practices" and +0.05 exactly for one containing "prompt", case-insensitively, so one of 0, 0.05, 0.1, 0.15 |
| Retrieval.WithRerankScores | supabase/functions/prompt-architect/index.ts:410-414 | every candidate gets rerank score = fused score + boost, in place |
| Retrieval.Rerank | supabase/functions/prompt-architect/index.ts:410-415 | exactly min(5, n) candidates, sorted by rerank score, as a sub-multiset of the boosted candidates, each a fused candidate with its own boosted score |
| Retrieval.RerankKeepsTheBest | supabase/functions/prompt-architect/index.ts:415 | no candidate that is cut off outranks one that is kept |
| Retrieval.BestPracticesBoostFlipsOrder | supabase/functions/prompt-architect/index.ts:391-415 | two dense chunks tied at 0.585: the boost moves the "best_practices" one to 0.685 and ahead of the other |
| Retrieval.FuseTwoDense | supabase/functions/prompt-architect/index.ts:392 | two dense chunks at similarity 0.9 fuse to 0.585 each, in order |
| Retrieval.SortTwo | supabase/functions/prompt-architect/index.ts:401 | the sort keeps tied entries in their order |
| Retrieval.RerankTwo | supabase/functions/prompt-architect/index.ts:410-415 | the rerank of two tied candidates puts the boosted one first |
| Retrieval.BestPracticesBoost | supabase/functions/prompt-architect/index.ts:412-413 | a "best_practices" source without "prompt" earns exactly +0.1 |
| Retrieval.AtLeastMinScore | supabase/functions/prompt-architect/index.ts:386 | `gte('total_score', 0.75)`: exactly the records scoring at least 0.75, a sub-multiset of the input |
| Retrieval.HistoricalTop | supabase/functions/prompt-architect/index.ts:382-388 | at most three records, each scoring at least 0.75, sorted by score, highest first, as a sub-multiset of the qualifying records |
| Retrieval.HistoricalTopKeepsTheBest | supabase/functions/prompt-architect/index.ts:386-388 | no qualifying record that is cut scores higher than a record that is kept |
| Retrieval.HistoricalTopCount | supabase/functions/prompt-architect/index.ts:386-388 | fewer than three records are returned only when fewer than three qualify |
| Evidence.ChunkCitation | supabase/functions/prompt-architect/index.ts:427-430 | a chunk's citation has URI "kb://chunk/" + id, version "1.0", the first eight characters of the id as hash and the chunk's source name |
| Evidence.RecordCitation | supabase/functions/prompt-architect/index.ts:437-440 | a historical record's citation has URI "prompt://record/" + id, version "1.0", the eight-character hash and source "historical_prompt" |
| Evidence.UriRoundTrip | supabase/functions/prompt-architect/index.ts:427-437 | each citation URI gives back the id it was built from under its own scheme, and never parses under the other scheme |
| Evidence.CitationJsonRoundTrip | supabase/functions/prompt-architect/index.ts:430-440 | a citation pushed as a JSON object reads back as the same citation |
| Evidence.Label | supabase/functions/prompt-architect/index.ts:429 | `source_name \|\| 'KB'`: the source name when it is a non-empty string, "KB" otherwise |
| Evidence.Excerpt | supabase/functions/prompt-architect/index.ts:439 | the first 400 characters of the prompt followed by "...", so min(400, length) + 3 characters |
| Evidence.KbCitations | supabase/functions/prompt-architect/index.ts:426-431 | one citation per reranked chunk, in rank order |
| Evidence.KbEntries | supabase/functions/prompt-architect/index.ts:426-431 | evidence entry i is numbered i + 1 and carries chunk i's label and text |
| Evidence.RecordCitations | supabase/functions/prompt-architect/index.ts:436-441 | one citation per historical record, in order |
| Evidence.HistoricalEntries | supabase/functions/prompt-architect/index.ts:436-441 | entry i is "Example i + 1" with the excerpt of record i |
| Evidence.Assemble | supabase/functions/prompt-architect/index.ts:421-442 | the two `forEach` loops: they succeed exactly when every historical record has a synthesized prompt (otherwise `substring` on null throws a TypeError), and then give the chunk entries and citations followed by the historical ones |
| Evidence.CitationsInOrder | supabase/functions/prompt-architect/index.ts:421-442 | the citation list has one entry per chunk and then one per record, each naming its own id, all with version "1.0" and a hash of at most eight characters |
| Evidence.Spread | supabase/functions/prompt-architect/index.ts:528 | `[...x]` on a truthy value: an array gives its items, a string the one-character string of each of its characters, in order, anything else throws a TypeError |
| Evidence.CitationsJson | supabase/functions/prompt-architect/index.ts:528 | the assembled citations as JSON objects, one for one |
| Evidence.MergeCitations | supabase/functions/prompt-architect/index.ts:528 | falsy citations become the assembled list; an array gets the assembled list appended; a string becomes its one-character strings followed by the assembled list; any other truthy value throws; no other property changes |
| Evidence.MergedCitationsReadBack | supabase/functions/prompt-architect/index.ts:528 | after the merge the model's own citations come first, unchanged, and each appended element reads back as the assembled citation at that position |
| Evidence.MergeTwiceRepeats | supabase/functions/prompt-architect/index.ts:528-613 | merging twice, as a refinement that copies the citations back does, lists the assembled citations twice |
| Extraction.TextOf | supabase/functions/prompt-architect/index.ts:510 | `content.match` has a text to search only when the content is a string |
| Extraction.FirstIndexOf | supabase/functions/prompt-architect/index.ts:510 | the position of the first occurrence of a character, absent exactly when the character does not occur |
| Extraction.LastIndexOf | supabase/functions/prompt-architect/index.ts:510 | the position of the last occurrence of a character, absent exactly when the character does not occur |
| Extraction.GreedyMatch | supabase/functions/prompt-architect/index.ts:510 | `/\{[\s\S]*\}/`: no match exactly when no `{` comes before a `}`; otherwise a substring from the first `{` to the last `}` |
| Extraction.GreedyFindsObject | supabase/functions/prompt-architect/index.ts:510-512 | an object text surrounded by text with no `{` before it and no `}` after it is found exactly |
| Extraction.FirstIndexIs | supabase/functions/prompt-architect/index.ts:510 | the first occurrence is the one with no occurrence before it |
| Extraction.LastIndexIs | supabase/functions/prompt-architect/index.ts:510 | the last occurrence is the one with no occurrence after it |
| Extraction.NoPairAfterLast | supabase/functions/prompt-architect/index.ts:510 | when the first `{` is not before the last `}` no `{` precedes any `}` |
| Extraction.CloseAfter | supabase/functions/prompt-architect/index.ts:559 | the first `}` after a position, or none |
| Extraction.FlatAt | supabase/functions/prompt-architect/index.ts:559 | the match of `\{[^}]+\}` starting at a position: `{`, at least one character that is not `}`, and the closing `}` |
| Extraction.FlatMatchFrom | supabase/functions/prompt-architect/index.ts:559 | the leftmost position from which a match can start, and that match |
| Extraction.FlatMatch | supabase/functions/prompt-architect/index.ts:559 | `/\{[^}]+\}/`: a match exists exactly when some position starts one; it is the leftmost, at least three characters, with no `}` inside |
| Extraction.FlatFindsObject | supabase/functions/prompt-architect/index.ts:559-561 | a brace-free object with no `{` before it is found exactly |
| Extraction.CloseAfterIs | supabase/functions/prompt-architect/index.ts:559 | the first `}` after a position is the one with none before it |
| Extraction.FlatMatchSkips | supabase/functions/prompt-architect/index.ts:559 | the search moves past positions where no match can start |
| Extraction.NestedObjectCutShort | supabase/functions/prompt-architect/index.ts:559 | grading JSON with a nested object is cut at the inner `}`, so the match is shorter than the text |
| Extraction.EmptyObjectNotMatched | supabase/functions/prompt-architect/index.ts:559 | "{}" is never matched |
| Extraction.ParseArtifact | supabase/functions/prompt-architect/index.ts:508-525 | a non-string content, a text without a brace pair or an unparseable match gives the fallback artifact; otherwise the parsed object |
| Extraction.NoBracesGivesFallback | supabase/functions/prompt-architect/index.ts:510-525 | a synthesis text without `{` yields the fallback, whatever the parser does |
| Extraction.FallbackShape | supabase/functions/prompt-architect/index.ts:518-524 | the fallback has the five top-level keys and the eight metaprompt keys in order, empty citations and confidence 0.5 |
| Scoring.WeightsFormDistribution | supabase/functions/prompt-architect/index.ts:17-23 | the five rubric weights are non-negative and add up to one |
| Scoring.DimValues | supabase/functions/prompt-architect/index.ts:568-573 | the five operands of the composite, in rubric order |
| Scoring.Reals | supabase/functions/prompt-architect/index.ts:568-573 | the numeric values of five numeric operands |
| Scoring.Composite | supabase/functions/prompt-architect/index.ts:568-573 | the composite is NaN exactly when some dimension is missing or not a number |
| Scoring.CompositeIsWeightedSum | supabase/functions/prompt-architect/index.ts:568-573 | with five numeric dimensions the composite, summed left to right, equals the weighted sum against the rubric weights |
| Scoring.CompositeOfNumbers | supabase/functions/prompt-architect/index.ts:568-573 | five numeric dimensions a..e give 0.30a + 0.25b + 0.20c + 0.15d + 0.10e |
| Scoring.WeightedSumOfFive | supabase/functions/prompt-architect/index.ts:568-573 | the weighted sum of five terms written out; the association the source uses does not change the value |
| Scoring.WeightedSumBounds | supabase/functions/prompt-architect/index.ts:568-573 | values within [lo, hi] and non-negative weights give a weighted sum within lo·Σw and hi·Σw |
| Scoring.BoundStep | supabase/functions/prompt-architect/index.ts:568-573 | adding one term keeps the bound |
| Scoring.MulMonotone | supabase/functions/prompt-architect/index.ts:568-573 | multiplying by a non-negative weight keeps the order |
| Scoring.CompositeBetween | supabase/functions/prompt-architect/index.ts:568-573 | the composite lies between any lower and upper bound of the five dimensions |
| Scoring.WeightedSumMonotone | supabase/functions/prompt-architect/index.ts:568-573 | raising values never lowers a weighted sum with non-negative weights |
| Scoring.CompositeMonotone | supabase/functions/prompt-architect/index.ts:568-573 | raising any dimension never lowers the composite |
| Scoring.DefaultComposite | supabase/functions/prompt-architect/index.ts:555 | the default scores give the composite 0.8475 |
| Scoring.DefaultDims | supabase/functions/prompt-architect/index.ts:555 | the five default dimensions are 0.85, 0.85, 0.85, 0.80 and 0.90 |
| Scoring.DefaultLeadingDims | supabase/functions/prompt-architect/index.ts:555 | IntentAccuracy, TaskCompletion and PolicyAdherence default to 0.85 |
| Scoring.DefaultTrailingDims | supabase/functions/prompt-architect/index.ts:555 | ToneFit defaults to 0.80 and FormatCompliance to 0.90 |
| Scoring.LookupUnique | supabase/functions/prompt-architect/index.ts:555 | a key that occurs once is read at its member |
| Scoring.Gate | supabase/functions/prompt-architect/index.ts:582-667 | one refinement pass exactly for a composite in [0.60, 0.75); a low-confidence flag exactly below 0.60; shipping as is at 0.75 and above or for NaN |
| Scoring.ShipThresholdUnused | supabase/functions/prompt-architect/index.ts:15 | the `ship` threshold of 0.80 plays no part: a composite in [0.75, 0.80) is treated like one at 0.80 |
| Scoring.MissingDimensionShips | supabase/functions/prompt-architect/index.ts:568-582 | a grading object that lacks a dimension makes the composite NaN, and NaN ships unrefined |
| Scoring.WeakestOf | supabase/functions/prompt-architect/index.ts:600 | exactly the keys whose value is a number below 0.80, nothing when there is none |
| Scoring.WeakestDimensions | supabase/functions/prompt-architect/index.ts:600 | the weakest-dimension list is exactly the keys of the grading object whose value is a number below 0.80 |
| Scoring.WeakestIncludesConfidence | supabase/functions/prompt-architect/index.ts:600 | a low `confidence` is listed as a weak dimension although it is not in the rubric |
| Scoring.DefaultsHaveNoWeakest | supabase/functions/prompt-architect/index.ts:555-600 | no default score is weak: ToneFit's 0.80 is not below 0.80 |
| Scoring.ParseGrades | supabase/functions/prompt-architect/index.ts:554-565 | a missing message, a non-string content, a text without a flat object or an unparseable one keeps the defaults; otherwise the parsed object |
| Scoring.FlatGradesAreUsed | supabase/functions/prompt-architect/index.ts:557-562 | a grading text with a brace-free object after a brace-free preamble is graded by that object |
| Scoring.FailedGradingShips | supabase/functions/prompt-architect/index.ts:554-582 | when grading fails in any way the composite is 0.8475 and the artifact ships unrefined |
| Pipeline.RegradeScores | supabase/functions/prompt-architect/index.ts:635-640 | re-grade scores exist exactly when the reply has a message with string content, that content has a flat match and the parser accepts it; whenever the three hold, the scores are what the parser returns for the match |
| Pipeline.GateResult | supabase/functions/prompt-architect/index.ts:579-667 | the gate throws, with a TypeError, exactly when a refinement is due and the refinement reply has no message |
| Pipeline.RefinementGate | supabase/functions/prompt-architect/index.ts:579-667 | the gate as the handler runs it gives the gate's result, and sends at most one refinement request, exactly when the composite is in [0.60, 0.75) |
| Pipeline.NoRefinementOutsideBand | supabase/functions/prompt-architect/index.ts:582-667 | outside [0.60, 0.75), and for NaN, the artifact and scores pass through unchanged with the composite added |
| Pipeline.ScoresReplacedOnlyOnUplift | supabase/functions/prompt-architect/index.ts:641-655 | the final scores are either the original ones, or the parsed re-grade with its own composite at least 0.02 above the original |
| Pipeline.SmallUpliftReverts | supabase/functions/prompt-architect/index.ts:649-655 | a parsed re-grade with less than 0.02 uplift, or a NaN composite, discards the refined artifact and keeps the original scores |
| Pipeline.UpliftKeepsRefinement | supabase/functions/prompt-architect/index.ts:649-651 | a parsed re-grade whose composite is at least 0.02 above the original keeps the refined artifact and replaces the scores with the re-graded ones and their composite |
| Pipeline.UpliftScenario | supabase/functions/prompt-architect/index.ts:649-655 | from 0.70, a re-grade of 0.705 keeps the original artifact and scores, and one of 0.72 keeps the refined artifact and the new scores |
| Pipeline.UnparsedRegradeKeepsRefined | supabase/functions/prompt-architect/index.ts:609-659 | a re-grade without a parseable object keeps the refined artifact together with the original scores |
| Pipeline.RefinedCitationsMerged | supabase/functions/prompt-architect/index.ts:611-613 | a refined object with array citations gets the assembled citations appended to its own |
| Pipeline.RefinedMergeFailureKeepsParsed | supabase/functions/prompt-architect/index.ts:609-617 | a refined object whose citations are a number makes the merge throw inside the try block, and the parsed object is kept unmerged |
| Pipeline.SparseInput | supabase/functions/prompt-architect/index.ts:368-379 | the keyword search takes part only when there is a keyword, its rows re-tagged with similarity 0.6 |
| Pipeline.Respond | supabase/functions/prompt-architect/index.ts:706-724 | the response's confidence is the artifact's when truthy, else the grading's; `id` is the stored row's id and `collected` echoes the validated fields |
| Pipeline.Retrieve | supabase/functions/prompt-architect/index.ts:329-415 | steps 1 and 2 give the reranked fusion of the dense and keyword rows and the best three historical records |
| Pipeline.SynthesizeAndStore | supabase/functions/prompt-architect/index.ts:483-724 | steps 4 to 9 give the outcome of the synthesis function |
| Pipeline.HandleGenerate | supabase/functions/prompt-architect/index.ts:323-725 | the handler gives the outcome of the generation function |
| Pipeline.SynthesizeStatuses | supabase/functions/prompt-architect/index.ts:483-724 | the synthesis ends with 200, a passed-through 429 or 402, or 500; none of its failures is a client error |
| Pipeline.GradeAndStoreStatuses | supabase/functions/prompt-architect/index.ts:554-724 | grading, the gate and the store end with 200 or 500 |
| Pipeline.GenerateStatuses | supabase/functions/prompt-architect/index.ts:323-725 | the whole generation ends with 200, 402, 429 or 500 |
| Pipeline.TypeErrorIs500 | supabase/functions/prompt-architect/index.ts:196-216 | a TypeError reaches the client as a 500 |
| Pipeline.GenerateUnfolds | supabase/functions/prompt-architect/index.ts:323-442 | generation is the synthesis on the assembled citations, or a TypeError when a historical record has no synthesized prompt |
| Pipeline.ReferencesBounded | supabase/functions/prompt-architect/index.ts:718-721 | a response never reports more than five chunks and three historical prompts |
| Pipeline.GenerateEchoesRequest | supabase/functions/prompt-architect/index.ts:714-715 | a successful generation returns the stored row's id and echoes the validated fields it was given |
| Pipeline.SynthesizedCounts | supabase/functions/prompt-architect/index.ts:718-721 | the reported counts are the numbers of chunks and records used, and the id and the echoed fields are the stored row's and the request's |
| Pipeline.GradeAndStoreCounts | supabase/functions/prompt-architect/index.ts:718-721 | the counts, the id and the echoed fields pass through grading and the store unchanged |
| Pipeline.FallbackSynthesis | supabase/functions/prompt-architect/index.ts:508-724 | a synthesis text without `{` and a failed grading give a 200 with the fallback: default scores with composite 0.8475, confidence 0.5 and exactly the assembled citations |
| Pipeline.FallbackResponse | supabase/functions/prompt-architect/index.ts:706-724 | a merged fallback artifact responds with its citations, confidence 0.5 and the default scores |
| Pipeline.FallbackMerged | supabase/functions/prompt-architect/index.ts:518-528 | merging into the fallback gives exactly the assembled citations and keeps confidence 0.5 |
| Pipeline.DefaultGradesShip | supabase/functions/prompt-architect/index.ts:554-724 | default scores never trigger a refinement: the artifact is stored and returned as it is, with composite 0.8475 |
| Pipeline.HandleRequest | supabase/functions/prompt-architect/index.ts:155-195 | a failed authentication throws "Unauthorized"; a `collected` that is not an object throws "Collected must be object"; an invalid member throws validateString's error for the first such member; otherwise the request is dispatched on `action` with the validated dictionary |
| Pipeline.DispatchFailureStatuses | supabase/functions/prompt-architect/index.ts:181-195 | generate or get_history without a project_id is a 400, an unknown action a 500, a failed history query a 500, and a conversation the user does not own a 403 |
| Pipeline.OwnedGenerateStatuses | supabase/functions/prompt-architect/index.ts:184-189 | a generate request for an owned conversation reaches the pipeline and ends with 200, 402, 429 or 500 |
| Pipeline.LiftedStatus | supabase/functions/prompt-architect/index.ts:189 | wrapping the generation outcome as a response keeps its status |
| KnowledgeBase.ChunksStep | src/components/KnowledgeBase.tsx:21-22 | one loop step pushes `text.slice(i, i + size)`, clamped to the length, and continues with the rest |
| KnowledgeBase.ChunkText | src/components/KnowledgeBase.tsx:19-25 | the loop's chunks are the chunks of the text |
| KnowledgeBase.ChunksRebuildText | src/components/KnowledgeBase.tsx:19-25 | joining the chunks gives back the text exactly |
| KnowledgeBase.ChunkLengths | src/components/KnowledgeBase.tsx:19-25 | no chunk is empty or longer than the chunk size, and all but the last have exactly that size |
| KnowledgeBase.ChunkCount | src/components/KnowledgeBase.tsx:19-25 | the number of chunks is the length divided by the size, rounded up, and zero exactly for the empty text |
| KnowledgeBase.ChunkIsSlice | src/components/KnowledgeBase.tsx:21-22 | chunk j is the slice from j·size to (j+1)·size, clamped to the length |
| KnowledgeBase.ChunkAt | src/components/KnowledgeBase.tsx:21-22 | the same for one chunk j |
| KnowledgeBase.SliceOfRest | src/components/KnowledgeBase.tsx:21-22 | slice j - 1 of the text after the first chunk is slice j of the text |
| KnowledgeBase.Upload | src/components/KnowledgeBase.tsx:40-60 | the upload loop inserts exactly the rows of every file in order and shows exactly the progress trace of the files' chunk counts |
| KnowledgeBase.UploadFile | src/components/KnowledgeBase.tsx:45-59 | the inner loop inserts the rows of one file and shows its progress values |
| KnowledgeBase.FileRowsDescribeFile | src/components/KnowledgeBase.tsx:46-56 | a file's rows number the chunks 0 to n-1, all carry chunk total n, the file's name and the project, and their texts rebuild the file |
| KnowledgeBase.ProgressWithinFile | src/components/KnowledgeBase.tsx:58 | during file i of f the bar is above i/f and at most (i+1)/f of the way, reaching (i+1)/f at the file's last chunk |
| KnowledgeBase.TraceAtMost | src/components/KnowledgeBase.tsx:40-59 | every value shown for the first i files is at most i/f of the bar |
| KnowledgeBase.FileProgressIncreasing | src/components/KnowledgeBase.tsx:45-59 | within one file the bar moves forward at every chunk, staying above i/f and at most 100 |
| KnowledgeBase.IncreasingConcat | src/components/KnowledgeBase.tsx:40-59 | two increasing runs separated by a bound form one increasing run |
| KnowledgeBase.ProgressIncreasing | src/components/KnowledgeBase.tsx:40-59 | over the whole upload the bar only moves forward and stays within (0, 100] |
| KnowledgeBase.UploadEndsAtHundred | src/components/KnowledgeBase.tsx:58 | after the last chunk of the last file the bar shows 100 |
| ConversationView.RequiredFieldsHaveBounds | src/components/ConversationView.tsx:37-45 | every required field has a schema, and only they do |
| ConversationView.Check | src/components/ConversationView.tsx:39-45 | `z.string().min(a).max(b)`: passes exactly for lengths in [a, b]; otherwise the first issue is the minimum's message when too short, the maximum's when too long |
| ConversationView.BuildErrors | src/components/ConversationView.tsx:122-131 | the `forEach` over the required fields builds the error record |
| ConversationView.ErrorsFromSnoc | src/components/ConversationView.tsx:123-130 | one iteration adds the field's first issue when it fails and leaves the record alone otherwise |
| ConversationView.ErrorsExact | src/components/ConversationView.tsx:122-131 | the error record holds exactly the visited fields that fail, each with its first issue's message |
| ConversationView.AbsentFieldFails | src/components/ConversationView.tsx:125 | an absent field is read as "" and always fails, since every minimum is at least 2 |
| ConversationView.ProceedIffAllInBounds | src/components/ConversationView.tsx:133-141 | submission goes on exactly when every required field's length is within its bounds |
| ConversationView.Title | src/components/ConversationView.tsx:146 | a goal of at most 60 characters is the title; a longer one is cut to 60 characters and "..." added |
| ConversationView.SplitLines | src/components/ConversationView.tsx:163 | splitting on line breaks gives at least one line |
| ConversationView.SplitAfterLine | src/components/ConversationView.tsx:163 | text without a line break joins the first line of what follows |
| ConversationView.SplitJoin | src/components/ConversationView.tsx:163 | splitting lines joined by line breaks gives the lines back |
| ConversationView.InitialMessageJoins | src/components/ConversationView.tsx:163 | the first message is the five labelled lines joined by line breaks |
| ConversationView.InitialMessageLines | src/components/ConversationView.tsx:163 | when no value holds a line break, the first message has exactly five lines, "label: value" for each required field in order |
| ConversationView.UpdateField | src/components/ConversationView.tsx:299-306 | the update adds the field to the record and removes it from the errors |
| ConversationView.UpdateChangesOnlyField | src/components/ConversationView.tsx:299-306 | only the named field changes and only its error is removed, whether or not the new value is valid |
| ConversationView.UpdateFixesField | src/components/ConversationView.tsx:299-306 | a field set to a value within its bounds passes a later validation, and the result for every other field is unchanged |
| ConversationView.RequiredSetIsFields | src/components/ConversationView.tsx:37 | the five required fields are distinct |
| ConversationView.CompletionSteps | src/components/ConversationView.tsx:308-310 | each filled field is worth 20 points, and the percentage lies in [0, 100] |
| ConversationView.CompletionFullIffAllFilled | src/components/ConversationView.tsx:308-310 | the percentage is 100 exactly when all five required fields are non-empty |
| ConversationView.EnabledMeansFilled | src/components/ConversationView.tsx:449-451 | the submit button is enabled exactly when not loading and every required field has some text |
| ConversationView.EnabledButInvalid | src/components/ConversationView.tsx:449-451 | an enabled button does not mean the form validates: a five-character goal fills the field but fails its minimum |
| ConversationView.ShortGoalFails | src/components/ConversationView.tsx:40 | a goal shorter than ten characters stops the submission |
| InterviewWizard.ExtractedFromExact | src/components/InterviewWizard.tsx:67-84 | after any prefix of the assignments, exactly the visited fields the message fills hold the whole message, and every other key keeps its value or its absence |
| InterviewWizard.ExtractedInOrder | src/components/InterviewWizard.tsx:70-84 | the extraction is the five conditional assignments in the source's order: Goal, Audience, Inputs, Output_Format, Constraints |
| InterviewWizard.TriggeredGoal | src/components/InterviewWizard.tsx:70 | Goal is triggered exactly by "goal", "want" or "need" in the lower-cased message |
| InterviewWizard.TriggeredAudience | src/components/InterviewWizard.tsx:73 | Audience is triggered exactly by "audience" or "for " (with the space) |
| InterviewWizard.TriggeredInputs | src/components/InterviewWizard.tsx:76 | Inputs is triggered exactly by "input" |
| InterviewWizard.TriggeredOutputFormat | src/components/InterviewWizard.tsx:79 | Output_Format is triggered exactly by "format", "json" or "markdown" |
| InterviewWizard.TriggeredConstraints | src/components/InterviewWizard.tsx:82 | Constraints is triggered exactly by "constraint" |
| InterviewWizard.Extract | src/components/InterviewWizard.tsx:67-84 | the copy of the record and its five assignments, each guarded by the ORIGINAL record's field, compute the extracted record |
| InterviewWizard.ExtractionKeepsFilledFields | src/components/InterviewWizard.tsx:70-84 | a field that already has a value is never overwritten |
| InterviewWizard.ExtractionFillsWithMessage | src/components/InterviewWizard.tsx:71-83 | a field the message fills receives the message as typed, not its lower-cased form |
| InterviewWizard.ExtractionKeepsOtherKeys | src/components/InterviewWizard.tsx:67 | keys other than the five required fields keep their value or their absence |
| InterviewWizard.ExtractionChangesOnlyFilled | src/components/InterviewWizard.tsx:67-84 | a field the message does not fill keeps its value or its absence |
| InterviewWizard.OneMessageFillsSeveral | src/components/InterviewWizard.tsx:70-80 | "I need JSON" fills both the goal and the output format of an empty record |
| InterviewWizard.WizardRecordNeverReady | src/components/InterviewWizard.tsx:67-96 | the wizard's record never makes the interview action answer ready, since the server also requires Style, which extraction never sets |
| InterviewWizard.ShowGenerateIff | src/components/InterviewWizard.tsx:54-56 | the Generate button shows exactly when the server said ready or every required field has a non-empty value |
| InterviewWizard.Wizard.constructor | src/components/InterviewWizard.tsx:21-25 | the wizard starts with no message, no conversation, an empty record and no ready flag |
| InterviewWizard.Wizard.HandleInterview | src/components/InterviewWizard.tsx:58-106 | a blank message changes nothing and calls nothing; otherwise the message is cleared and appended as the user's turn, the extracted record is sent, a questions reply appends its questions and replaces the record with the server's, a ready reply appends its message and sets the flag, and any other reply or a failed call leaves the extracted record |
| PromptDisplay.GetScoreColor | src/components/PromptDisplay.tsx:87-92 | green from 0.9, blue from 0.75, yellow from 0.6, orange below, each bound inclusive, and orange for a score that is not a number |
| PromptDisplay.GetScoreBadgeVariant | src/components/PromptDisplay.tsx:94-98 | default from 0.9, secondary from 0.75, outline below |
| PromptDisplay.TiersMonotone | src/components/PromptDisplay.tsx:87-98 | a higher score never gets a lower colour or badge |
| PromptDisplay.BadgeFollowsColor | src/components/PromptDisplay.tsx:87-98 | the badge tier is the colour tier less one, floored at the outline |
| PromptDisplay.ScorePercentage | src/components/PromptDisplay.tsx:83-85 | the percentage is not a number exactly when the total is not |
| PromptDisplay.MissingTotalIsZero | src/components/PromptDisplay.tsx:83-85 | without scores, or without a truthy total, the overall score is 0% |
| PromptDisplay.PercentageBounds | src/components/PromptDisplay.tsx:83-85 | a total in [0, 1] gives a percentage in [0, 100] within half a point of 100 times the total |
| PromptDisplay.GridEntries | src/components/PromptDisplay.tsx:119 | no tile is for the key "total" |
| PromptDisplay.GridOf | src/components/PromptDisplay.tsx:119 | the same over any list of keys the scores hold |
| PromptDisplay.GridCoversScores | src/components/PromptDisplay.tsx:119-126 | every score key other than "total" has a tile carrying the value a read of that key gives |
| PromptDisplay.SpaceUnderscores | src/components/PromptDisplay.tsx:121 | the label keeps its length, holds no underscore and keeps every other character in place |
| PromptDisplay.TileTiers | src/components/PromptDisplay.tsx:119-126 | a dimension scored 0.9 or more shows the default badge and at least 90%; one below 0.75 the outline badge and at most 75% |
| PromptDisplay.ReferenceCounts | src/components/PromptDisplay.tsx:133-137 | the references line shows exactly when references is truthy, with `historical_count` and `kb_count`, each 0 when falsy |
| PromptDisplay.ServerReferencesShowZero | src/components/PromptDisplay.tsx:133-137 | references shaped as the generation response sends them (`kb_chunks`, `historical_prompts`) always read 0 and 0 |
| PromptDisplay.ExportText | src/components/PromptDisplay.tsx:31-53 | copy and download export nothing exactly when both `final_prompt` and `prompt` are falsy |
| PromptDisplay.ServerResponseNotExported | src/components/PromptDisplay.tsx:31-53 | an object with the generation response's keys gives copy and download nothing to export |
| PromptDisplay.ExportedTextIsPresent | src/components/PromptDisplay.tsx:34 | what is exported is truthy: the final prompt when truthy, otherwise the prompt |
| PromptHistory.DefaultTo | src/components/PromptHistory.tsx:70-71 | `x || d`: the value when truthy, the default otherwise |
| PromptHistory.SelectPrompt | src/components/PromptHistory.tsx:63-72 | the dispatched object's final prompt and prompt are the same value |
| PromptHistory.SelectDefaults | src/components/PromptHistory.tsx:64-71 | without metadata, or with metadata lacking them, the datasets are [] and the usage instructions '' |
| PromptHistory.SelectedPromptExports | src/components/PromptHistory.tsx:63-75 | the object dispatched on selection exports `synthesized_prompt \|\| prompt_text` when read by the display's export function, and nothing when both are falsy; the display itself never receives it |
| PromptHistory.DataJsonReads | src/components/PromptHistory.tsx:66-72 | the display reads back the final prompt and the prompt the object was built with |
| PromptHistory.LookupAppend | src/components/PromptHistory.tsx:66-72 | a read of concatenated members finds a key in the later part first |
| PromptHistory.StoredRecordBadge | src/components/PromptHistory.tsx:110-111 | a record without a truthy `scores.total` falls back to a non-zero `total_score` c, and shows the default badge exactly when 100·c is at least 84.5 |
| PromptHistory.UnscoredRecordShowsZero | src/components/PromptHistory.tsx:110-141 | a record with neither a truthy total nor a truthy `total_score` shows 0% and the secondary badge |
| PromptHistory.Preview | src/components/PromptHistory.tsx:130 | a string prompt shows its first 60 characters (all of it when shorter) and then "..."; a prompt that is not a string has no preview |
| PromptHistory.ShortPromptStillEllipsized | src/components/PromptHistory.tsx:130 | a prompt of at most 60 characters still gets "..." |
| PromptHistory.FeaturesBadge | src/components/PromptHistory.tsx:145-148 | the features badge shows a positive count, and never when features is falsy |
| PromptHistory.FeaturesCountKeys | src/components/PromptHistory.tsx:145-148 | a features object with n > 0 distinct keys shows n |
| PromptHistory.EmptyFeaturesHidden | src/components/PromptHistory.tsx:145-148 | an empty features object shows no badge |

## Left out

- Network and database I/O are not modelled; their results are parameters. This covers the embedding call, the AI-gateway chat calls, the vector RPC, the keyword and history queries, the inserts and JWT authentication.
- `JSON.parse` and `JSON.stringify` are foreign. Parsing is an uninterpreted parameter. Request bodies that are not JSON, or not an object, are not modelled.
- Date.now and the latency metrics are not modelled, because the clock is nondeterministic; the same applies to `uploaded_at` in the knowledge-base rows.
- IEEE-754 doubles are modelled as `real`. Boundary comparisons that doubles round differently, such as 0.70 + 0.02, may differ.
- The evidence entries leave out the scores they print with `toFixed(2)`: rendering a double to two decimals is formatting the model does not inspect.
- Json.ToNumber does not model JavaScript's coercion of strings and arrays to numbers; it treats them as NaN.
- Json.Distinct keeps keys in first-use order and does not model the move of integer-like keys to the front that `Object.keys` and `Object.entries` make. Two places keep integer-like keys in creation order where the source lists them first:
  - the score grid, `PromptDisplay.GridEntries` (`Object.entries`, PromptDisplay.tsx:119);
  - the weakest-dimension list, `Scoring.WeakestDimensions` (`Object.entries`, index.ts:600).

  The contracts of both are stated as sets, and these hold whatever the order. The features count (`PromptHistory.FeaturesBadge`) does not depend on order. For the fusion, `Distinct` is exact, because a `Map` iterates in real insertion order. Validation sorts the result into `for...in` order (`Validation.ForInKeys`).
- The gateway replies are read with `response.json()` (index.ts:554, 606 and 635, and in the synthesis call). A body that is not JSON throws a SyntaxError outside any inner try, which reaches the client as 500 "An error occurred". It is not modelled: each reply is a parsed parameter.
- PromptDisplay.GridEntries gives no tiles for array or string `scores`, where `Object.entries` would list the index entries; the server always sends an object.
- Common.ToLower lowers ASCII letters only; JavaScript's full Unicode case mapping is not modelled.
- Strings are sequences of characters, not of UTF-16 code units, so lengths of text outside the Basic Multilingual Plane differ from JavaScript's.
- The system prompt, the interview questions and the text of the user prompt sent for synthesis are content, not logic, and are not modelled.
- The OPTIONS/CORS preflight and the response headers are not modelled.
- The dense retrieval parameters (match threshold, match count) and the embedding model live in the calls left out above.
- React rendering, hooks, toasts, the clipboard, Blob downloads, localStorage, window events and scrolling are not modelled.
- Zod internals are not modelled; only the length bounds and the first issue's message are.
- PromptDisplay ignores the detail of the event PromptHistory dispatches and rereads localStorage; the model relates the dispatched object to the display's functions directly.
- KnowledgeBase.Upload: the reset of the progress bar, the outcome of each insert and failures of `file.text()` are not modelled; every insert is taken to complete.
- InterviewWizard.Wizard.HandleInterview: the server's reply is a parameter, and the loading flag and the error toast are not modelled.
- The wizard's handleGenerate call and the conversation view's creation of the conversation and its messages are database and function calls, and are not modelled beyond the title and the first message.
- ConversationList.tsx and the page component only fetch and render; they are not part of this model.
- Concurrency: every stage is a sequential await, so there is none to model.
