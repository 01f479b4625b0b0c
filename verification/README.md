# kafka-repo, verified model of the core

kafka-repo is a small web service with a browser client. It answers
questions about a Kafka inventory: which applications own which topics and
which consumer groups read them. This project models its decision and
formatting logic in Dafny and proves properties of it:

- **The retrieval-augmented answer pipeline** (`post_ai_search`,
  src/apis.rs). The user's query goes to a completion model, which splits
  it into questions and non-questions. Each item is searched in every
  configured semantic index. The top three hits are rendered into a growing
  prompt, together with an application-information lookup for the
  applications those hits name. The final prompt goes back to the
  completion model.
  - The two services are function-valued oracles returning a result or an
    error.
  - Each loop of the source is a method proved equal to a fold over its
    input. Early `?` exits are errors the fold propagates.
  - The helpers `split_questions_and_non_questions`,
    `sort_ai_search_result_by_score_get_n_top` and `build_prompt` are pure
    functions (modules `Decomposition`, `Ranking`, `RagPrompt`).
- **Login** (`login`, src/apis.rs): the decision over the user table, with
  the credential check and the JWT encoder as oracles (module
  `Authentication`).
- **The bearer-token gate** (`JwtMiddlewareMiddleware::call`,
  src/jwt_middleware.rs), with the JWT decoder as an oracle (module
  `JwtGate`).
- **Inventory listings** (src/data_service.rs). A data frame is a
  rectangular table of string cells. The group-by, filter and sort queries
  are functions on it. `map_single_result` is a loop proved against
  a specification function (module `DataService`).
- **The Mermaid flowchart exporter** (`export_mm_file`, src/export.rs),
  a loop that builds the text line by line (module `Export`).
- **Client scripts**:
  - the token expiry check over `localStorage`, a class with a
    `map` field (module `TokenHandler`);
  - the searchable drop-down's highlight and focus state machine, a class
    whose fields are the widget's state (module `Dropdown`);
  - the data table's sort, direction toggle and renumbering, also a class
    (module `TableSort`).

Shared modules:
- `Wrappers`: `Option` and `Result`.
- `Text`: substring search, splitting, Rust's `lines()`, trimming, joining,
  ASCII case mapping and the lexicographic order of strings.
- `StableSort`: a stable insertion sort over a total preorder, with
  its sortedness, permutation and stability proved.
- `Entities`: the request, hit, caption and completion records.

## Model

| member | source | states |
|---|---|---|
| Decomposition.SplitQuestionsAndNonQuestions | src/apis.rs:143-169 | unless the text splits into exactly two parts at "**Non-Questions:**", both lists are empty; otherwise the non-questions are the parsed second part |
| Decomposition.MissingHeaderGivesNothing | src/apis.rs:145-150 | without the "**Non-Questions:**" marker both lists are empty |
| Decomposition.RepeatedHeaderGivesNothing | src/apis.rs:145-150 | with the marker present twice both lists are empty |
| Decomposition.MissingQuestionsHeader | src/apis.rs:150-165 | without "**Questions:**" in the first part there are no questions, but the non-questions are still parsed |
| Decomposition.QuestionsAndNonQuestionsRead | src/apis.rs:143-169 | for any answer `pre` + "**Questions:**" + `q` + "**Non-Questions:**" + `s` whose headers first occur where written, and with no further non-questions header in `s`: the questions are parsed from `q` up to any further questions header (all of `q` when there is none), the non-questions from `s` |
| Decomposition.WellFormedAnswer | src/apis.rs:143-169 | in the layout the decomposition prompt asks for (each header followed by a line break), any questions text free of both headers and any non-questions text free of the non-questions header are parsed as they stand |
| Decomposition.HeaderAcrossJoin | src/apis.rs:145-150 | a header can arise across the join of the questions header and the questions text: with questions text "Non-Questions:**x" and non-questions text "y", neither holding a header, both lists are empty although "y" alone would give an item |
| Decomposition.ParseItems | src/apis.rs:153-157 | at most one item per line |
| Decomposition.ParseItemsAppend | src/apis.rs:153-157 | line parsing works line by line, so items keep the input order |
| Decomposition.ParseItemsSingle | src/apis.rs:161-165 | a blank line yields nothing; any other line yields exactly its cleaned text |
| Decomposition.CleanLineKeepsOtherOrdinals | src/apis.rs:156 | only the literal "1." is stripped: "2. x" is unchanged |
| Decomposition.CleanLineIndentedMarker | src/apis.rs:164 | the marker is stripped before trimming, so " 1. x" becomes "1. x" |
| Decomposition.CleanLineNumbered | src/apis.rs:156 | "1. " followed by trimmed text gives back that text |
| Decomposition.CleanLineRepeatedMarker | src/apis.rs:164 | a repeated leading "1." is stripped in full |
| Decomposition.OneItemSection | src/apis.rs:161-165 | a section holding one numbered line parses to that one item |
| Decomposition.OneQuestionOneStatement | src/apis.rs:143-169 | an answer with one numbered question and one numbered statement, neither holding a header, gives exactly ([question], [statement]) |
| Ranking.ScoreFirstIsTotalPreorder | src/apis.rs:425-428 | "higher score first", with a missing score read as 0.0, is a total preorder |
| Ranking.ByScore | src/apis.rs:425-428 | the sort is a permutation and is non-increasing by score |
| Ranking.TopN | src/apis.rs:424-431 | the result has min(n, len) hits, is non-increasing by score and is drawn from the input |
| Ranking.TopNKeepsBest | src/apis.rs:430 | every kept hit scores at least as high as every dropped hit |
| Ranking.TopNKeepsAllWhenFew | src/apis.rs:430 | with at most n hits, all of them are kept |
| Ranking.TopNStable | src/apis.rs:425-428 | hits with equal scores keep their relative input order |
| RagPrompt.BuildPromptReadBack | src/apis.rs:137-142 | the final prompt is the fixed context label, the context, the questions label, the query and a newline, each readable back at its position |
| RagPrompt.SplitPromptReadBack | src/apis.rs:189-192 | the decomposition prompt holds the query verbatim between the fixed head and tail |
| RagPrompt.Filters | src/apis.rs:227-236 | one filter for each present field of the request |
| RagPrompt.CombinedQueryEndsWithQuestion | src/apis.rs:237-244 | the search query is the filters joined by " and ", then " and " and the question, or just the question when there are no filters |
| RagPrompt.CombinedQueryWithoutFilters | src/apis.rs:237-244 | with no filters the search query is the question |
| RagPrompt.CombinedQueryAllFilters | src/apis.rs:227-244 | with all three filters the fields appear in the fixed order App_owner, Topic_name, Consumer_app |
| RagPrompt.RenderAnswersNamesEvery | src/apis.rs:257-267 | every search answer appears as "Answer: t\n", a missing text as "" |
| RagPrompt.RenderCaption | src/apis.rs:277-298 | a caption renders as "Summary: text\n" exactly when both its text and its highlights are non-empty, and as "" otherwise |
| RagPrompt.SkipLeadingEmpty | src/apis.rs:301 | only leading empty renderings are dropped; the result is a suffix that starts with a non-empty one |
| RagPrompt.SkipLeadingEmptyKeeps | src/apis.rs:301 | every non-empty rendering survives the skip |
| RagPrompt.CaptionReachesHitSummary | src/apis.rs:277-306 | every non-empty caption rendering appears in its hit's summary |
| RagPrompt.HitSummaryReachesSummaries | src/apis.rs:274-310 | every non-empty hit summary appears in the joined summaries |
| RagPrompt.EntitySetMembers | src/apis.rs:313-325 | the entity set is exactly the consumer-app and app-owner values of the hits |
| RagPrompt.EnrichmentQueryNamesEvery | src/apis.rs:328-330 | the enrichment query names every collected application |
| RagPrompt.AppInfoLinesPlain | src/apis.rs:356-364 | each of the six labelled application lines is a single line when its field has no newline |
| RagPrompt.AppInfoReadsBack | src/apis.rs:353-367 | the application block reads back as its six labelled lines, a missing field as "" |
| RagPipeline.ConfigCalls | src/apis.rs:248-341 | each semantic configuration issues one or two searches |
| RagPipeline.QuestionStep | src/apis.rs:213-215 | "Question: q\n" is appended before any retrieval text for q |
| RagPipeline.ChoiceStep | src/apis.rs:204-385 | the text of each decomposition choice ends with "\n\n" |
| RagPipeline.AiSearch | src/apis.rs:180-422 | no query gives the fixed "provide query message" error; a failed decomposition passes its error on; a decomposition without choices gives "Action is empty"; a failed gathering of the context passes its error on; a failed final completion passes its error on and one without choices gives "Open AI Completion result is empty"; success is the completion of the final prompt built over the gathered context, and carries choices |
| RagPipeline.EnrichmentOnlyWithEntities | src/apis.rs:327-341 | the second search is issued exactly when the top hits name an application, against the fixed index, semantic configuration and fields, with a query naming every application |
| RagPipeline.ConfigFailsOnlyOnSearchError | src/apis.rs:248-255 | a configuration step fails exactly when its last search fails, and with that search's error |
| RagPipeline.ConfigFragmentOrder | src/apis.rs:257-371 | per configuration the answers come first and the summaries last |
| RagPipeline.EveryQuestionLineAppears | src/apis.rs:210-215 | every question of the work list appears as "Question: q\n" in the prompt |
| RagPipeline.ChoicesWithoutItems | src/apis.rs:204-208 | choices with no questions and no non-questions each contribute only "\n\n" |
| RagPipeline.ChoiceQuestionLinesAppear | src/apis.rs:204-215 | every question and non-question of every decomposition choice appears as "Question: q\n" in the gathered context |
| RagPipeline.StepLineSurvives | src/apis.rs:204-215 | a line that a choice's step writes, whatever text precedes it, is still in the context once every later choice has been appended |
| RagPipeline.SuccessAnswersEveryQuestion | src/apis.rs:204-422 | a successful answer is the completion of the final prompt, and that prompt names every question and non-question of every choice |
| RagPipeline.ChoicesIssued | src/apis.rs:204-386 | gathering the context fails exactly when the last search it issued fails, and with that search's error; every earlier search succeeded |
| RagPipeline.PipelineErrors | src/apis.rs:204-416 | once the decomposition has succeeded, the pipeline fails only with the error of the last search issued (any search, not only the first), with the final completion's error, or with "Open AI Completion result is empty" |
| RagPipeline.FirstSearchFailureAborts | src/apis.rs:248-255 | a failure of the first search is the pipeline's result |
| RagPipeline.AnswerWithoutItems | src/apis.rs:409-416 | with nothing retrieved, the answer is the completion of the final prompt, or "Open AI Completion result is empty" when it has no choices |
| RagPipeline.BuildCombinedQuery | src/apis.rs:227-244 | the loop that pushes filters builds the combined search query |
| RagPipeline.CollectApps | src/apis.rs:313-325 | the map built from the top hits has exactly the entity set as keys, each mapped to itself |
| RagPipeline.AppendForHits | src/apis.rs:348-369 | the enrichment step agrees with its specification function and the searches it issues |
| RagPipeline.AppendForConfig | src/apis.rs:248-372 | the per-configuration step agrees with its specification function and its searches |
| RagPipeline.AppendForIndex | src/apis.rs:223-373 | the loop over an index's semantic configurations is the fold over them, stopping at the first error |
| RagPipeline.AppendForQuestion | src/apis.rs:210-375 | the loop over indexes for one question is that question's step |
| RagPipeline.AppendForChoice | src/apis.rs:204-386 | the loop over the work list of one choice is that choice's step |
| RagPipeline.AppendChoices | src/apis.rs:204-386 | the loop over the decomposition choices is the fold over them, stopping at the first error |
| RagPipeline.PostAiSearch | src/apis.rs:180-422 | the whole handler computes the pipeline's specification |
| Authentication.Login | src/apis.rs:22-74 | no user table gives "Failed to login"; a check error is passed on; a false check gives "Invalid username or password"; a failed encode gives "Failed to encode jwt token"; success comes exactly with a true check and a successful encode, and returns that token as "Bearer" with expires_in 3600 |
| Authentication.IssuedTokenLifetime | src/apis.rs:36-62 | the issued token encodes the user, now + expires_in, the fixed issuer and the fixed audience |
| JwtGate.JwtMiddleware.Call | src/jwt_middleware.rs:61-96 | paths outside "/api/v1" pass unchanged; inside, a request passes exactly when it has a text header starting with "Bearer " whose remainder decodes with the gate's secret, and it then carries the decoded claims |
| JwtGate.PrefixIsRawText | src/jwt_middleware.rs:66 | "/api/v10" is gated too |
| JwtGate.SchemeIsCaseSensitive | src/jwt_middleware.rs:70 | "bearer " is rejected |
| JwtGate.LoginTokenPassesGate | src/jwt_middleware.rs:68-83 | a token issued by login, sent as "Bearer token", passes with the login's claims |
| DataService.ColumnIndex | src/data_service.rs:28 | a column is found exactly when it exists, at its position |
| DataService.MapSingleResult | src/data_service.rs:86-96 | the loop appends the idx-th cell text of each row, in row order, to the prior contents |
| DataService.ColumnTextOfFullRows | src/data_service.rs:88-94 | one string per row, the rendered cell with every '"' removed |
| DataService.UnquoteStr | src/data_service.rs:92 | a string cell without quotes reads back unchanged |
| DataService.DistinctAscending | src/data_service.rs:28-33 | grouping keys are strictly ascending and are exactly the column's values |
| DataService.AscendingUnique | src/data_service.rs:28-33 | only one strictly ascending list has a given set of values |
| DataService.GroupCount | src/data_service.rs:26-33 | one row per distinct key, in ascending key order, with the key first |
| DataService.RowsWhere | src/data_service.rs:46 | the filter keeps exactly the matching rows |
| DataService.TopicRows | src/data_service.rs:44-50 | the matching rows, sorted by the topic column |
| DataService.AppList | src/data_service.rs:23-40 | fails with "Failed to group by app owner" exactly when a named column is missing |
| DataService.TopicList | src/data_service.rs:41-57 | fails with "Failed to group by topic name" exactly when a named column is missing |
| DataService.ConsumerList | src/data_service.rs:59-84 | fails with "Failed to group by consumer group" exactly when the column is missing |
| DataService.GetAppList | src/data_service.rs:23-40 | the listing procedure computes the app list |
| DataService.GetTopicList | src/data_service.rs:41-57 | the listing procedure computes the topic list |
| DataService.GetConsumerList | src/data_service.rs:59-84 | the listing procedure computes the consumer list |
| DataService.GroupKeysReadBack | src/data_service.rs:26-38 | extracting column 0 from the grouped table gives the distinct keys in order |
| DataService.AppListDistinctSorted | src/data_service.rs:26-38 | the app list holds each Project value exactly once, strictly ascending |
| DataService.ConsumerListDistinctSorted | src/data_service.rs:63-82 | the consumer list holds each Project value exactly once, strictly ascending |
| DataService.TopicListSorted | src/data_service.rs:44-55 | the topic list is the topics of the rows for the application, duplicates kept, in ascending order |
| Export.ItemsLines | src/export.rs:30-53 | three lines per item |
| Export.ExportMmFile | src/export.rs:18-57 | the export always succeeds with the flowchart text, whatever the path |
| Export.EmptyDataSet | src/export.rs:25-28 | an empty data set gives exactly "flowchart LR;\n" |
| Export.ItemLinesInPlace | src/export.rs:30-52 | item k's three lines sit at lines 3k+1 to 3k+3, in input order |
| Export.FlowchartLines | src/export.rs:25-52 | the output reads back as the header and three lines per item, 1 + 3n lines in all |
| Export.FlowchartShape | src/export.rs:27-52 | the output begins with "flowchart LR;\n" and ends with a newline |
| TokenHandler.AfterCheck | statics/token-handler.js:5-13 | an expired token and its expiry are removed; nothing else changes |
| TokenHandler.CheckTokenValidity | statics/token-handler.js:1-16 | the answer is "token and expiry present and not past"; the store afterwards is as specified |
| TokenHandler.CheckIdempotent | statics/token-handler.js:5-13 | a second check gives the same answer and changes nothing more |
| TokenHandler.ValidAtExpiryInstant | statics/token-handler.js:9 | at the expiry instant itself the token is still valid |
| TokenHandler.ExpiryIsMonotone | statics/token-handler.js:9-13 | once expired, a token is invalid at every later time |
| Dropdown.HighlightMatch | statics/searchable-dropdown.js:30-39 | without a match the text is unchanged; otherwise the first match, in its original case and of the filter's length, is wrapped in the highlight span |
| Dropdown.UnhighlightRoundTrip | statics/searchable-dropdown.js:31-36 | removing the inserted markup gives back the text |
| Dropdown.EmptyFilterHighlight | statics/searchable-dropdown.js:31-36 | an empty filter inserts an empty span at position 0 |
| Dropdown.Moved | statics/searchable-dropdown.js:63-68 | with visible items the focus lands in range |
| Dropdown.ArrowKeysCycle | statics/searchable-dropdown.js:63-68 | Down wraps to 0 past the end; Up wraps to the last item below 0 |
| Dropdown.DownThenUp | statics/searchable-dropdown.js:63-68 | Down then Up returns to the same item |
| Dropdown.VisibleIndices | statics/searchable-dropdown.js:61 | the visible items, in document order |
| Dropdown.ExactlyFocusedSelected | statics/searchable-dropdown.js:84-87 | after a move exactly the focused visible item is selected |
| Dropdown.FirstIndex | statics/searchable-dropdown.js:99-104 | the first option with the value, or none exactly when no option has it |
| Dropdown.Dropdown.FilterFunction | statics/searchable-dropdown.js:4-28 | an item is shown exactly when its upper-cased text contains the upper-cased text of the input field, and is highlighted; the list stays open exactly when the filter is empty or an item is shown |
| Dropdown.Dropdown.AddActive | statics/searchable-dropdown.js:82-89 | the focus wraps into range and only the focused item is selected; with no visible items the call throws |
| Dropdown.Dropdown.RemoveActive | statics/searchable-dropdown.js:91-95 | every visible item loses the selection |
| Dropdown.Dropdown.CloseDropdown | statics/searchable-dropdown.js:53-57 | the list closes and the focus resets to -1 |
| Dropdown.Dropdown.UpdateSelectElement | statics/searchable-dropdown.js:97-105 | the first option with the value is selected, and the selection stays when none has it |
| Dropdown.Dropdown.SelectItem | statics/searchable-dropdown.js:41-46 | the input takes the item's text, the list closes and the matching option is selected |
| Dropdown.Dropdown.HandleKeyDown | statics/searchable-dropdown.js:59-80 | arrows move the focus; Enter selects only a focused existing item; Escape closes; other keys change nothing |
| TableSort.OrderIsTotalPreorder | statics/table.js:7-18 | the comparator on lower-cased cells is a total preorder in either direction |
| TableSort.SortRows | statics/table.js:7-18 | the rows are permuted into ascending or descending order of the column |
| TableSort.Renumbered | statics/table.js:27-29 | the k-th row's first cell reads k+1 and the other cells are unchanged |
| TableSort.DataTable.SortTable | statics/table.js:1-30 | the body becomes the sorted rows renumbered, and the direction flag is negated |
| TableSort.DataTable.Renumber | statics/table.js:27-29 | the loop renumbers the body |
| TableSort.DataTable.RenderTable | statics/table.js:32-74 | empty data throws after the "#" header; otherwise the header is "#" and the capitalised keys of the first record, header i sorts column i+1, and row k is numbered k+1 |
| TableSort.SortTableOrdersRows | statics/table.js:4-29 | after a sort the rows are numbered, ordered in the chosen direction, and hold the same data |
| TableSort.SortTableStable | statics/table.js:7-18 | rows with equal keys keep their order |
| TableSort.DirectionAlternates | statics/table.js:5-24 | each sort flips the direction; an absent flag counts as descending |
| TableSort.HeaderSortsItsColumn | statics/table.js:52-70 | header i's sort column holds that field's value in every rendered row, and rows are numbered from 1 |
| StableSort.SortStable | src/apis.rs:425 | the sort keeps equivalent elements in their input order |
| Text.Lines | src/apis.rs:154 | the lines of a text, split at '\n' with a trailing '\r' removed |
| Text.TrimEmptyIffBlank | src/apis.rs:155 | a line trims to "" exactly when it is all whitespace |
| Text.TrimStartMatchesStrips | src/apis.rs:156 | every leading copy of the pattern is removed |

## Left out

- The network, blob storage, the HTTP framework and `async`. The semantic search and the chat completion are oracles in `RagPipeline.Services`. Only the shapes that src/apis.rs uses are modelled. azure_ai_apis.rs and entities.rs are from a different revision and disagree with those shapes, so the model follows src/apis.rs.
- `post_login`, the relational `search` join and `FlowChartItem::to_print_string` are not defined in the modelled files. They are oracles (`check`, `toPrint`), or are not modelled.
- JWT signing and verification, including expiry and audience checks, belong to `jsonwebtoken`. They are the oracles `encode` and `decode`. The clock (`chrono::Utc::now`, `new Date().getTime()`) is an input `now`.
- Authentication.Login: `expiration as usize` is not modelled as a machine-width cast; the expiry is an unbounded integer.
- Ranking.ByScore: scores are reals, so there is no NaN. The panic of `partial_cmp().unwrap()` on NaN is out of scope.
- Ranking.ByScore: the source uses Rust's stable `sort_by`. The model uses an insertion sort with the same stability.
- RagPipeline.AiSearch: the HashMap key order of the enrichment query is an oracle (`keyOrder`). `RagPipeline.EnrichmentOnlyWithEntities` only requires it to list every key once, so the query's order is left open.
- RagPipeline.AiSearch: the panics from `unwrap` on absent semantics or an absent message (src/apis.rs:205, 223) are preconditions: every configured index has semantics, and every decomposition choice carries a message.
- RagPipeline.AiSearch: temperature, top_p and the `debug!` logging are not modelled.
- DataService: the polars engine is not modelled. A data frame is a table of string cells. Missing columns are the only query failure modelled. Null values, non-string column types and other polars errors are not.
- DataService.TopicListSorted: polars does not promise a stable sort. The model's sort is stable. The property proved (a permutation of the matching topics, in ascending order) does not depend on that. The topic list reads column index 1 as the source does, so the lemma requires "Topic_Name_Kafka" to be that column.
- DataService.AppListDistinctSorted: the read-back requires cells without '"', since `map_single_result` removes every quote character.
- DataService.ConsumerListDistinctSorted: the read-back requires "Project" cells without '"', since `map_single_result` removes every quote character; with quotes, two cells such as `a"` and `a` both come out as `a`, so the list need not be distinct nor equal the column's values.
- DataService.TopicListSorted: the read-back also requires topic cells without '"', for the same reason; with quotes, the list is the column's values with their quotes removed.
- DataService: the input table is a value, so its immutability needs no statement.
- Export.ExportMmFile: the path argument is unused, as in the source. No I/O happens, so the `IoError` case is never produced.
- TokenHandler: JavaScript's `>` converts the stored expiry with ToNumber. This is the oracle `toNumber`, with `None` standing for NaN.
- Dropdown: the DOM is not modelled: `showDropdown`'s class change, `scrollIntoView`, `preventDefault` and the `textContent`/`innerText` fallback. The source re-reads each item's `textContent` on every `filterFunction` call, after earlier calls have rewritten its `innerHTML`; the model keeps the item texts fixed (`Dropdown.Dropdown.texts`), which matches the source only while the texts hold no '<' (the condition `UnhighlightRoundTrip` requires) and no text that HTML parsing would read as a character reference such as `&amp;` (not modelled). The document click listener (statics/searchable-dropdown.js:108-114) is `CloseDropdown`.
- Dropdown.HighlightMatch: `toUpperCase` is modelled for ASCII only. The round trip (`UnhighlightRoundTrip`) requires the text to contain no '<'.
- TableSort.DataTable.RenderTable: the header caption upper-cases its first character with `toUpperCase`, which is modelled for ASCII only.
- TableSort.SortRows: JavaScript's string `<` compares UTF-16 code units. The model compares code points. The two differ only for characters outside the Basic Multilingual Plane. `toLowerCase` is modelled for ASCII only.
- TableSort.DataTable.SortTable: every row must have the sorted column. A missing cell makes the source throw a TypeError, which is not modelled.
- statics/script.js, statics/marked-config.js, statics/mermaid-config.js, src/main.rs, src/data_state.rs, src/data_utils.rs and src/open_ai_search.rs are not part of this model. They hold rendering, configuration, wiring and I/O.
