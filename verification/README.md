# Hacker News relevance search, modelled in Dafny

The system answers a user's bio with relevant Hacker News stories. The
FastAPI server (`src/main.py`) has two endpoints:

- `/search` runs one vector search for the whole bio.
- `/search_llm` streams an LLM's query expansion back to the client and
  cuts it into sub-queries, one per line. It searches each sub-query with
  an equal share of `k`, and ends the stream with `done`.

The Streamlit client (`src/app.py`, with `StdOutHandler` and
`interleave_lists` from `src/utils.py`) does the following:

- reads the server-sent event stream line by line and dispatches each
  decoded object;
- shows the LLM text with newlines as `<br>`;
- merges the per-query result lists round-robin and counts the entries the
  merge dropped;
- pages the merged list twenty stories at a time.

The model is a set of pure functions over immutable data, one module per
concern:

- `Text`: Python's `str.strip()`, `split("\n")` and `"".join`.
- `Extractor`: the sub-query extraction inside `generate_results`.
- `Readiness`: `wait_for_db_ready`.
- `Server`: `serialize_docs`, `search_stories`, the event stream of
  `generate_results`, and the two endpoints with their 400 guard; a
  `Request` without `k` asks for 500 stories.
- `Handler`: `on_new_chunk`.
- `Interleave`: `interleave_lists`.
- `Client`: the stream loop of `handle_llm_search`,
  `handle_standard_search` and the bio guard.
- `Pagination`: pages and navigation.
- `Pipeline`: the server and client put together.

Everything the code takes from outside becomes a parameter:

- the LLM's token stream;
- the database's readiness answers and its similarity search;
- `json.dumps` and `json.loads`.

The end-to-end lemmas depend on one assumption about JSON: each event
serialises to one line, and that line decodes back to the same object.

Three behaviours of the code are modelled as written:

- The sub-query searches run one after the other, in extraction order. They
  do not run concurrently, and their events are not sent in completion
  order.
- The client does no identity deduplication. The number it reports as
  "duplicate results were removed" is the number of `null` entries the
  merge drops. For lists coming from this server that number is always 0.
- A failure of the LLM stream itself is not caught by `generate_results`.
  The model, like the code, has no error event for it (see "## Left out").

## Model

| member | source | states |
|---|---|---|
| Text.StripSpec | src/main.py:148 | `strip()` gives the empty string exactly for all-whitespace text (Python's `isspace` set); otherwise the result starts and ends with a non-whitespace character |
| Text.StripIsSlice | src/main.py:153 | what `strip()` keeps is a contiguous slice of the text, with only whitespace removed before and after it |
| Text.SplitPiecesAreLines | src/main.py:146-147 | no piece of `split("\n")` holds a newline |
| Text.JoinSplit | src/main.py:147 | joining the pieces of `split("\n")` with newlines gives the text back |
| Text.SplitJoin | src/main.py:147 | splitting newline-free pieces joined by newlines gives the pieces back |
| Text.SplitAppend | src/main.py:143-147 | appending text to a buffer leaves its complete lines unchanged and only extends its pending last line |
| Extractor.Drain | src/main.py:146-150 | the `while "\n" in buffer` loop leaves exactly the text after the last newline and appends the stripped, non-blank complete lines in order |
| Extractor.Feed | src/main.py:138-150 | one token step: afterwards the buffer holds no newline and earlier sub-queries are kept as a prefix; an empty token leaves a drained state (no newline in the buffer) unchanged |
| Extractor.Flush | src/main.py:152-155 | at the end of the stream a non-blank leftover buffer, stripped, becomes the last sub-query |
| Extractor.FeedAllSpec | src/main.py:138-150 | after any run of tokens the buffer is the pending text of everything fed and the sub-queries are its complete lines, stripped, blanks dropped |
| Extractor.ExtractIsSplit | src/main.py:134-155 | the extracted sub-queries are exactly the lines of the concatenated LLM answer, stripped, with blank lines dropped |
| Extractor.TokenisationIndependent | src/main.py:138-155 | two token streams with the same concatenation give the same sub-queries, however the text is cut into tokens |
| Extractor.ExtractedQueriesWellFormed | src/main.py:148-149 | every sub-query is non-empty, newline-free and stripped |
| Readiness.WaitForDbReady | src/main.py:81-86 | ready exactly when one of the first `timeout` polls answers ready; it polls at most `timeout` times (none when `timeout <= 0`), stops right after the first ready answer, and polls all `timeout` times otherwise |
| Server.SerializeDocs | src/main.py:77-78 | one story per document, in order, with the document's text as title and its `url`, or `""` when it has none |
| Server.SearchStories | src/main.py:89-94 | no ready answer within 30 polls gives an empty result; otherwise the serialised documents of the similarity search, or the search's error |
| Server.KPerQuery | src/main.py:160 | `max(1, k // n)`: at least 1; when `k >= n` it is the largest share with `kpq * n <= k`; when `k < n` it is 1 |
| Server.SearchEvent | src/main.py:163-168 | a successful search gives a `results` event with its stories and query; a failed one gives an `error` event whose message starts with `DB error on <query>` |
| Server.ChunkEventsAreChunks | src/main.py:139-142 | every event sent while the answer streams is a chunk event with a non-empty text |
| Server.ChunkEventsOne | src/main.py:138-142 | a single token is sent as one chunk event carrying exactly that token, or not at all when it is empty |
| Server.ChunkEventsAppend | src/main.py:138-142 | the events of a token run are those of its parts in turn; with ChunkEventsOne, each non-empty token is its own chunk event, in order, and nothing else is sent |
| Server.ChunksAreTheAnswer | src/main.py:138-143 | the chunk events' texts, concatenated, are the whole LLM answer: no token is lost, reordered or duplicated |
| Server.SearchEventsAt | src/main.py:161-168 | the j-th search event is the event of the j-th sub-query's outcome |
| Server.GenerateResultsShape | src/main.py:138-171 | the stream is the chunks, then one event per sub-query in extraction order with the shared budget, then a single `done`, which is the only `done` and the last event |
| Server.NoSubQueriesNoSearch | src/main.py:159 | an answer without sub-queries gives only the chunks and `done`, with no search |
| Server.Search | src/main.py:98-107 | `/search` answers 400 `Missing query` exactly for an empty query; otherwise 200 with the stories of one search, or the search's exception escapes |
| Server.SearchLlm | src/main.py:175-185 | `/search_llm` answers 400 `Missing query` exactly for an empty query, and otherwise streams `generate_results` on the LLM's tokens |
| Handler.BrNoNewline | src/utils.py:49 | `replace("\n", "<br>")` leaves no newline, and leaves newline-free text as it is |
| Handler.BrAppend | src/utils.py:49 | the replacement distributes over concatenation, so it does not depend on where chunks are cut |
| Handler.OnNewChunk | src/utils.py:35-49 | an empty chunk changes nothing; otherwise the first-token flag is cleared and the chunk, with newlines as `<br>`, is appended to the text |
| Handler.OnChunksShowsText | src/utils.py:35-49 | after any series of chunks the text is the whole concatenation with newlines as `<br>`; the handler still waits for a first token exactly when all chunks were empty |
| Interleave.InterleaveAt | src/utils.py:183-185 | every non-`None` element at index r of list i appears in the merge, at position `Pos(i, r)` |
| Interleave.InterleaveFrom | src/utils.py:183-185 | every element of the merge is the non-`None` element at index r of some list i, at position `Pos(i, r)`: the merge holds nothing else |
| Interleave.PosOrder | src/utils.py:184-185 | positions are strictly increasing in round-robin order: index r before index r+1, list i before list i+1 within a round; so the merge is a permutation of the non-`None` elements and keeps each list's order |
| Interleave.InterleaveLength | src/utils.py:184-185 | the merge is shorter than the lists together by exactly their number of `None` entries |
| Interleave.NoNonesNoLoss | src/utils.py:185 | the merge keeps every entry exactly when no list holds a `None` |
| Interleave.InterleaveOne | src/utils.py:184-185 | a single list merges to itself without its `None`s, element for element when it has none |
| Interleave.InterleaveLists | src/utils.py:180-186 | an empty argument, or one with a non-list element, comes back unchanged, and only those; otherwise the result is the round-robin merge |
| Client.Payload | src/app.py:98-99 | a line with the `data: ` prefix gives what follows it; any other line is taken whole |
| Client.Dispatch | src/app.py:105-117 | the key tests in priority order: `error` is reported, then `chunk` is shown, then `results` with `query` is collected, then `done` stops; any other object is invalid data |
| Client.Finish | src/app.py:119-123 | the final results are the round-robin merge of the collected lists, and the reported duplicates are exactly the `None`s the merge dropped (received total minus merged length) |
| Client.NoDuplicatesWithoutNulls | src/app.py:119-123 | no duplicates are reported exactly when no received list held a `null` |
| Client.SkippedLinesIgnored | src/app.py:95-103 | empty lines and lines that do not decode have no effect: the loop behaves as dispatching the decoded objects in order |
| Client.NothingAfterHalt | src/app.py:105-117 | once an object halts the loop (error, invalid data, `done`), the objects after it are never dispatched |
| Client.EndLikeDone | src/app.py:95-123 | a stream that ends without `done` finishes exactly as if `done` had come last: the collected lists are merged and the duplicates counted either way |
| Client.StreamEndsAtHalt | src/app.py:95-117 | on lines: whatever follows a line that halts the loop does not change the outcome |
| Client.HandleStandardSearch | src/app.py:126-142 | `/search`'s answer: a 200 with `results` becomes the result list as it is, with no duplicates; any other status is an error |
| Client.BioAccepted | src/app.py:41-43 | the client refuses a bio exactly when it is empty or only whitespace |
| Client.AcceptedBioIsStreamed | src/app.py:41-43 | a bio the client accepts always passes the server's empty-query guard and gets the event stream |
| Pagination.TotalPages | src/app.py:149 | `(total + 19) // 20` is the fewest pages of twenty that hold all results |
| Pagination.Slice | src/app.py:157 | Python's clamped slice `s[start:end]`: it holds `min(end, len) - start` elements when that is positive and none otherwise, and its j-th element is `s[start + j]` |
| Pagination.PageInRange | src/app.py:154-157 | a page between 1 and the page count holds 1 to 20 stories: the slice from `(page - 1) * 20` to `min(start + 20, total)` |
| Pagination.PageBeyondEnd | src/app.py:154-157 | a page past the last one shows no story |
| Pagination.PagesUpToArePrefix | src/app.py:154-157 | the first p pages together are the first `20 * p` results, or all of them, in order |
| Pagination.PagesCoverResults | src/app.py:148-157 | all pages together are exactly the results: none lost, none repeated |
| Pagination.Navigate | src/app.py:171-179 | Previous lowers the page by one exactly when it is past the first; Next raises it by one exactly when it is before the last; a page in range stays in range |
| Pagination.NavigationStaysInRange | src/app.py:171-179 | from a page in range, any sequence of presses stays within 1 and the page count |
| Pagination.StalePageAfterSearch | src/app.py:62-63 | as written: after a search the page is kept, so 10 new results viewed from page 3 give page 3 of 1, an empty page |
| Pagination.ResetPageShowsResults | src/app.py:62-63 | corrected: with the page reset to 1 by a search, a search that finds stories shows between 1 and 20 of them |
| Pipeline.LinesOfEncode | src/main.py:142 | framing round trip: the body of `data: <payload>\n\n` frames is read back (`aiter_lines`) as one `data:` line per event, each followed by a blank line, when no payload holds a newline |
| Pipeline.PayloadOfFrame | src/app.py:98-99 | the client takes back exactly the payload the server framed |
| Pipeline.DispatchRecoversEvent | src/app.py:105-117 | each server event is dispatched as its own kind: chunks shown, results collected under their query, errors reported, `done` stops; none is taken for invalid data |
| Pipeline.DecodeFrames | src/app.py:95-103 | decoding the frame lines gives exactly one object per event, in order; the blank separator lines are skipped |
| Pipeline.ChunksConsumed | src/app.py:108-109 | consuming the chunk events is feeding every token to `on_new_chunk` |
| Pipeline.FirstError | src/app.py:105-107 | the index of the first failed search, if any: all before it succeeded |
| Pipeline.CollectedAllOk | src/app.py:110-112 | when every search succeeds, the client collects one list per sub-query, holding that search's stories |
| Pipeline.SearchesConsumed | src/app.py:105-114 | the client collects every result list and then finishes at `done`, or stops with the first error's message |
| Pipeline.ConsumeGenerated | src/main.py:114-171 | on the events of `generate_results` the client ends with the merge of the per-query lists, no duplicates and the whole answer as text, or with the first failed sub-query's `DB error` |
| Pipeline.LlmSearchEndToEnd | src/app.py:85-123 | the whole `/search_llm` exchange for an accepted bio: all searches succeed ⇒ merged per-query results, 0 duplicates, the LLM answer with `<br>`; otherwise the first failure's message, whatever the later searches gave |
| Pipeline.StandardSearchEndToEnd | src/app.py:126-142 | the whole `/search` exchange for an accepted bio: the stories of the one search in the server's order, or status 500 when it fails |

## Left out

- User interface: Streamlit widgets, markdown rendering, spinners, the
  latency display and `on_new_results`'s status text are left out. They
  change no state the model follows.
- Timing: `asyncio.sleep(1)` between readiness polls is not modelled. The
  i-th poll's answer is a parameter.
- The LLM itself: the `Chain` class and the prompt are not part of this
  model. Their token stream is a parameter, and a failure of that stream is
  not caught by `generate_results`, so it ends the response without `done`.
- Weaviate: the client, `is_ready`, `asimilarity_search` and the lifespan
  setup are parameters. An exception raised by `is_ready` is not modelled,
  and the similarity search is deterministic in its query and `k`.
  Readiness is a function of the sub-query's text and the poll number, so
  two identical sub-queries see the same readiness answers, where in the
  code the answers depend on when each poll is made.
- The `/test` endpoint, which returns a constant greeting.
- Concurrency: FastAPI's and httpx's event loops are not modelled, and the
  searches run one after the other, as in the code.
- JSON: `json.dumps`/`json.loads` are parameters, related only by the round
  trip the end-to-end lemmas assume. Decoded values that are not objects
  are not modelled.
- Line endings: `aiter_lines` splits the way `str.splitlines` does, at
  `\n`, `\r`, `\r\n`, `\x0b`, `\x0c`, `\x1c`, `\x1d`, `\x1e`, `\x85`,
  `\u2028` and `\u2029`. The model splits at `\n` only, which is the only
  one the server sends between frames; `json.dumps` with its default
  `ensure_ascii` escapes every one of them inside a payload.
- Identity deduplication: there is none in the code, so the model has none.
  Client.Finish counts as duplicates only the `null` entries the merge
  drops.
- Interleave.PosOrder: the permutation property is stated as a bijection
  between the non-`None` entries and the merge's positions
  (InterleaveAt, InterleaveFrom, PosOrder, InterleaveLength), not as a
  multiset equation.
- Failure messages: an exception's text is the message the server sent,
  and the `Invalid data` and `Error <status>` texts are replaced by the
  failing object and the status.

## Findings

| source | as written | input that shows it | evidently intended | confidence | as-written member | corrected member |
|---|---|---|---|---|---|---|
| src/app.py:62-63 | a new search resets `results` and `duplicate_results` but keeps `current_page` | 45 results viewed on page 3, then a search finding 10 results: "Page 3 of 1" and no stories | a new search starts again from page 1 | medium, not executed | Pagination.StalePageAfterSearch | Pagination.ResetPageShowsResults |
