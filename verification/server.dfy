/** The FastAPI side (src/main.py and the `Request` model of src/utils.py):
    `serialize_docs`, `search_stories`, the event stream of
    `generate_results` and the two endpoints with their empty-query guard.
    The vector index, the similarity search and the LLM are parameters. */
module Server {
  import opened Wrappers
  import opened Text
  import opened Extractor
  import opened Readiness

  /** A document returned by the similarity search; `url` is the optional
      `url` entry of its metadata. */
  datatype Doc = Doc(pageContent: string, url: Option<string>)

  /** A serialized story as sent to the client: `{"title": ..., "url": ...}`. */
  datatype Story = Story(title: string, url: string)

  /** `metadata.get('url', '')`. */
  function UrlOrEmpty(url: Option<string>): (s: string)
  {
    match url
    case Some(u) => u
    case None => ""
  }

  /** `serialize_docs`: one story per document, in the same order; the title
      is the page content and a missing url becomes the empty string. */
  function SerializeDocs(docs: seq<Doc>): (stories: seq<Story>)
    ensures |stories| == |docs|
    ensures forall i :: 0 <= i < |docs| ==> stories[i].title == docs[i].pageContent
    ensures forall i :: 0 <= i < |docs| ==>
      (docs[i].url.Some? ==> stories[i].url == docs[i].url.value) &&
      (docs[i].url.None? ==> stories[i].url == "")
  {
    if |docs| == 0 then []
    else SerializeDocs(docs[..|docs| - 1]) + [Story(docs[|docs| - 1].pageContent, UrlOrEmpty(docs[|docs| - 1].url))]
  }

  /** What the server talks to:
      - `observe(q)(i)`: the answer of `client.is_ready()` on poll `i` while searching for `q`;
      - `similar(q, k)`: `db.asimilarity_search(q, k)`, either the documents or
        the text of the exception it raises. */
  datatype Backend = Backend(observe: string -> nat -> bool, similar: (string, int) -> Result<seq<Doc>>)

  /** `search_stories`: no results at all when the index does not become ready
      within the default timeout, otherwise the serialized search results; an
      exception of the search propagates as `Err`. */
  function SearchStories(backend: Backend, query: string, k: int): (r: Result<seq<Story>>)
    ensures !(exists i :: 0 <= i < DefaultTimeout && backend.observe(query)(i)) ==> r == Ok([])
    ensures (exists i :: 0 <= i < DefaultTimeout && backend.observe(query)(i)) ==>
      (backend.similar(query, k).Ok? ==> r == Ok(SerializeDocs(backend.similar(query, k).value))) &&
      (backend.similar(query, k).Err? ==> r == Err(backend.similar(query, k).error))
  {
    if !WaitForDbReady(backend.observe(query), DefaultTimeout).ready then Ok([])
    else
      match backend.similar(query, k)
      case Ok(docs) => Ok(SerializeDocs(docs))
      case Err(e) => Err(e)
  }

  /** One server-sent event of `generate_results`. */
  datatype Event =
    | Chunk(text: string)
    | Results(items: seq<Story>, query: string)
    | Error(message: string)
    | Done

  /** The `chunk` events: one per non-empty token, in order. */
  function ChunkEvents(tokens: seq<string>): (events: seq<Event>)
    ensures |events| <= |tokens|
  {
    if |tokens| == 0 then []
    else (if tokens[0] == [] then [] else [Chunk(tokens[0])]) + ChunkEvents(tokens[1..])
  }

  /** The text of a sequence of events: the concatenated texts of its
      `chunk` events, the others contributing nothing. */
  function StreamedText(events: seq<Event>): (text: string)
  {
    if |events| == 0 then ""
    else (if events[0].Chunk? then events[0].text else "") + StreamedText(events[1..])
  }

  /** `max(1, k // n)`; Python's `//` and Dafny's `/` agree for a positive divisor.
      Every sub-query gets at least one result, and when `k >= n` the
      sub-queries together ask for at most `k` and for fewer than `n` short of it. */
  function KPerQuery(k: int, n: nat): (kpq: int)
    requires n >= 1
    ensures kpq >= 1
    ensures k >= n ==> kpq * n <= k < (kpq + 1) * n
    ensures k < n ==> kpq == 1
  {
    var q := k / n;
    assert q * n <= k < (q + 1) * n;
    if q < 1 then 1 else q
  }

  /** The error text sent for a failed search. */
  function DbError(query: string, error: string): (message: string)
  {
    "DB error on " + query + ": " + error
  }

  /** The event a search produces: its results tagged with the sub-query, or
      the error message naming the sub-query. */
  function SearchEvent(query: string, outcome: Result<seq<Story>>): (e: Event)
    ensures outcome.Ok? <==> e.Results?
    ensures outcome.Ok? ==> e == Results(outcome.value, query)
    ensures outcome.Err? ==> e.Error? && StartsWith(e.message, "DB error on " + query)
  {
    match outcome
    case Ok(items) => Results(items, query)
    case Err(error) => Error(DbError(query, error))
  }

  /** The outcome of each sub-query's search, in order, every one with the
      same per-query budget `kpq`. */
  function Outcomes(subQueries: seq<string>, kpq: int, backend: Backend): (rs: seq<Result<seq<Story>>>)
    ensures |rs| == |subQueries|
  {
    seq(|subQueries|, j requires 0 <= j < |subQueries| => SearchStories(backend, subQueries[j], kpq))
  }

  /** One event per sub-query, in order; a failed search does not stop the others. */
  function SearchEvents(subQueries: seq<string>, outcomes: seq<Result<seq<Story>>>): (events: seq<Event>)
    requires |outcomes| == |subQueries|
    ensures |events| == |subQueries|
  {
    if |subQueries| == 0 then []
    else [SearchEvent(subQueries[0], outcomes[0])] + SearchEvents(subQueries[1..], outcomes[1..])
  }

  /** `generate_results`: the chunks as they stream, then (if the answer held
      any sub-query) one event per sub-query with `k` shared among them, then `done`. */
  function GenerateResults(tokens: seq<string>, k: int, backend: Backend): (events: seq<Event>)
  {
    var subQueries := ExtractSubQueries(tokens);
    var searches := if |subQueries| > 0 then SearchEvents(subQueries, Outcomes(subQueries, KPerQuery(k, |subQueries|), backend)) else [];
    ChunkEvents(tokens) + searches + [Done]
  }

  /** Every event of `ChunkEvents` is a `chunk` event with a non-empty text. */
  lemma {:induction false} ChunkEventsAreChunks(tokens: seq<string>)
    ensures forall i :: 0 <= i < |ChunkEvents(tokens)| ==>
      ChunkEvents(tokens)[i].Chunk? && ChunkEvents(tokens)[i].text != []
  {
    if |tokens| > 0 {
      ChunkEventsAreChunks(tokens[1..]);
    }
  }

  /** A single token becomes one `chunk` event carrying it, or none when it
      is empty. */
  lemma ChunkEventsOne(t: string)
    ensures ChunkEvents([t]) == if t == [] then [] else [Chunk(t)]
  {
    assert [t][1..] == [];
  }

  /** The events of two runs of tokens are those of each run in turn, so
      with `ChunkEventsOne` every non-empty token is sent as its own event,
      in order, and nothing else is. */
  lemma {:induction false} ChunkEventsAppend(a: seq<string>, b: seq<string>)
    ensures ChunkEvents(a + b) == ChunkEvents(a) + ChunkEvents(b)
  {
    if |a| == 0 {
      assert a + b == b;
    } else {
      assert (a + b)[0] == a[0];
      assert (a + b)[1..] == a[1..] + b;
      ChunkEventsAppend(a[1..], b);
    }
  }

  /** The chunks carry exactly the LLM's text: concatenated they give the
      whole answer back. */
  lemma {:induction false} ChunksAreTheAnswer(tokens: seq<string>)
    ensures StreamedText(ChunkEvents(tokens)) == Concat(tokens)
  {
    if |tokens| > 0 {
      ChunksAreTheAnswer(tokens[1..]);
      var head := if tokens[0] == [] then [] else [Chunk(tokens[0])];
      StreamedTextAppend(head, ChunkEvents(tokens[1..]));
    }
  }

  lemma {:induction false} StreamedTextAppend(a: seq<Event>, b: seq<Event>)
    ensures StreamedText(a + b) == StreamedText(a) + StreamedText(b)
  {
    if |a| > 0 {
      assert (a + b)[1..] == a[1..] + b;
      StreamedTextAppend(a[1..], b);
    } else {
      assert a + b == b;
    }
  }

  /** The search events: one per sub-query, each that search's outcome. */
  lemma {:induction false} SearchEventsAt(subQueries: seq<string>, outcomes: seq<Result<seq<Story>>>, j: nat)
    requires |outcomes| == |subQueries| && j < |subQueries|
    ensures SearchEvents(subQueries, outcomes)[j] == SearchEvent(subQueries[j], outcomes[j])
  {
    if j > 0 {
      SearchEventsAt(subQueries[1..], outcomes[1..], j - 1);
    }
  }

  /** The layout `chunks + searches + [done]` with no `done` among the first two. */
  lemma StreamLayout(chunks: seq<Event>, searches: seq<Event>, events: seq<Event>)
    requires events == chunks + searches + [Done]
    requires forall i :: 0 <= i < |chunks| ==> !chunks[i].Done?
    requires forall j :: 0 <= j < |searches| ==> !searches[j].Done?
    ensures |events| == |chunks| + |searches| + 1
    ensures events[..|chunks|] == chunks
    ensures forall j :: 0 <= j < |searches| ==> events[|chunks| + j] == searches[j]
    ensures events[|events| - 1] == Done
    ensures forall i :: 0 <= i < |events| - 1 ==> !events[i].Done?
  {
    forall i | 0 <= i < |events| - 1
      ensures !events[i].Done?
    {
      if i < |chunks| {
        assert events[i] == chunks[i];
      } else {
        assert events[i] == searches[i - |chunks|];
      }
    }
  }

  /** The shape of the stream: first the chunks, then exactly one event per
      extracted sub-query in extraction order (with the shared budget), and a
      single `done` at the very end. */
  lemma GenerateResultsShape(tokens: seq<string>, k: int, backend: Backend)
    ensures var chunks := ChunkEvents(tokens);
      var subQueries := ExtractSubQueries(tokens);
      var events := GenerateResults(tokens, k, backend);
      && |events| == |chunks| + |subQueries| + 1
      && events[..|chunks|] == chunks
      && (forall j :: 0 <= j < |subQueries| ==>
            events[|chunks| + j] == SearchEvent(subQueries[j], SearchStories(backend, subQueries[j], KPerQuery(k, |subQueries|))))
      && events[|events| - 1] == Done
      && (forall i :: 0 <= i < |events| - 1 ==> !events[i].Done?)
  {
    var chunks := ChunkEvents(tokens);
    var subQueries := ExtractSubQueries(tokens);
    var kpq := if |subQueries| > 0 then KPerQuery(k, |subQueries|) else 0;
    var outcomes := Outcomes(subQueries, kpq, backend);
    var searches := if |subQueries| > 0 then SearchEvents(subQueries, outcomes) else [];
    var events := GenerateResults(tokens, k, backend);
    assert events == chunks + searches + [Done];
    forall j | 0 <= j < |searches|
      ensures searches[j] == SearchEvent(subQueries[j], outcomes[j]) && !searches[j].Done?
    {
      SearchEventsAt(subQueries, outcomes, j);
    }
    assert forall j :: 0 <= j < |subQueries| ==> outcomes[j] == SearchStories(backend, subQueries[j], kpq);
    ChunkEventsAreChunks(tokens);
    StreamLayout(chunks, searches, events);
  }

  /** An answer without any sub-query produces no search at all. */
  lemma NoSubQueriesNoSearch(tokens: seq<string>, k: int, backend: Backend)
    requires ExtractSubQueries(tokens) == []
    ensures GenerateResults(tokens, k, backend) == ChunkEvents(tokens) + [Done]
  {
  }

  /** The `Request` body model: `user_input` and `k`, which defaults to 500. */
  datatype Request = Request(userInput: string, k: int)

  const DefaultK: int := 500

  function NewRequest(userInput: string, k: Option<int>): (req: Request)
    ensures req.userInput == userInput
    ensures k.None? ==> req.k == DefaultK
    ensures k.Some? ==> req.k == k.value
  {
    Request(userInput, if k.Some? then k.value else DefaultK)
  }

  const MissingQuery: string := "Missing query"

  /** The JSON body of a plain response. */
  datatype Body = ErrorBody(error: string) | ResultsBody(results: seq<Story>)

  /** What an endpoint answers: a JSON response with its status, an event
      stream, or an exception that escapes the handler. */
  datatype Response =
    | Json(status: int, body: Body)
    | EventStream(events: seq<Event>)
    | Raised(error: string)

  /** `POST /search`: 400 exactly when the query is empty, otherwise the
      stories of one search for the whole query with the request's `k`;
      a search failure is not caught. */
  function Search(req: Request, backend: Backend): (resp: Response)
    ensures req.userInput == [] <==> resp == Json(400, ErrorBody(MissingQuery))
    ensures req.userInput != [] ==>
      match SearchStories(backend, req.userInput, req.k)
      case Ok(stories) => resp == Json(200, ResultsBody(stories))
      case Err(e) => resp == Raised(e)
  {
    if req.userInput == [] then Json(400, ErrorBody(MissingQuery))
    else
      match SearchStories(backend, req.userInput, req.k)
      case Ok(stories) => Json(200, ResultsBody(stories))
      case Err(e) => Raised(e)
  }

  /** `POST /search_llm`: 400 exactly when the query is empty, otherwise the
      event stream of `generate_results` over the tokens the LLM produces
      for the query (`llm`). */
  function SearchLlm(req: Request, llm: string -> seq<string>, backend: Backend): (resp: Response)
    ensures req.userInput == [] <==> resp == Json(400, ErrorBody(MissingQuery))
    ensures req.userInput != [] ==> resp == EventStream(GenerateResults(llm(req.userInput), req.k, backend))
  {
    if req.userInput == [] then Json(400, ErrorBody(MissingQuery))
    else EventStream(GenerateResults(llm(req.userInput), req.k, backend))
  }
}
