/** The Streamlit client's side of `/search_llm`: reading the event stream
    line by line, dispatching each decoded object, merging the result lists
    and counting what the merge dropped; and the guard on the bio. */
module Client {
  import opened Wrappers
  import opened Text
  import opened Handler
  import opened Interleave
  import Server

  /** The prefix of a server-sent event line. */
  const DataPrefix: string := "data: "

  /** The text a stream line carries: the line without its `data: ` prefix,
      or the whole line when it has none. */
  function Payload(line: string): (p: string)
    ensures StartsWith(line, DataPrefix) ==> line == DataPrefix + p
    ensures !StartsWith(line, DataPrefix) ==> p == line
  {
    if StartsWith(line, DataPrefix) then line[|DataPrefix|..] else line
  }

  /** A decoded JSON object as far as the client looks at it: which of the
      keys it tests are present, with their values. A `null` inside a result
      list is `None`. */
  datatype Obj = Obj(
    error: Option<string>,
    chunk: Option<string>,
    results: Option<seq<Option<Server.Story>>>,
    query: Option<string>,
    done: bool)

  /** Why the client stops with an exception: an error the server reported,
      or an object it does not recognise. */
  datatype Failure = Reported(message: string) | InvalidData(data: Obj) | HttpError(status: int)

  /** What the client does with one object. */
  datatype Action =
    | Fail(failure: Failure)
    | ShowChunk(text: string)
    | Collect(query: string, results: seq<Option<Server.Story>>)
    | Stop

  /** The `if`/`elif` chain over the object's keys, in its order of priority:
      `error`, then `chunk`, then `results` together with `query`, then `done`;
      anything else is invalid. */
  function Dispatch(obj: Obj): (a: Action)
    ensures obj.error.Some? <==> a.Fail? && a.failure.Reported?
    ensures obj.error.Some? ==> a == Fail(Reported(obj.error.value))
    ensures a.ShowChunk? <==> obj.error.None? && obj.chunk.Some?
    ensures a.ShowChunk? ==> a.text == obj.chunk.value
    ensures a.Collect? <==> obj.error.None? && obj.chunk.None? && obj.results.Some? && obj.query.Some?
    ensures a.Collect? ==> a.query == obj.query.value && a.results == obj.results.value
    ensures a.Stop? <==>
      obj.error.None? && obj.chunk.None? && (obj.results.None? || obj.query.None?) && obj.done
    ensures a == Fail(InvalidData(obj)) <==>
      obj.error.None? && obj.chunk.None? && (obj.results.None? || obj.query.None?) && !obj.done
  {
    if obj.error.Some? then Fail(Reported(obj.error.value))
    else if obj.chunk.Some? then ShowChunk(obj.chunk.value)
    else if obj.results.Some? && obj.query.Some? then Collect(obj.query.value, obj.results.value)
    else if obj.done then Stop
    else Fail(InvalidData(obj))
  }

  /** What the client has accumulated: its handler and the result lists
      received so far, in arrival order. */
  datatype Session = Session(handler: HandlerState, collected: seq<seq<Option<Server.Story>>>)

  function Begin(): (s: Session)
  {
    Session(Start(), [])
  }

  /** How a search ends: the merged results, the number reported as removed
      duplicates and the LLM text shown; or an exception. */
  datatype Outcome =
    | Finished(results: seq<Server.Story>, duplicates: int, llmText: string)
    | Failed(failure: Failure)

  /** After the loop: the collected lists go through `interleave_lists`, and
      the duplicates are the total received minus the merged length. */
  function Finish(s: Session): (o: Outcome)
    ensures o.Finished?
    ensures o.results == Interleave.Interleave(s.collected)
    ensures o.duplicates == TotalNones(s.collected)
    ensures |o.results| + o.duplicates == TotalLength(s.collected)
    ensures o.llmText == s.handler.llmText
  {
    var entries := seq(|s.collected|, i requires 0 <= i < |s.collected| => List(s.collected[i]));
    var merged := match InterleaveLists(entries)
      case Unchanged(_) => []
      case Merged(items) => items;
    assert AllLists(entries);
    assert ListsOf(entries) == s.collected;
    InterleaveLength(s.collected);
    Finished(merged, TotalLength(s.collected) - |merged|, s.handler.llmText)
  }

  /** The client reports no removed duplicates exactly when no received list
      held a `null`. */
  lemma NoDuplicatesWithoutNulls(s: Session)
    ensures Finish(s).duplicates == 0 <==>
      forall i, k :: 0 <= i < |s.collected| && 0 <= k < |s.collected[i]| ==> s.collected[i][k].Some?
  {
    TotalNonesZero(s.collected, |s.collected|);
  }

  /** The effect of one object: the loop goes on with a new session, or the
      search ends. */
  datatype Step = Continue(session: Session) | Halt(outcome: Outcome)

  function StepOn(s: Session, obj: Obj): (st: Step)
  {
    match Dispatch(obj)
    case Fail(f) => Halt(Failed(f))
    case ShowChunk(text) => Continue(Session(OnNewChunk(s.handler, text), s.collected))
    case Collect(_, results) => Continue(Session(s.handler, s.collected + [results]))
    case Stop => Halt(Finish(s))
  }

  /** The loop of `handle_llm_search` over the stream's lines from session
      `s`: an empty line or one that does not decode (`parse` gives `None`)
      is skipped; the end of the stream finishes like `done`. */
  function Consume(lines: seq<string>, parse: string -> Option<Obj>, s: Session): (o: Outcome)
    decreases |lines|
  {
    if |lines| == 0 then Finish(s)
    else if lines[0] == [] then Consume(lines[1..], parse, s)
    else match parse(Payload(lines[0]))
      case None => Consume(lines[1..], parse, s)
      case Some(obj) =>
        match StepOn(s, obj)
        case Halt(o) => o
        case Continue(s') => Consume(lines[1..], parse, s')
  }

  /** `handle_llm_search` on the lines of the response. */
  function HandleLlmSearch(lines: seq<string>, parse: string -> Option<Obj>): (o: Outcome)
  {
    Consume(lines, parse, Begin())
  }

  /** The objects the loop dispatches: one per non-empty line that decodes. */
  function ObjectsOf(lines: seq<string>, parse: string -> Option<Obj>): (objs: seq<Obj>)
  {
    if |lines| == 0 then []
    else
      var head := if lines[0] != [] && parse(Payload(lines[0])).Some? then [parse(Payload(lines[0])).value] else [];
      head + ObjectsOf(lines[1..], parse)
  }

  /** Dispatching a sequence of objects in order, from session `s`. */
  function ConsumeObjects(objs: seq<Obj>, s: Session): (o: Outcome)
  {
    if |objs| == 0 then Finish(s)
    else match StepOn(s, objs[0])
      case Halt(o) => o
      case Continue(s') => ConsumeObjects(objs[1..], s')
  }

  /** Skipped lines do not matter: reading the lines is dispatching the
      objects they decode to. */
  lemma {:induction false} SkippedLinesIgnored(lines: seq<string>, parse: string -> Option<Obj>, s: Session)
    ensures Consume(lines, parse, s) == ConsumeObjects(ObjectsOf(lines, parse), s)
    decreases |lines|
  {
    if |lines| > 0 {
      var rest := ObjectsOf(lines[1..], parse);
      if lines[0] == [] || parse(Payload(lines[0])).None? {
        assert ObjectsOf(lines, parse) == rest;
        SkippedLinesIgnored(lines[1..], parse, s);
      } else {
        var obj := parse(Payload(lines[0])).value;
        assert ObjectsOf(lines, parse) == [obj] + rest;
        assert ([obj] + rest)[1..] == rest;
        match StepOn(s, obj)
        case Halt(o) =>
        case Continue(s') =>
          SkippedLinesIgnored(lines[1..], parse, s');
      }
    }
  }

  predicate Halting(obj: Obj)
  {
    Dispatch(obj).Fail? || Dispatch(obj).Stop?
  }

  /** Once an object halts the loop (`done`, a reported error, an invalid
      object), nothing after it is read. */
  lemma {:induction false} NothingAfterHalt(objs: seq<Obj>, rest: seq<Obj>, s: Session)
    requires |objs| > 0 && Halting(objs[|objs| - 1])
    ensures ConsumeObjects(objs + rest, s) == ConsumeObjects(objs, s)
  {
    assert (objs + rest)[0] == objs[0];
    if |objs| > 1 {
      assert (objs + rest)[1..] == objs[1..] + rest;
      match StepOn(s, objs[0])
      case Halt(o) =>
      case Continue(s') =>
        NothingAfterHalt(objs[1..], rest, s');
    }
  }

  /** The end of the stream finishes the search like `done` does: the
      collected lists are merged either way. */
  lemma {:induction false} EndLikeDone(objs: seq<Obj>, s: Session)
    ensures ConsumeObjects(objs + [Obj(None, None, None, None, true)], s) == ConsumeObjects(objs, s)
  {
    var done := Obj(None, None, None, None, true);
    if |objs| == 0 {
      assert objs + [done] == [done];
    } else {
      assert (objs + [done])[0] == objs[0];
      assert (objs + [done])[1..] == objs[1..] + [done];
      match StepOn(s, objs[0])
      case Halt(o) =>
      case Continue(s') =>
        EndLikeDone(objs[1..], s');
    }
  }

  lemma {:induction false} ObjectsOfAppend(a: seq<string>, b: seq<string>, parse: string -> Option<Obj>)
    ensures ObjectsOf(a + b, parse) == ObjectsOf(a, parse) + ObjectsOf(b, parse)
  {
    if |a| == 0 {
      assert a + b == b;
    } else {
      assert (a + b)[0] == a[0];
      assert (a + b)[1..] == a[1..] + b;
      ObjectsOfAppend(a[1..], b, parse);
    }
  }

  /** On the lines: after a line that halts the loop, the rest of the stream
      is never looked at. */
  lemma StreamEndsAtHalt(lines: seq<string>, tail: seq<string>, parse: string -> Option<Obj>, s: Session)
    requires |lines| > 0
    requires var last := lines[|lines| - 1];
      last != [] && parse(Payload(last)).Some? && Halting(parse(Payload(last)).value)
    ensures Consume(lines + tail, parse, s) == Consume(lines, parse, s)
  {
    var n := |lines| - 1;
    var last := lines[n];
    assert lines == lines[..n] + [last];
    ObjectsOfAppend(lines[..n], [last], parse);
    assert ObjectsOf([last], parse) == [parse(Payload(last)).value] + ObjectsOf([], parse);
    var objs := ObjectsOf(lines, parse);
    ObjectsOfAppend(lines, tail, parse);
    SkippedLinesIgnored(lines + tail, parse, s);
    SkippedLinesIgnored(lines, parse, s);
    NothingAfterHalt(objs, ObjectsOf(tail, parse), s);
  }

  /** FastAPI's answer to an exception that escapes an endpoint. */
  const InternalServerError: int := 500

  /** `handle_standard_search` on the server's answer to `/search`: any status
      but 200 is an error; a body with `error` is reported; a body with
      `results` becomes the result list as it is. */
  function HandleStandardSearch(resp: Server.Response): (o: Outcome)
    ensures o.Finished? <==> resp.Json? && resp.status == 200 && resp.body.ResultsBody?
    ensures o.Finished? ==> o == Finished(resp.body.results, 0, [])
    ensures resp.Raised? ==> o == Failed(HttpError(InternalServerError))
    ensures resp.Json? && resp.status != 200 ==> o == Failed(HttpError(resp.status))
  {
    match resp
    case Json(status, body) =>
      if status != 200 then Failed(HttpError(status))
      else (match body
        case ErrorBody(e) => Failed(Reported(e))
        case ResultsBody(stories) => Finished(stories, 0, []))
    case Raised(_) => Failed(HttpError(InternalServerError))
    case EventStream(_) => Failed(HttpError(InternalServerError))
  }

  /** The Search button's guard: a bio that is empty or only whitespace is
      refused before any request is sent. */
  function BioAccepted(bio: string): (ok: bool)
    ensures ok <==> !AllSpace(bio)
  {
    StripSpec(bio);
    Strip(bio) != []
  }

  /** A bio the client accepts always gets past the server's empty-query
      guard: the request it sends is answered with the event stream. */
  lemma AcceptedBioIsStreamed(bio: string, k: int, llm: string -> seq<string>, backend: Server.Backend)
    requires BioAccepted(bio)
    ensures Server.SearchLlm(Server.NewRequest(bio, Some(k)), llm, backend)
         == Server.EventStream(Server.GenerateResults(llm(bio), k, backend))
  {
    assert AllSpace([]);
  }
}
