/** The server and the client put together: the events of `generate_results`
    framed as server-sent events, read back line by line by the client,
    decoded and dispatched. JSON itself is a parameter: `ser` is the server's
    `json.dumps` and `parse` the client's `json.loads`, related only by the
    round trip the end-to-end lemmas assume. */
module Pipeline {
  import opened Wrappers
  import opened Text
  import opened Handler
  import opened Interleave
  import opened Client
  import Server
  import Extractor

  /** One server-sent event: `data: <payload>` followed by a blank line. */
  function Frame(payload: string): (f: string)
  {
    DataPrefix + payload + "\n\n"
  }

  /** The response body: the events framed one after the other. */
  function Encode(events: seq<Server.Event>, ser: Server.Event -> string): (body: string)
  {
    if |events| == 0 then "" else Frame(ser(events[0])) + Encode(events[1..], ser)
  }

  /** `aiter_lines`: the body cut at its newlines, without the empty piece a
      final newline leaves. */
  function Lines(body: string): (lines: seq<string>)
  {
    var parts := Split(body);
    if parts[|parts| - 1] == [] then parts[..|parts| - 1] else parts
  }

  /** The lines each event's frame becomes: its `data:` line and a blank one. */
  function FrameLines(events: seq<Server.Event>, ser: Server.Event -> string): (lines: seq<string>)
  {
    if |events| == 0 then []
    else [DataPrefix + ser(events[0]), ""] + FrameLines(events[1..], ser)
  }

  /** A frame splits into its `data:` line and a blank line. */
  lemma SplitFrame(p: string, rest: string)
    requires '\n' !in p
    ensures Split(Frame(p) + rest) == [DataPrefix + p, ""] + Split(rest)
  {
    var line := DataPrefix + p;
    assert '\n' !in DataPrefix;
    assert '\n' !in line;
    assert Frame(p) + rest == line + "\n" + ("" + "\n" + rest);
    SplitAfterLine(line, "" + "\n" + rest);
    SplitAfterLine("", rest);
  }

  lemma {:induction false} SplitEncode(events: seq<Server.Event>, ser: Server.Event -> string)
    requires forall e :: '\n' !in ser(e)
    ensures Split(Encode(events, ser)) == FrameLines(events, ser) + [""]
  {
    if |events| == 0 {
      SplitLine("");
    } else {
      SplitFrame(ser(events[0]), Encode(events[1..], ser));
      SplitEncode(events[1..], ser);
    }
  }

  /** Framing round trip: the client reads back one `data:` line carrying
      each event's payload, each followed by a blank line, as long as no
      payload holds a newline. */
  lemma LinesOfEncode(events: seq<Server.Event>, ser: Server.Event -> string)
    requires forall e :: '\n' !in ser(e)
    ensures Lines(Encode(events, ser)) == FrameLines(events, ser)
  {
    SplitEncode(events, ser);
    var parts := FrameLines(events, ser) + [""];
    assert parts[..|parts| - 1] == FrameLines(events, ser);
  }

  /** The client takes the payload out of a frame's `data:` line unchanged. */
  lemma PayloadOfFrame(p: string)
    ensures Payload(DataPrefix + p) == p
  {
    assert (DataPrefix + p)[..|DataPrefix|] == DataPrefix;
    assert (DataPrefix + p)[|DataPrefix|..] == p;
  }

  /** A result list as it reaches the client: no `null` in it. */
  function Wrap(items: seq<Server.Story>): (l: seq<Option<Server.Story>>)
    ensures |l| == |items|
    ensures forall i :: 0 <= i < |items| ==> l[i] == Some(items[i])
  {
    seq(|items|, i requires 0 <= i < |items| => Some(items[i]))
  }

  /** The object each event decodes to: `{"chunk": ...}`, `{"results": ...,
      "query": ...}`, `{"error": ...}` or `{"done": true}`. */
  function ToObj(e: Server.Event): (obj: Obj)
  {
    match e
    case Chunk(text) => Obj(None, Some(text), None, None, false)
    case Results(items, query) => Obj(None, None, Some(Wrap(items)), Some(query), false)
    case Error(message) => Obj(Some(message), None, None, None, false)
    case Done => Obj(None, None, None, None, true)
  }

  /** The client's dispatch recovers each event the server sent: a chunk is
      shown, results are collected under their query, an error is reported
      and `done` stops; no event is ever taken for invalid data. */
  lemma DispatchRecoversEvent(e: Server.Event)
    ensures e.Chunk? <==> Dispatch(ToObj(e)).ShowChunk?
    ensures e.Results? <==> Dispatch(ToObj(e)).Collect?
    ensures e.Error? <==> Dispatch(ToObj(e)).Fail?
    ensures e.Done? <==> Dispatch(ToObj(e)).Stop?
    ensures e.Chunk? ==> Dispatch(ToObj(e)).text == e.text
    ensures e.Results? ==> Dispatch(ToObj(e)) == Collect(e.query, Wrap(e.items))
    ensures e.Error? ==> Dispatch(ToObj(e)) == Fail(Reported(e.message))
  {
  }

  function ToObjs(events: seq<Server.Event>): (objs: seq<Obj>)
    ensures |objs| == |events|
  {
    if |events| == 0 then [] else [ToObj(events[0])] + ToObjs(events[1..])
  }

  lemma {:induction false} ToObjsAppend(a: seq<Server.Event>, b: seq<Server.Event>)
    ensures ToObjs(a + b) == ToObjs(a) + ToObjs(b)
  {
    if |a| == 0 {
      assert a + b == b;
    } else {
      assert (a + b)[0] == a[0];
      assert (a + b)[1..] == a[1..] + b;
      ToObjsAppend(a[1..], b);
    }
  }

  /** Decoding the frames' lines gives one object per event, in order: the
      blank separator lines are skipped. */
  lemma {:induction false} DecodeFrames(events: seq<Server.Event>, ser: Server.Event -> string, parse: string -> Option<Obj>)
    requires forall e :: parse(ser(e)) == Some(ToObj(e))
    ensures ObjectsOf(FrameLines(events, ser), parse) == ToObjs(events)
  {
    if |events| > 0 {
      var line := DataPrefix + ser(events[0]);
      var rest := FrameLines(events[1..], ser);
      PayloadOfFrame(ser(events[0]));
      assert line != [];
      assert ([line, ""] + rest)[0] == line;
      assert ([line, ""] + rest)[1..] == [""] + rest;
      assert ([""] + rest)[1..] == rest;
      assert ObjectsOf([""] + rest, parse) == ObjectsOf(rest, parse);
      DecodeFrames(events[1..], ser, parse);
    }
  }

  /** Dispatching starts with the first object. */
  lemma ConsumeCons(obj: Obj, rest: seq<Obj>, s: Session)
    ensures StepOn(s, obj).Halt? ==> ConsumeObjects([obj] + rest, s) == StepOn(s, obj).outcome
    ensures StepOn(s, obj).Continue? ==> ConsumeObjects([obj] + rest, s) == ConsumeObjects(rest, StepOn(s, obj).session)
  {
    assert ([obj] + rest)[0] == obj;
    assert ([obj] + rest)[1..] == rest;
  }

  /** Consuming the chunk events of a token stream is feeding all the tokens
      to the handler (an empty token changes nothing). */
  lemma {:induction false} ChunksConsumed(tokens: seq<string>, rest: seq<Obj>, s: Session)
    ensures ConsumeObjects(ToObjs(Server.ChunkEvents(tokens)) + rest, s)
         == ConsumeObjects(rest, Session(OnChunks(s.handler, tokens), s.collected))
  {
    if |tokens| > 0 {
      var tail := Server.ChunkEvents(tokens[1..]);
      var s' := Session(OnNewChunk(s.handler, tokens[0]), s.collected);
      if tokens[0] == [] {
        assert Server.ChunkEvents(tokens) == tail;
        assert s' == s;
      } else {
        var e := Server.Chunk(tokens[0]);
        assert Server.ChunkEvents(tokens) == [e] + tail;
        assert ToObjs([e] + tail) == [ToObj(e)] + ToObjs(tail);
        assert ToObjs(Server.ChunkEvents(tokens)) + rest == [ToObj(e)] + (ToObjs(tail) + rest);
        ConsumeCons(ToObj(e), ToObjs(tail) + rest, s);
      }
      ChunksConsumed(tokens[1..], rest, s');
    } else {
      assert ToObjs(Server.ChunkEvents(tokens)) + rest == rest;
    }
  }

  /** The index of the first failed search, if any. */
  function FirstError<T>(rs: seq<Result<T>>): (j: Option<nat>)
    ensures j.None? <==> forall i :: 0 <= i < |rs| ==> rs[i].Ok?
    ensures j.Some? ==> j.value < |rs| && rs[j.value].Err? && forall i :: 0 <= i < j.value ==> rs[i].Ok?
  {
    if |rs| == 0 then None
    else if rs[0].Err? then Some(0)
    else match FirstError(rs[1..])
      case None => None
      case Some(j) => Some(j + 1)
  }

  /** The result lists of the successful searches, in order, as the client
      receives them. */
  function Collected(rs: seq<Result<seq<Server.Story>>>): (lists: seq<seq<Option<Server.Story>>>)
  {
    if |rs| == 0 then []
    else (if rs[0].Ok? then [Wrap(rs[0].value)] else []) + Collected(rs[1..])
  }

  /** When every search succeeds, the client holds one list per sub-query,
      each the stories of its search. */
  lemma {:induction false} CollectedAllOk(rs: seq<Result<seq<Server.Story>>>)
    requires forall i :: 0 <= i < |rs| ==> rs[i].Ok?
    ensures |Collected(rs)| == |rs|
    ensures forall i :: 0 <= i < |rs| ==> Collected(rs)[i] == Wrap(rs[i].value)
  {
    if |rs| > 0 {
      CollectedAllOk(rs[1..]);
      assert forall i :: 1 <= i < |rs| ==> Collected(rs)[i] == Collected(rs[1..])[i - 1];
    }
  }

  /** What the client does with the search events and the final `done`: it
      collects every result list, or stops with the first error. */
  lemma {:induction false} SearchesConsumed(subQueries: seq<string>, outcomes: seq<Result<seq<Server.Story>>>, s: Session)
    requires |outcomes| == |subQueries|
    ensures var out := ConsumeObjects(ToObjs(Server.SearchEvents(subQueries, outcomes)) + [ToObj(Server.Done)], s);
      && (FirstError(outcomes).None? ==> out == Finish(Session(s.handler, s.collected + Collected(outcomes))))
      && (FirstError(outcomes).Some? ==> var j := FirstError(outcomes).value;
            out == Failed(Reported(Server.DbError(subQueries[j], outcomes[j].error))))
  {
    var events := Server.SearchEvents(subQueries, outcomes);
    var objs := ToObjs(events) + [ToObj(Server.Done)];
    if |subQueries| == 0 {
      assert objs == [ToObj(Server.Done)];
      assert s.collected + Collected(outcomes) == s.collected;
    } else {
      var e := Server.SearchEvent(subQueries[0], outcomes[0]);
      var tail := Server.SearchEvents(subQueries[1..], outcomes[1..]);
      assert events == [e] + tail;
      assert ToObjs([e] + tail) == [ToObj(e)] + ToObjs(tail);
      assert objs == [ToObj(e)] + (ToObjs(tail) + [ToObj(Server.Done)]);
      ConsumeCons(ToObj(e), ToObjs(tail) + [ToObj(Server.Done)], s);
      match outcomes[0]
      case Err(error) =>
        assert e == Server.Error(Server.DbError(subQueries[0], error));
      case Ok(items) =>
        var s' := Session(s.handler, s.collected + [Wrap(items)]);
        assert e == Server.Results(items, subQueries[0]);
        SearchesConsumed(subQueries[1..], outcomes[1..], s');
        assert Collected(outcomes) == [Wrap(items)] + Collected(outcomes[1..]);
        assert s.collected + Collected(outcomes) == s'.collected + Collected(outcomes[1..]);
    }
  }

  /** What reaches the client's dispatch is the server's events, in order. */
  lemma ReadBack(events: seq<Server.Event>, ser: Server.Event -> string, parse: string -> Option<Obj>)
    requires forall e :: '\n' !in ser(e)
    requires forall e :: parse(ser(e)) == Some(ToObj(e))
    ensures HandleLlmSearch(Lines(Encode(events, ser)), parse) == ConsumeObjects(ToObjs(events), Begin())
  {
    LinesOfEncode(events, ser);
    SkippedLinesIgnored(Lines(Encode(events, ser)), parse, Begin());
    DecodeFrames(events, ser, parse);
  }

  /** The objects of `generate_results`: the chunks, the searches, `done`. */
  lemma GeneratedObjects(tokens: seq<string>, k: int, backend: Server.Backend)
    ensures var subQueries := Extractor.ExtractSubQueries(tokens);
      var kpq := if |subQueries| > 0 then Server.KPerQuery(k, |subQueries|) else 0;
      var searches := Server.SearchEvents(subQueries, Server.Outcomes(subQueries, kpq, backend));
      ToObjs(Server.GenerateResults(tokens, k, backend))
        == ToObjs(Server.ChunkEvents(tokens)) + (ToObjs(searches) + [ToObj(Server.Done)])
  {
    var subQueries := Extractor.ExtractSubQueries(tokens);
    var kpq := if |subQueries| > 0 then Server.KPerQuery(k, |subQueries|) else 0;
    var chunks := Server.ChunkEvents(tokens);
    var searches := Server.SearchEvents(subQueries, Server.Outcomes(subQueries, kpq, backend));
    assert Server.GenerateResults(tokens, k, backend) == chunks + (searches + [Server.Done]);
    ToObjsAppend(chunks, searches + [Server.Done]);
    ToObjsAppend(searches, [Server.Done]);
    assert ToObjs([Server.Done]) == [ToObj(Server.Done)];
  }

  /** With every search successful, the client's final state: the merge of
      the result lists, nothing counted as duplicate, and the handler's text. */
  lemma FinishAllOk(h: HandlerState, outcomes: seq<Result<seq<Server.Story>>>)
    requires FirstError(outcomes).None?
    ensures Finish(Session(h, [] + Collected(outcomes)))
         == Finished(Interleave.Interleave(Collected(outcomes)), 0, h.llmText)
  {
    assert [] + Collected(outcomes) == Collected(outcomes);
    CollectedAllOk(outcomes);
    NoDuplicatesWithoutNulls(Session(h, Collected(outcomes)));
  }

  /** How the client ends on the events of `generate_results`. */
  lemma ConsumeGenerated(tokens: seq<string>, k: int, backend: Server.Backend)
    ensures var subQueries := Extractor.ExtractSubQueries(tokens);
      var kpq := if |subQueries| > 0 then Server.KPerQuery(k, |subQueries|) else 0;
      var outcomes := Server.Outcomes(subQueries, kpq, backend);
      var out := ConsumeObjects(ToObjs(Server.GenerateResults(tokens, k, backend)), Begin());
      && (FirstError(outcomes).None? ==> out == Finished(Interleave.Interleave(Collected(outcomes)), 0, Br(Concat(tokens))))
      && (FirstError(outcomes).Some? ==> var j := FirstError(outcomes).value;
            out == Failed(Reported(Server.DbError(subQueries[j], outcomes[j].error))))
  {
    var subQueries := Extractor.ExtractSubQueries(tokens);
    var kpq := if |subQueries| > 0 then Server.KPerQuery(k, |subQueries|) else 0;
    var outcomes := Server.Outcomes(subQueries, kpq, backend);
    var searches := Server.SearchEvents(subQueries, outcomes);
    var rest := ToObjs(searches) + [ToObj(Server.Done)];
    GeneratedObjects(tokens, k, backend);
    ChunksConsumed(tokens, rest, Begin());
    var h := OnChunks(Start(), tokens);
    assert h.llmText == Br(Concat(tokens)) by {
      OnChunksShowsText(Start(), tokens);
    }
    SearchesConsumed(subQueries, outcomes, Session(h, []));
    if FirstError(outcomes).None? {
      FinishAllOk(h, outcomes);
    }
  }

  /** The whole `/search_llm` exchange for a bio the client accepts, when the
      server serialises every event on one line and the client decodes it
      back. If every search succeeds, the client ends with the round-robin
      merge of the per-query result lists, reports no duplicates, and shows
      the LLM's whole answer. If one fails, the client stops with the first
      failure's message, whatever the later searches gave. */
  lemma LlmSearchEndToEnd(
    bio: string, k: int, llm: string -> seq<string>, backend: Server.Backend,
    ser: Server.Event -> string, parse: string -> Option<Obj>)
    requires BioAccepted(bio)
    requires forall e :: '\n' !in ser(e)
    requires forall e :: parse(ser(e)) == Some(ToObj(e))
    ensures var tokens := llm(bio);
      var subQueries := Extractor.ExtractSubQueries(tokens);
      var kpq := if |subQueries| > 0 then Server.KPerQuery(k, |subQueries|) else 0;
      var outcomes := Server.Outcomes(subQueries, kpq, backend);
      var resp := Server.SearchLlm(Server.NewRequest(bio, Some(k)), llm, backend);
      && resp.EventStream?
      && var out := HandleLlmSearch(Lines(Encode(resp.events, ser)), parse);
         && (FirstError(outcomes).None? ==> out == Finished(Interleave.Interleave(Collected(outcomes)), 0, Br(Concat(tokens))))
         && (FirstError(outcomes).Some? ==> var j := FirstError(outcomes).value;
               out == Failed(Reported(Server.DbError(subQueries[j], outcomes[j].error))))
  {
    AcceptedBioIsStreamed(bio, k, llm, backend);
    ReadBack(Server.GenerateResults(llm(bio), k, backend), ser, parse);
    ConsumeGenerated(llm(bio), k, backend);
  }

  /** The whole `/search` exchange for a bio the client accepts: the client
      ends with the stories of the single search, in the server's order, or
      with the status FastAPI gives an escaped exception. */
  lemma StandardSearchEndToEnd(bio: string, k: int, backend: Server.Backend)
    requires BioAccepted(bio)
    ensures var out := HandleStandardSearch(Server.Search(Server.NewRequest(bio, Some(k)), backend));
      var r := Server.SearchStories(backend, bio, k);
      && (r.Ok? ==> out == Finished(r.value, 0, []))
      && (r.Err? ==> out == Failed(HttpError(InternalServerError)))
  {
    assert AllSpace([]);
  }
}
