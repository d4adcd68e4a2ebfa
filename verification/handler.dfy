/** The text side of `StdOutHandler` (src/utils.py): `start` and
    `on_new_chunk`, which accumulate the LLM's answer as HTML. Timing and
    the Streamlit containers are not modelled. */
module Handler {
  import opened Text

  /** `s.replace("\n", "<br>")`. */
  function Br(s: string): (r: string)
  {
    if |s| == 0 then ""
    else Br(s[..|s| - 1]) + BrChar(s[|s| - 1])
  }

  function BrChar(c: char): (r: string)
  {
    if c == '\n' then "<br>" else [c]
  }

  lemma BrSnoc(s: string, c: char)
    ensures Br(s + [c]) == Br(s) + BrChar(c)
  {
    assert (s + [c])[..|s|] == s;
  }

  /** The result holds no newline, and a text without newlines is unchanged. */
  lemma {:induction false} BrNoNewline(s: string)
    ensures '\n' !in Br(s)
    ensures '\n' !in s ==> Br(s) == s
  {
    if |s| > 0 {
      BrNoNewline(s[..|s| - 1]);
      assert '\n' !in s ==> s == s[..|s| - 1] + [s[|s| - 1]];
    }
  }

  /** Replacing newlines commutes with concatenation. */
  lemma {:induction false} BrAppend(a: string, b: string)
    ensures Br(a + b) == Br(a) + Br(b)
  {
    if |b| == 0 {
      assert a + b == a;
    } else {
      var init, c := b[..|b| - 1], b[|b| - 1];
      BrAppend(a, init);
      assert a + b == (a + init) + [c];
      BrSnoc(a + init, c);
      assert Br(b) == Br(init) + BrChar(c);
      AppendAssoc(Br(a), Br(init), BrChar(c));
    }
  }

  /** The part of the handler's state the model keeps. */
  datatype HandlerState = HandlerState(llmText: string, firstToken: bool)

  /** `start`: no text yet, waiting for the first token. */
  function Start(): (h: HandlerState)
    ensures h.llmText == [] && h.firstToken
  {
    HandlerState("", true)
  }

  /** `on_new_chunk`: an empty chunk is ignored; any other chunk clears the
      first-token flag and is appended with its newlines turned into `<br>`. */
  function OnNewChunk(h: HandlerState, chunk: string): (h': HandlerState)
    ensures chunk == [] ==> h' == h
    ensures chunk != [] ==> !h'.firstToken
    ensures h'.llmText == h.llmText + Br(chunk)
    ensures '\n' !in h.llmText ==> '\n' !in h'.llmText
  {
    BrNoNewline(chunk);
    if chunk == [] then h
    else HandlerState(h.llmText + Br(chunk), false)
  }

  /** Feeding chunks one after the other. */
  function OnChunks(h: HandlerState, chunks: seq<string>): (r: HandlerState)
    decreases |chunks|
  {
    if |chunks| == 0 then h else OnChunks(OnNewChunk(h, chunks[0]), chunks[1..])
  }

  /** After a series of chunks the handler shows the whole text with its
      newlines as `<br>`, however it was cut into chunks, and it is still
      waiting for its first token exactly when all chunks were empty. */
  lemma {:induction false} OnChunksShowsText(h: HandlerState, chunks: seq<string>)
    ensures OnChunks(h, chunks).llmText == h.llmText + Br(Concat(chunks))
    ensures OnChunks(h, chunks).firstToken <==> h.firstToken && Concat(chunks) == []
    decreases |chunks|
  {
    if |chunks| > 0 {
      OnChunksShowsText(OnNewChunk(h, chunks[0]), chunks[1..]);
      BrAppend(chunks[0], Concat(chunks[1..]));
    }
  }
}
