/** The sub-query extractor of `generate_results` (src/main.py): the LLM's
    token stream is accumulated in a buffer that is cut at every newline;
    each cut-off line, stripped, becomes a sub-query unless it is blank, and
    whatever is left in the buffer when the stream ends is flushed the same way. */
module Extractor {
  import opened Text

  /** A sub-query as the extractor produces it: non-empty, on one line, and
      without surrounding whitespace. */
  predicate WellFormedQuery(q: string)
  {
    && q != []
    && '\n' !in q
    && !IsSpace(q[0])
    && !IsSpace(q[|q| - 1])
  }

  /** Strip every piece and keep those that are not blank, in order. */
  function KeepQueries(pieces: seq<string>): (qs: seq<string>)
  {
    if |pieces| == 0 then []
    else
      var q := Strip(pieces[0]);
      (if q != [] then [q] else []) + KeepQueries(pieces[1..])
  }

  lemma {:induction false} KeepQueriesWellFormed(pieces: seq<string>)
    requires forall k :: 0 <= k < |pieces| ==> '\n' !in pieces[k]
    ensures forall k :: 0 <= k < |KeepQueries(pieces)| ==> WellFormedQuery(KeepQueries(pieces)[k])
  {
    if |pieces| > 0 {
      KeepQueriesWellFormed(pieces[1..]);
      StripKeepsLine(pieces[0]);
      StripSpec(pieces[0]);
    }
  }

  lemma {:induction false} KeepQueriesAppend(a: seq<string>, b: seq<string>)
    ensures KeepQueries(a + b) == KeepQueries(a) + KeepQueries(b)
  {
    if |a| == 0 {
      assert a + b == b;
    } else {
      assert (a + b)[1..] == a[1..] + b;
      KeepQueriesAppend(a[1..], b);
    }
  }

  /** Reference definition: the sub-queries of a whole LLM answer are its
      lines, stripped, with the blank ones dropped. */
  function SubQueriesOf(text: string): (subQueries: seq<string>)
  {
    KeepQueries(Split(text))
  }

  /** The extractor's state between two tokens. */
  datatype Extraction = Extraction(buffer: string, subQueries: seq<string>)

  /** The inner `while "\n" in buffer` loop: cut the buffer at its first
      newline until none is left. The result is the buffer's complete lines
      turned into sub-queries, and its pending text as the new buffer. */
  function Drain(buffer: string, subQueries: seq<string>): (e: Extraction)
    ensures e.buffer == Pending(buffer)
    ensures e.subQueries == subQueries + KeepQueries(Complete(buffer))
    decreases |buffer|
  {
    LineEndFindsNewline(buffer);
    if '\n' in buffer then
      var i := LineEnd(buffer);
      var q := Strip(buffer[..i]);
      var kept := if q != [] then [q] else [];
      var e := Drain(buffer[i + 1..], subQueries + kept);
      CutFirstLine(buffer);
      assert KeepQueries([buffer[..i]] + Complete(buffer[i + 1..])) == kept + KeepQueries(Complete(buffer[i + 1..]));
      AppendAssoc(subQueries, kept, KeepQueries(Complete(buffer[i + 1..])));
      e
    else
      assert Split(buffer) == [buffer];
      Extraction(buffer, subQueries)
  }

  /** One pass of the token loop: a non-empty token is appended to the
      buffer (an empty one is skipped), then the buffer is drained. After
      it, the buffer holds no newline and earlier sub-queries are kept. */
  function Feed(e: Extraction, token: string): (r: Extraction)
    ensures '\n' !in r.buffer
    ensures |e.subQueries| <= |r.subQueries| && r.subQueries[..|e.subQueries|] == e.subQueries
    ensures token == [] && '\n' !in e.buffer ==> r == e
  {
    var buffer := if token != [] then e.buffer + token else e.buffer;
    assert '\n' !in buffer ==> Split(buffer) == [buffer];
    PendingIsLine(buffer);
    Drain(buffer, e.subQueries)
  }

  /** The `async for` loop over the whole token stream. */
  function FeedAll(e: Extraction, tokens: seq<string>): (r: Extraction)
    decreases |tokens|
  {
    if |tokens| == 0 then e else FeedAll(Feed(e, tokens[0]), tokens[1..])
  }

  /** End of stream: a non-blank leftover buffer becomes the last sub-query. */
  function Flush(e: Extraction): (qs: seq<string>)
    ensures qs == e.subQueries + KeepQueries([e.buffer])
  {
    assert [e.buffer][1..] == [];
    if e.buffer != [] then
      var q := Strip(e.buffer);
      if q != [] then e.subQueries + [q] else e.subQueries
    else
      e.subQueries
  }

  /** The sub-queries `generate_results` extracts from a token stream. */
  function ExtractSubQueries(tokens: seq<string>): (subQueries: seq<string>)
  {
    Flush(FeedAll(Extraction([], []), tokens))
  }

  /** Feeding a run of tokens to a drained state leaves in the buffer the
      pending text of everything fed so far, and adds its complete lines as
      sub-queries. */
  lemma {:induction false} FeedAllSpec(e: Extraction, tokens: seq<string>)
    requires '\n' !in e.buffer
    ensures FeedAll(e, tokens).buffer == Pending(e.buffer + Concat(tokens))
    ensures FeedAll(e, tokens).subQueries == e.subQueries + KeepQueries(Complete(e.buffer + Concat(tokens)))
    decreases |tokens|
  {
    if |tokens| == 0 {
      assert e.buffer + Concat(tokens) == e.buffer;
      assert Split(e.buffer) == [e.buffer];
    } else {
      var t, rest := tokens[0], tokens[1..];
      var e' := Feed(e, t);
      FeedAllSpec(e', rest);
      assert e.buffer + Concat(tokens) == (e.buffer + t) + Concat(rest) by {
        AppendAssoc(e.buffer, t, Concat(rest));
      }
      FeedStep(e, t, Concat(rest), FeedAll(e', rest));
    }
  }

  /** The inductive step of `FeedAllSpec`: the lines of `buffer + t + later`
      are those completed by `buffer + t`, then those of its pending text
      followed by `later`. */
  lemma FeedStep(e: Extraction, t: string, later: string, r: Extraction)
    requires r.buffer == Pending(Feed(e, t).buffer + later)
    requires r.subQueries == Feed(e, t).subQueries + KeepQueries(Complete(Feed(e, t).buffer + later))
    ensures r.buffer == Pending(e.buffer + t + later)
    ensures r.subQueries == e.subQueries + KeepQueries(Complete(e.buffer + t + later))
  {
    var b := e.buffer + t;
    assert Feed(e, t).buffer == Pending(b) && Feed(e, t).subQueries == e.subQueries + KeepQueries(Complete(b)) by {
      assert t == [] ==> b == e.buffer;
    }
    var c := Pending(b) + later;
    assert Split(b + later) == Complete(b) + (Complete(c) + [Pending(c)]) by {
      SplitAppend(b, later);
      SplitIsCompleteThenPending(c);
    }
    assert Complete(b + later) == Complete(b) + Complete(c) && Pending(b + later) == Pending(c) by {
      InitLast(Complete(b), Complete(c), Pending(c));
    }
    assert Feed(e, t).buffer + later == c;
    KeepQueriesAppend(Complete(b), Complete(c));
    AppendAssoc(e.subQueries, KeepQueries(Complete(b)), KeepQueries(Complete(c)));
  }

  /** Tokenisation independence: the sub-queries depend only on the
      concatenated LLM output, which is split on newlines, each line
      stripped and the blank ones dropped; a last line without a
      trailing newline is kept too. */
  lemma ExtractIsSplit(tokens: seq<string>)
    ensures ExtractSubQueries(tokens) == SubQueriesOf(Concat(tokens))
  {
    var text := Concat(tokens);
    FeedAllSpec(Extraction([], []), tokens);
    assert [] + text == text;
    var e := FeedAll(Extraction([], []), tokens);
    assert e.buffer == Pending(text) && e.subQueries == [] + KeepQueries(Complete(text));
    assert [] + KeepQueries(Complete(text)) == KeepQueries(Complete(text));
    SplitIsCompleteThenPending(text);
    KeepQueriesAppend(Complete(text), [Pending(text)]);
  }

  /** Any two ways of cutting the same text into tokens yield the same sub-queries. */
  lemma TokenisationIndependent(tokens1: seq<string>, tokens2: seq<string>)
    requires Concat(tokens1) == Concat(tokens2)
    ensures ExtractSubQueries(tokens1) == ExtractSubQueries(tokens2)
  {
    ExtractIsSplit(tokens1);
    ExtractIsSplit(tokens2);
  }

  /** Every extracted sub-query is non-empty, on one line and stripped. */
  lemma ExtractedQueriesWellFormed(tokens: seq<string>)
    ensures forall k :: 0 <= k < |ExtractSubQueries(tokens)| ==> WellFormedQuery(ExtractSubQueries(tokens)[k])
  {
    ExtractIsSplit(tokens);
    SplitPiecesAreLines(Concat(tokens));
    KeepQueriesWellFormed(Split(Concat(tokens)));
  }
}
