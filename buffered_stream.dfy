/** The streaming parser with line buffering: the text after a chunk's last
    line break is held back and put in front of the next chunk, so a JSON
    line that arrives in two reads is decoded whole; the text still held when
    the body ends is the last line; a `done` line ends the whole stream. This
    is the behaviour the comment in the streaming branch of `call_ollama`
    anticipates and the format (one JSON object per line) calls for. */
module BufferedStream {
  import opened Wrappers
  import opened Text
  import opened Ollama
  import opened OllamaStream

  /** The lines of `s` that a line break has ended. */
  function CompleteLines(s: string): (r: seq<string>)
    ensures |r| == |Split(s, '\n')| - 1
  {
    var parts := Split(s, '\n');
    parts[..|parts| - 1]
  }

  /** The text after the last line break of `s`, still waiting for its end. */
  function Pending(s: string): (r: string)
    ensures '\n' !in r
  {
    var parts := Split(s, '\n');
    parts[|parts| - 1]
  }

  lemma SplitIsLinesAndPending(s: string)
    ensures Split(s, '\n') == CompleteLines(s) + [Pending(s)]
  {
  }

  lemma IndexOfAppend(a: string, b: string, c: char)
    requires IndexOf(a, c).Some?
    ensures IndexOf(a + b, c) == IndexOf(a, c)
  {
    var i := IndexOf(a, c).value;
    assert (a + b)[i] == c;
    assert (a + b)[..i] == a[..i];
  }

  /** Past the first line break, the lines of `s` are its first piece and
      the lines of the rest. */
  lemma LinesAfterBreak(s: string, i: nat)
    requires IndexOf(s, '\n') == Some(i)
    ensures CompleteLines(s) == [s[..i]] + CompleteLines(s[i + 1..])
    ensures Pending(s) == Pending(s[i + 1..])
  {
    var p := Split(s[i + 1..], '\n');
    var whole := Split(s, '\n');
    assert whole == [s[..i]] + p;
    assert whole[..|whole| - 1] == [s[..i]] + p[..|p| - 1];
    assert whole[|whole| - 1] == p[|p| - 1];
  }

  /** Reading `a` and then `b`: the lines `a` completed, then the lines of
      what `a` left pending followed by `b`. */
  lemma {:induction false} SplitAppend(a: string, b: string)
    ensures CompleteLines(a + b) == CompleteLines(a) + CompleteLines(Pending(a) + b)
    ensures Pending(a + b) == Pending(Pending(a) + b)
    decreases |a|
  {
    match IndexOf(a, '\n')
    case None =>
      assert Split(a, '\n') == [a];
    case Some(i) =>
      IndexOfAppend(a, b, '\n');
      assert (a + b)[i + 1..] == a[i + 1..] + b;
      assert (a + b)[..i] == a[..i];
      LinesAfterBreak(a, i);
      LinesAfterBreak(a + b, i);
      SplitAppend(a[i + 1..], b);
  }

  /** The body received before the first failed read. */
  function Received(items: seq<ChunkItem>): string {
    Concat(ReadTexts(items))
  }

  /** What the buffered parser passes to the callback: the tokens of the
      body's lines, exactly as if it had arrived in one piece. When a read
      fails, only the lines completed before it count. */
  function BufferedTokens(items: seq<ChunkItem>, decode: LineDecoder): seq<string> {
    if FirstFailure(items) == |items| then LineTokens(Split(Received(items), '\n'), decode)
    else LineTokens(CompleteLines(Received(items)), decode)
  }

  /** The result of the buffered streaming branch: the concatenated tokens
      when every read succeeded or a `done` line came before the failed
      read; otherwise the failed read's error. */
  function StreamOutcome(items: seq<ChunkItem>, decode: LineDecoder): (r: Result<string, OllamaError>)
    ensures r.Ok? <==> (FirstFailure(items) == |items| || Stops(CompleteLines(Received(items)), decode))
    ensures r.Ok? ==> r.value == Concat(BufferedTokens(items, decode))
    ensures r.Err? ==> FirstFailure(items) < |items| && r.error == ChunkError(items[FirstFailure(items)].reason)
  {
    if FirstFailure(items) == |items| || Stops(CompleteLines(Received(items)), decode) then
      Ok(Concat(BufferedTokens(items, decode)))
    else
      Err(ChunkError(items[FirstFailure(items)].reason))
  }

  /** The streaming branch of `call_ollama` with line buffering. */
  method StreamResponse(items: seq<ChunkItem>, decode: LineDecoder)
    returns (r: Result<string, OllamaError>, emitted: seq<string>)
    ensures emitted == BufferedTokens(items, decode)
    ensures r == StreamOutcome(items, decode)
  {
    var c, pending, full, stopped;
    ghost var seen;
    c, seen, pending, emitted, full, stopped := ReadChunks(items, decode);
    if stopped {
      StoppedEarly(items, c, decode);
      return Ok(full), emitted;
    } else if c < |items| {
      FailedRead(items, c, seen, emitted, decode);
      return Err(ChunkError(items[c].reason)), emitted;
    }
    // End of the body: what is still pending is its last line.
    var toks, piece, _ := ProcessLines([pending], decode);
    assert items[..c] == items;
    BodyEnded(items, seen, pending, emitted, toks, decode);
    ConcatAppend(emitted, toks);
    r := Ok(full + piece);
    emitted := emitted + toks;
  }

  /** The read loop: chunk after chunk until a read fails, a `done` line is
      reached or the body ends. `c` chunks were read, `seen` is their text,
      `emitted` the tokens of the lines they completed. */
  method ReadChunks(items: seq<ChunkItem>, decode: LineDecoder)
    returns (c: nat, ghost seen: string, pending: string, emitted: seq<string>, full: string, stopped: bool)
    ensures c <= |items|
    ensures forall k :: 0 <= k < c ==> items[k].Chunk?
    ensures seen == Concat(ChunkTexts(items[..c]))
    ensures emitted == LineTokens(CompleteLines(seen), decode)
    ensures full == Concat(emitted)
    ensures stopped == Stops(CompleteLines(seen), decode)
    ensures !stopped ==> pending == Pending(seen) && (c == |items| || items[c].ChunkFailed?)
  {
    full, emitted, pending, seen, c := "", [], "", "", 0;
    stopped := false;
    while c < |items|
      invariant 0 <= c <= |items|
      invariant forall k :: 0 <= k < c ==> items[k].Chunk?
      invariant seen == Concat(ChunkTexts(items[..c]))
      invariant pending == Pending(seen)
      invariant emitted == LineTokens(CompleteLines(seen), decode)
      invariant !Stops(CompleteLines(seen), decode)
      invariant full == Concat(emitted)
    {
      if items[c].ChunkFailed? {
        return;
      }
      seen, pending, emitted, full, stopped := ReadChunk(items, c, seen, pending, emitted, full, decode);
      c := c + 1;
      if stopped {
        return;
      }
    }
  }

  /** One successful read inside the loop. */
  method ReadChunk(items: seq<ChunkItem>, c: nat, ghost seen: string, pending: string, emitted: seq<string>,
                   full: string, decode: LineDecoder)
    returns (ghost seen': string, pending': string, emitted': seq<string>, full': string, stopped: bool)
    requires c < |items| && items[c].Chunk?
    requires forall k :: 0 <= k < c ==> items[k].Chunk?
    requires seen == Concat(ChunkTexts(items[..c]))
    requires pending == Pending(seen)
    requires emitted == LineTokens(CompleteLines(seen), decode)
    requires !Stops(CompleteLines(seen), decode)
    requires full == Concat(emitted)
    ensures forall k :: 0 <= k < c + 1 ==> items[k].Chunk?
    ensures seen' == Concat(ChunkTexts(items[..c + 1]))
    ensures pending' == Pending(seen')
    ensures emitted' == LineTokens(CompleteLines(seen'), decode)
    ensures stopped == Stops(CompleteLines(seen'), decode)
    ensures full' == Concat(emitted')
  {
    var text := items[c].text;
    var toks, piece;
    toks, piece, stopped, pending' := FeedChunk(pending, text, decode);
    SeenStep(items, c, seen, pending, emitted, decode);
    ConcatAppend(emitted, toks);
    full' := full + piece;
    emitted' := emitted + toks;
    seen' := seen + text;
  }

  /** A failed read after the lines `emitted` came from: the error, and
      those lines' tokens. */
  lemma FailedRead(items: seq<ChunkItem>, c: nat, seen: string, emitted: seq<string>, decode: LineDecoder)
    requires c < |items| && items[c].ChunkFailed?
    requires forall k :: 0 <= k < c ==> items[k].Chunk?
    requires seen == Concat(ChunkTexts(items[..c]))
    requires emitted == LineTokens(CompleteLines(seen), decode)
    requires !Stops(CompleteLines(seen), decode)
    ensures emitted == BufferedTokens(items, decode)
    ensures StreamOutcome(items, decode) == Err(ChunkError(items[c].reason))
  {
    FailureAt(items, c);
  }

  /** The end of a body whose every read succeeded: the pending text is the
      last line. */
  lemma BodyEnded(items: seq<ChunkItem>, seen: string, pending: string, emitted: seq<string>,
                  toks: seq<string>, decode: LineDecoder)
    requires forall k :: 0 <= k < |items| ==> items[k].Chunk?
    requires seen == Concat(ChunkTexts(items))
    requires pending == Pending(seen)
    requires emitted == LineTokens(CompleteLines(seen), decode)
    requires !Stops(CompleteLines(seen), decode)
    requires toks == LineTokens([pending], decode)
    ensures emitted + toks == BufferedTokens(items, decode)
    ensures StreamOutcome(items, decode) == Ok(Concat(emitted + toks))
  {
    NoFailure(items);
    assert items[..|items|] == items;
    SplitIsLinesAndPending(seen);
    LineTokensAppend(CompleteLines(seen), [pending], decode);
  }

  /** One read: the lines that the pending text and the new chunk complete
      go through the inner loop; what follows the last line break is held
      back. */
  method FeedChunk(pending: string, text: string, decode: LineDecoder)
    returns (toks: seq<string>, piece: string, stopped: bool, rest: string)
    ensures toks == LineTokens(CompleteLines(pending + text), decode)
    ensures piece == Concat(toks)
    ensures stopped == Stops(CompleteLines(pending + text), decode)
    ensures rest == Pending(pending + text)
  {
    var parts := Split(pending + text, '\n');
    toks, piece, stopped := ProcessLines(parts[..|parts| - 1], decode);
    rest := parts[|parts| - 1];
  }

  /** Reading chunk `c` after the text `seen` of the chunks before it: the
      lines it completes follow those already complete, and what stays
      pending depends only on the old pending text and the chunk. */
  lemma SeenStep(items: seq<ChunkItem>, c: nat, seen: string, pending: string, emitted: seq<string>,
                 decode: LineDecoder)
    requires c < |items| && items[c].Chunk?
    requires forall k :: 0 <= k < c ==> items[k].Chunk?
    requires seen == Concat(ChunkTexts(items[..c]))
    requires pending == Pending(seen)
    requires emitted == LineTokens(CompleteLines(seen), decode)
    requires !Stops(CompleteLines(seen), decode)
    ensures seen + items[c].text == Concat(ChunkTexts(items[..c + 1]))
    ensures Pending(pending + items[c].text) == Pending(seen + items[c].text)
    ensures emitted + LineTokens(CompleteLines(pending + items[c].text), decode)
         == LineTokens(CompleteLines(seen + items[c].text), decode)
    ensures Stops(CompleteLines(pending + items[c].text), decode)
         == Stops(CompleteLines(seen + items[c].text), decode)
  {
    var text := items[c].text;
    SplitAppend(seen, text);
    LineTokensAppend(CompleteLines(seen), CompleteLines(pending + text), decode);
    ChunkTextsSnoc(items, c);
    ConcatSnoc(ChunkTexts(items[..c]), text);
  }

  lemma {:induction false} FailureAtLeast(items: seq<ChunkItem>, m: nat)
    requires m <= |items|
    requires forall k :: 0 <= k < m ==> items[k].Chunk?
    ensures m <= FirstFailure(items)
    decreases m
  {
    if m > 0 {
      FailureAtLeast(items[1..], m - 1);
    }
  }

  /** Once the lines completed by the first `m` chunks hold a `done` line,
      nothing read after them changes what is emitted. */
  lemma StoppedEarly(items: seq<ChunkItem>, m: nat, decode: LineDecoder)
    requires m <= |items|
    requires forall k :: 0 <= k < m ==> items[k].Chunk?
    requires Stops(CompleteLines(Concat(ChunkTexts(items[..m]))), decode)
    ensures Stops(CompleteLines(Received(items)), decode)
    ensures BufferedTokens(items, decode) == LineTokens(CompleteLines(Concat(ChunkTexts(items[..m]))), decode)
  {
    var n := FirstFailure(items);
    FailureAtLeast(items, m);
    var head := ChunkTexts(items[..m]);
    var tail := ChunkTexts(items[m..n]);
    ChunkTextsCut(items, m, n);
    ConcatAppend(head, tail);
    var s := Concat(head);
    SplitAppend(s, Concat(tail));
    LineTokensAppend(CompleteLines(s), CompleteLines(Pending(s) + Concat(tail)), decode);
    var body := Received(items);
    SplitIsLinesAndPending(body);
    LineTokensAppend(CompleteLines(body), [Pending(body)], decode);
  }

  lemma ChunkTextsCut(items: seq<ChunkItem>, m: nat, n: nat)
    requires m <= n <= |items|
    requires forall k :: 0 <= k < n ==> items[k].Chunk?
    ensures ChunkTexts(items[..n]) == ChunkTexts(items[..m]) + ChunkTexts(items[m..n])
  {
    var whole, head, tail := ChunkTexts(items[..n]), ChunkTexts(items[..m]), ChunkTexts(items[m..n]);
    forall k | 0 <= k < n
      ensures whole[k] == (head + tail)[k]
    {
      if k >= m {
        assert tail[k - m] == items[k].text;
      }
    }
  }

  /** One JSON line delivered in two reads (for instance `{"response":"H`
      and then `i"}` with its line break). The parser as built decodes the
      two halves separately, neither is JSON, and the token is lost; the
      buffered parser decodes the reassembled line. */
  lemma SplitLineLostAsBuilt(first: string, second: string, token: string, decode: LineDecoder)
    requires '\n' !in first && '\n' !in second
    requires !IsBlank(first) && !IsBlank(second)
    requires decode(first).None? && decode(second).None?
    requires decode(first + second) == Some(Fragment(Some(token), false))
    ensures var items := [Chunk(first), Chunk(second + "\n")];
      StreamTokens(ReadTexts(items), decode) == [] && BufferedTokens(items, decode) == [token]
  {
    var items := [Chunk(first), Chunk(second + "\n")];
    TwoChunksRead(first, second + "\n");
    HalvesDropped(first, second, decode);
    WholeLineKept(first, second, token, decode);
  }

  lemma TwoChunksRead(x: string, y: string)
    ensures FirstFailure([Chunk(x), Chunk(y)]) == 2
    ensures ReadTexts([Chunk(x), Chunk(y)]) == [x, y]
    ensures Received([Chunk(x), Chunk(y)]) == x + y
  {
    var items := [Chunk(x), Chunk(y)];
    NoFailure(items);
    assert items[..2] == items;
    assert [x, y][..1] == [x] && [x][..0] == [];
    assert Concat([x]) == x;
    assert Concat([x, y]) == Concat([x]) + y;
  }

  /** Each half, on its own, is a line that does not decode. */
  lemma HalvesDropped(first: string, second: string, decode: LineDecoder)
    requires '\n' !in first && '\n' !in second
    requires decode(first).None? && decode(second).None?
    ensures StreamTokens([first, second + "\n"], decode) == []
  {
    assert [first, second + "\n"] == [first] + [second + "\n"];
    StreamTokensSnoc([first], second + "\n", decode);
    assert [] + [first] == [first];
    StreamTokensSnoc([], first, decode);
    assert Split(first, '\n') == [first];
    assert LineTokens([first], decode) == LineTokens([], decode);
    TerminatedLine(second);
    assert [second, ""][1..] == [""] && [""][1..] == [];
    assert LineTokens([second, ""], decode) == LineTokens([""], decode);
  }

  /** The reassembled line decodes and yields its token. */
  lemma WholeLineKept(first: string, second: string, token: string, decode: LineDecoder)
    requires '\n' !in first && '\n' !in second
    requires !IsBlank(first)
    requires decode(first + second) == Some(Fragment(Some(token), false))
    ensures BufferedTokens([Chunk(first), Chunk(second + "\n")], decode) == [token]
  {
    TwoChunksRead(first, second + "\n");
    assert first + (second + "\n") == first + second + "\n";
    assert !IsBlank(first + second) by {
      var k :| 0 <= k < |first| && !IsSpace(first[k]);
      assert (first + second)[k] == first[k];
    }
    var line := first + second;
    TerminatedLine(line);
    assert Split(Received([Chunk(first), Chunk(second + "\n")]), '\n') == [line, ""];
    assert [line, ""][1..] == [""];
    assert LineTokens([""], decode) == [];
    assert LineTokens([line, ""], decode) == [token] + LineTokens([""], decode);
  }

  lemma TerminatedLine(s: string)
    requires '\n' !in s
    ensures Split(s + "\n", '\n') == [s, ""]
  {
    IndexAfterFree(s, "", '\n');
    assert s + "\n" == s + ['\n'] + "";
    assert (s + "\n")[|s| + 1..] == "";
  }
}
