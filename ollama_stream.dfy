/** The streaming half of `call_ollama` in the gitscribe crate, as built:
    each chunk of the body is split at `\n` on its own, every non-blank line
    that decodes as JSON may carry a `response` token, and a `done` line ends
    the rest of its chunk only. The per-line JSON decode is a parameter. */
module OllamaStream {
  import opened Wrappers
  import opened Text
  import opened Ollama

  /** What one decoded line says: its `response` string, if it is one, and
      whether `done` is `true`. */
  datatype Fragment = Fragment(token: Option<string>, done: bool)

  /** `serde_json::from_str(line)`, reduced to the two fields read. */
  type LineDecoder = string -> Option<Fragment>

  function TokenOf(f: Fragment): seq<string> {
    if f.token.Some? then [f.token.value] else []
  }

  /** The line is passed over: blank, or not JSON. */
  predicate Skipped(line: string, decode: LineDecoder) {
    IsBlank(line) || decode(line).None?
  }

  /** The tokens the inner `for` emits for these lines, stopping after the
      first `done` line. */
  function LineTokens(lines: seq<string>, decode: LineDecoder): seq<string>
    decreases |lines|
  {
    if lines == [] then []
    else if Skipped(lines[0], decode) then LineTokens(lines[1..], decode)
    else
      var f := decode(lines[0]).value;
      TokenOf(f) + (if f.done then [] else LineTokens(lines[1..], decode))
  }

  /** Some line of `lines` is a `done` line the inner loop reaches. */
  predicate Stops(lines: seq<string>, decode: LineDecoder)
    decreases |lines|
  {
    lines != [] &&
    ((!Skipped(lines[0], decode) && decode(lines[0]).value.done) || Stops(lines[1..], decode))
  }

  /** The tokens of one chunk: its own lines, nothing carried in or out. */
  function ChunkTokens(text: string, decode: LineDecoder): seq<string> {
    LineTokens(Split(text, '\n'), decode)
  }

  /** The tokens of a run of chunks: each chunk's tokens, in chunk order. */
  function StreamTokens(texts: seq<string>, decode: LineDecoder): seq<string> {
    if texts == [] then []
    else StreamTokens(texts[..|texts| - 1], decode) + ChunkTokens(texts[|texts| - 1], decode)
  }

  /** The index of the first chunk whose read failed, or `|items|`. */
  function FirstFailure(items: seq<ChunkItem>): (n: nat)
    ensures n <= |items|
    ensures forall k :: 0 <= k < n ==> items[k].Chunk?
    ensures n < |items| ==> items[n].ChunkFailed?
  {
    if items == [] || items[0].ChunkFailed? then 0 else 1 + FirstFailure(items[1..])
  }

  function ChunkTexts(items: seq<ChunkItem>): (texts: seq<string>)
    requires forall k :: 0 <= k < |items| ==> items[k].Chunk?
    ensures |texts| == |items|
    ensures forall k :: 0 <= k < |items| ==> texts[k] == items[k].text
  {
    seq(|items|, k requires 0 <= k < |items| && items[k].Chunk? => items[k].text)
  }

  /** The texts read before the first failed read. */
  function ReadTexts(items: seq<ChunkItem>): seq<string> {
    ChunkTexts(items[..FirstFailure(items)])
  }

  /** The inner `for` over a run of lines: the tokens it passes to the
      callback, in order, the text it appends to `full_response`, and
      whether it ended at a `done` line. */
  method ProcessLines(lines: seq<string>, decode: LineDecoder)
    returns (toks: seq<string>, piece: string, stopped: bool)
    ensures toks == LineTokens(lines, decode)
    ensures piece == Concat(toks)
    ensures stopped == Stops(lines, decode)
  {
    toks, piece := [], "";
    var rest := lines;
    while rest != []
      invariant toks + LineTokens(rest, decode) == LineTokens(lines, decode)
      invariant Stops(rest, decode) == Stops(lines, decode)
      invariant piece == Concat(toks)
    {
      var line := rest[0];
      if !IsBlank(line) && decode(line).Some? {
        var f := decode(line).value;
        ghost var later := LineTokens(rest[1..], decode);
        assert LineTokens(rest, decode) == TokenOf(f) + (if f.done then [] else later);
        assert toks + (TokenOf(f) + later) == (toks + TokenOf(f)) + later;
        toks, piece := Emit(toks, piece, f);
        if f.done {
          return toks, piece, true;
        }
      }
      rest := rest[1..];
    }
    stopped := false;
  }

  /** Passing a line's token, if any, to the callback and appending it to
      the accumulated text. */
  method Emit(toks: seq<string>, piece: string, f: Fragment) returns (toks': seq<string>, piece': string)
    requires piece == Concat(toks)
    ensures toks' == toks + TokenOf(f)
    ensures piece' == Concat(toks')
  {
    toks', piece' := toks, piece;
    if f.token.Some? {
      ConcatSnoc(toks, f.token.value);
      piece' := piece + f.token.value;
      toks' := toks + [f.token.value];
    }
  }

  /** The streaming branch of `call_ollama` (after a 2xx status): `emitted`
      is what the callback receives, in order. A failed chunk read ends the
      call with an error; the tokens emitted before it stay emitted. */
  method StreamResponse(items: seq<ChunkItem>, decode: LineDecoder)
    returns (r: Result<string, OllamaError>, emitted: seq<string>)
    ensures emitted == StreamTokens(ReadTexts(items), decode)
    ensures r.Ok? <==> FirstFailure(items) == |items|
    ensures r.Ok? ==> r.value == Concat(emitted)
    ensures r.Err? ==> r.error == ChunkError(items[FirstFailure(items)].reason)
  {
    var full := "";
    emitted := [];
    var c := 0;
    while c < |items|
      invariant 0 <= c <= |items|
      invariant forall k :: 0 <= k < c ==> items[k].Chunk?
      invariant emitted == StreamTokens(ChunkTexts(items[..c]), decode)
      invariant full == Concat(emitted)
    {
      match items[c]
      case ChunkFailed(reason) =>
        FailureAt(items, c);
        return Err(ChunkError(reason)), emitted;
      case Chunk(text) =>
        var toks, piece, _ := ProcessLines(Split(text, '\n'), decode);
        ConcatAppend(emitted, toks);
        ChunkTextsSnoc(items, c);
        StreamTokensSnoc(ChunkTexts(items[..c]), text, decode);
        full := full + piece;
        emitted := emitted + toks;
        c := c + 1;
    }
    assert items[..c] == items;
    NoFailure(items);
    r := Ok(full);
  }

  /** The inner loop over `xs + ys` runs on into `ys` exactly when `xs` has
      no `done` line. */
  lemma {:induction false} LineTokensAppend(xs: seq<string>, ys: seq<string>, decode: LineDecoder)
    ensures LineTokens(xs + ys, decode)
         == LineTokens(xs, decode) + (if Stops(xs, decode) then [] else LineTokens(ys, decode))
    ensures Stops(xs + ys, decode) == (Stops(xs, decode) || Stops(ys, decode))
    decreases |xs|
  {
    if xs == [] {
      assert xs + ys == ys;
    } else {
      assert (xs + ys)[0] == xs[0];
      assert (xs + ys)[1..] == xs[1..] + ys;
      LineTokensAppend(xs[1..], ys, decode);
    }
  }

  /** A blank or undecodable line contributes nothing and stops nothing. */
  lemma SkippedLineIgnored(pre: seq<string>, line: string, post: seq<string>, decode: LineDecoder)
    requires Skipped(line, decode)
    ensures LineTokens(pre + [line] + post, decode) == LineTokens(pre + post, decode)
    ensures Stops(pre + [line] + post, decode) == Stops(pre + post, decode)
  {
    assert pre + [line] + post == pre + ([line] + post);
    LineTokensAppend(pre, [line] + post, decode);
    LineTokensAppend(pre, post, decode);
    assert ([line] + post)[1..] == post;
  }

  /** The tokens of a stream are those of its first chunks followed by those
      of the rest: a `done` line in one chunk does not silence later chunks. */
  lemma {:induction false} StreamTokensAppend(a: seq<string>, b: seq<string>, decode: LineDecoder)
    ensures StreamTokens(a + b, decode) == StreamTokens(a, decode) + StreamTokens(b, decode)
    decreases |b|
  {
    if b == [] {
      assert a + b == a;
    } else {
      var init, last := b[..|b| - 1], b[|b| - 1];
      assert a + b == (a + init) + [last] && b == init + [last];
      StreamTokensSnoc(a + init, last, decode);
      StreamTokensSnoc(init, last, decode);
      StreamTokensAppend(a, init, decode);
      AppendAssoc(StreamTokens(a, decode), StreamTokens(init, decode), ChunkTokens(last, decode));
    }
  }

  lemma StreamTokensSnoc(texts: seq<string>, text: string, decode: LineDecoder)
    ensures StreamTokens(texts + [text], decode) == StreamTokens(texts, decode) + ChunkTokens(text, decode)
  {
    assert (texts + [text])[..|texts|] == texts;
  }

  lemma ChunkTextsSnoc(items: seq<ChunkItem>, c: nat)
    requires c < |items|
    requires forall k :: 0 <= k <= c ==> items[k].Chunk?
    ensures ChunkTexts(items[..c + 1]) == ChunkTexts(items[..c]) + [items[c].text]
  {
    assert items[..c + 1][..c] == items[..c];
  }

  /** Each chunk's tokens come from that chunk alone, whatever the chunks
      before and after it hold. */
  lemma ChunksAreIndependent(before: seq<string>, text: string, after: seq<string>, decode: LineDecoder)
    ensures StreamTokens(before + [text] + after, decode)
         == StreamTokens(before, decode) + ChunkTokens(text, decode) + StreamTokens(after, decode)
  {
    StreamTokensAppend(before + [text], after, decode);
    StreamTokensAppend(before, [text], decode);
    assert [text][..0] == [];
  }

  /** A `done` line ends its run of lines: what follows it is ignored. */
  lemma DoneStopsLines(pre: seq<string>, line: string, post: seq<string>, decode: LineDecoder)
    requires !Stops(pre, decode)
    requires !Skipped(line, decode) && decode(line).value.done
    ensures LineTokens(pre + [line] + post, decode) == LineTokens(pre, decode) + TokenOf(decode(line).value)
  {
    assert pre + [line] + post == pre + ([line] + post);
    LineTokensAppend(pre, [line] + post, decode);
  }


  lemma {:induction false} FailureAt(items: seq<ChunkItem>, c: nat)
    requires c < |items| && items[c].ChunkFailed?
    requires forall k :: 0 <= k < c ==> items[k].Chunk?
    ensures FirstFailure(items) == c
    decreases c
  {
    if c > 0 {
      FailureAt(items[1..], c - 1);
    }
  }

  lemma {:induction false} NoFailure(items: seq<ChunkItem>)
    requires forall k :: 0 <= k < |items| ==> items[k].Chunk?
    ensures FirstFailure(items) == |items|
    decreases |items|
  {
    if items != [] {
      NoFailure(items[1..]);
    }
  }
}
