/**
 * The line-oriented processing of a streamed chat reply: which lines of a
 * decoded chunk are accepted, which token each accepted line contributes, and
 * the reply text those tokens add up to.
 */
module Frames {
  import opened JsString

  datatype Option<+T> = None | Some(value: T)

  /**
   * What `json.choices[0]?.delta?.content` evaluates to once `JSON.parse` and the
   * lookup have not thrown: absent, a string, or some other JSON value (shown by
   * its JavaScript string conversion, with its truthiness).
   */
  datatype Field = Missing | Str(s: string) | NonString(rendered: string, truthy: bool)

  /**
   * `JSON.parse` of a payload followed by the field lookup, which lies outside
   * this model; `None` stands for "threw" (invalid JSON, or no `choices` array).
   */
  type Parser = string -> Option<Field>

  const DataPrefix: string := "data:"
  const DoneMarker: string := "[DONE]"

  predicate Truthy(f: Field)
  {
    match f
    case Missing => false
    case Str(s) => s != ""
    case NonString(_, truthy) => truthy
  }

  /** `content || ''`: a missing or falsy content contributes the empty string. */
  function TokenOf(f: Field): (token: string)
    ensures !Truthy(f) ==> token == ""
    ensures f.Str? ==> token == f.s
    ensures f.NonString? && f.truthy ==> token == f.rendered
  {
    match f
    case Missing => ""
    case Str(s) => s
    case NonString(rendered, truthy) => if truthy then rendered else ""
  }

  /** The guard on each line: it starts with `data:` and contains no `[DONE]` anywhere. */
  predicate IsDataLine(line: string)
  {
    StartsWith(line, DataPrefix) && !Includes(line, DoneMarker)
  }

  /** `line.slice(5)`: what follows the `data:` prefix. */
  function Payload(line: string): (payload: string)
    requires StartsWith(line, DataPrefix)
    ensures DataPrefix + payload == line
  {
    line[5..]
  }

  /**
   * The token a line contributes, or `None` when the line is skipped: it fails the
   * guard, or parsing its payload throws.
   */
  function LineToken(parse: Parser, line: string): Option<string>
  {
    if IsDataLine(line) then
      match parse(Payload(line))
      case None => None
      case Some(f) => Some(TokenOf(f))
    else None
  }

  /**
   * A line is accepted exactly when it begins with `data:`, has no `[DONE]` at any
   * position, and its payload parses; it then contributes `content || ''`.
   */
  lemma LineAccepted(parse: Parser, line: string)
    ensures LineToken(parse, line).Some? <==>
      |line| >= 5 && line[..5] == "data:" && (forall i :: !OccursAt(line, "[DONE]", i))
      && parse(line[5..]).Some?
    ensures LineToken(parse, line).Some? ==> LineToken(parse, line).value == TokenOf(parse(line[5..]).value)
  {
    IncludesIff(line, DoneMarker);
  }

  function TokensOf(token: Option<string>): seq<string>
  {
    if token.Some? then [token.value] else []
  }

  /** The tokens of the accepted lines, in line order. */
  function AcceptedTokens(parse: Parser, lines: seq<string>): (tokens: seq<string>)
    ensures |tokens| <= |lines|
  {
    if |lines| == 0 then []
    else AcceptedTokens(parse, lines[..|lines| - 1]) + TokensOf(LineToken(parse, lines[|lines| - 1]))
  }

  /** The tokens appended one after the other. */
  function Concat(tokens: seq<string>): string
  {
    if |tokens| == 0 then "" else Concat(tokens[..|tokens| - 1]) + tokens[|tokens| - 1]
  }

  /** The lines of each chunk, chunk after chunk; a line never spans two chunks. */
  function Lines(chunks: seq<string>): (lines: seq<string>)
    ensures |lines| >= |chunks|
  {
    if |chunks| == 0 then []
    else Lines(chunks[..|chunks| - 1]) + Split(chunks[|chunks| - 1], '\n')
  }

  /** The reply text after the given chunks have been read. */
  function Reply(parse: Parser, chunks: seq<string>): string
  {
    Concat(AcceptedTokens(parse, Lines(chunks)))
  }

  lemma {:induction false} AcceptedTokensAppend(parse: Parser, a: seq<string>, b: seq<string>)
    ensures AcceptedTokens(parse, a + b) == AcceptedTokens(parse, a) + AcceptedTokens(parse, b)
    decreases |b|
  {
    if |b| == 0 {
      assert a + b == a;
    } else {
      var b' := b[..|b| - 1];
      assert (a + b)[..|a + b| - 1] == a + b';
      AcceptedTokensAppend(parse, a, b');
    }
  }

  lemma {:induction false} ConcatAppend(a: seq<string>, b: seq<string>)
    ensures Concat(a + b) == Concat(a) + Concat(b)
    decreases |b|
  {
    if |b| == 0 {
      assert a + b == a;
    } else {
      var b' := b[..|b| - 1];
      assert (a + b)[..|a + b| - 1] == a + b';
      ConcatAppend(a, b');
    }
  }

  lemma {:induction false} LinesAppend(a: seq<string>, b: seq<string>)
    ensures Lines(a + b) == Lines(a) + Lines(b)
    decreases |b|
  {
    if |b| == 0 {
      assert a + b == a;
    } else {
      var b' := b[..|b| - 1];
      assert (a + b)[..|a + b| - 1] == a + b';
      LinesAppend(a, b');
    }
  }

  /**
   * Each line between two others contributes exactly its own token, if any:
   * a skipped line (failing the guard or unparsable) neither ends the stream
   * nor disturbs the lines around it.
   */
  lemma LineContribution(parse: Parser, before: seq<string>, line: string, after: seq<string>)
    ensures Concat(AcceptedTokens(parse, before + [line] + after))
         == Concat(AcceptedTokens(parse, before)) + Concat(TokensOf(LineToken(parse, line)))
            + Concat(AcceptedTokens(parse, after))
  {
    AcceptedTokensAppend(parse, before + [line], after);
    AcceptedTokensAppend(parse, before, [line]);
    assert [line][..0] == [];
    ConcatAppend(AcceptedTokens(parse, before) + TokensOf(LineToken(parse, line)), AcceptedTokens(parse, after));
    ConcatAppend(AcceptedTokens(parse, before), TokensOf(LineToken(parse, line)));
  }

  /** A line mentioning `[DONE]` adds nothing, and the lines after it are still read. */
  lemma DoneLineDoesNotEndStream(parse: Parser, before: seq<string>, line: string, after: seq<string>)
    requires Includes(line, DoneMarker)
    ensures Concat(AcceptedTokens(parse, before + [line] + after))
         == Concat(AcceptedTokens(parse, before)) + Concat(AcceptedTokens(parse, after))
  {
    LineContribution(parse, before, line, after);
  }

  /** Reading one more chunk extends the reply by that chunk's accepted tokens. */
  lemma ReplyStep(parse: Parser, chunks: seq<string>, i: nat)
    requires i < |chunks|
    ensures Reply(parse, chunks[..i + 1])
         == Reply(parse, chunks[..i]) + Concat(AcceptedTokens(parse, Split(chunks[i], '\n')))
  {
    assert chunks[..i + 1][..i] == chunks[..i];
    AcceptedTokensAppend(parse, Lines(chunks[..i]), Split(chunks[i], '\n'));
    ConcatAppend(AcceptedTokens(parse, Lines(chunks[..i])), AcceptedTokens(parse, Split(chunks[i], '\n')));
  }

  /** The loop's step: one more line adds its own token, if any. */
  lemma TokensStep(parse: Parser, lines: seq<string>, j: nat)
    requires j < |lines|
    ensures AcceptedTokens(parse, lines[..j + 1])
         == AcceptedTokens(parse, lines[..j]) + TokensOf(LineToken(parse, lines[j]))
  {
    assert lines[..j + 1][..j] == lines[..j];
  }

  /**
   * Associativity, stated over an arbitrary element type so that the solver
   * regroups whole sequences instead of reasoning about their characters.
   */
  lemma Regroup<T>(a: seq<T>, b: seq<T>, c: seq<T>)
    ensures a + b + c == a + (b + c)
  {
  }

  /** The chunk loop's step, as the reply and the "some line accepted" test see it. */
  lemma ReplyLineStep(parse: Parser, lines: seq<string>, j: nat, reply: string, extended: string)
    requires j < |lines|
    requires extended == reply + Concat(AcceptedTokens(parse, lines[..j]))
    ensures extended + Concat(TokensOf(LineToken(parse, lines[j])))
         == reply + Concat(AcceptedTokens(parse, lines[..j + 1]))
    ensures AcceptedTokens(parse, lines[..j + 1]) == []
        <==> AcceptedTokens(parse, lines[..j]) == [] && LineToken(parse, lines[j]).None?
  {
    var done := AcceptedTokens(parse, lines[..j]);
    var more := TokensOf(LineToken(parse, lines[j]));
    TokensStep(parse, lines, j);
    ConcatAppend(done, more);
    Regroup(reply, Concat(done), Concat(more));
  }

  lemma LinesOne(chunk: string)
    ensures Lines([chunk]) == Split(chunk, '\n')
  {
    assert [chunk][..0] == [];
  }

  lemma LinesTwo(first: string, second: string)
    ensures Lines([first, second]) == Split(first, '\n') + Split(second, '\n')
  {
    assert [first, second] == [first] + [second];
    LinesAppend([first], [second]);
    LinesOne(first);
    LinesOne(second);
  }

  lemma AcceptedOne(parse: Parser, line: string)
    ensures AcceptedTokens(parse, [line]) == TokensOf(LineToken(parse, line))
  {
    assert [line][..0] == [];
  }

  lemma ConcatOne(token: string)
    ensures Concat([token]) == token
  {
    assert [token][..0] == [];
  }

  lemma LinesAround(earlier: seq<string>, middle: seq<string>, later: seq<string>)
    ensures Lines(earlier + middle + later) == Lines(earlier) + Lines(middle) + Lines(later)
  {
    LinesAppend(earlier + middle, later);
    LinesAppend(earlier, middle);
  }

  lemma CutChunkLines(x: string, y: string)
    ensures Lines([x + "\n", y]) == Split(x, '\n') + ([""] + Split(y, '\n'))
  {
    SplitTrailingSeparator(x, '\n');
    LinesTwo(x + "\n", y);
    RegroupFour([], Split(x, '\n'), [""], Split(y, '\n'));
  }

  lemma WholeChunkLines(x: string, y: string)
    ensures Lines([x + "\n" + y]) == Split(x, '\n') + Split(y, '\n')
  {
    SplitAtSeparator(x, y, '\n');
    LinesOne(x + "\n" + y);
  }

  /** An empty line, like any skipped line, leaves the tokens of its neighbours as they are. */
  lemma SkippedLineIgnored(parse: Parser, before: seq<string>, line: string, after: seq<string>)
    requires LineToken(parse, line).None?
    ensures Concat(AcceptedTokens(parse, before + [line] + after)) == Concat(AcceptedTokens(parse, before + after))
  {
    LineContribution(parse, before, line, after);
    AcceptedTokensAppend(parse, before, after);
    ConcatAppend(AcceptedTokens(parse, before), AcceptedTokens(parse, after));
  }

  lemma RegroupFour<T>(e: seq<T>, p: seq<T>, q: seq<T>, l: seq<T>)
    ensures e + (p + q) + l == (e + p) + (q + l)
  {
  }

  lemma RegroupAround<T>(e: seq<T>, p: seq<T>, blank: T, q: seq<T>, l: seq<T>)
    ensures e + (p + ([blank] + q)) + l == (e + p) + [blank] + (q + l)
  {
  }

  lemma BoundaryLines(earlier: seq<string>, x: string, y: string, later: seq<string>)
    ensures Lines(earlier + [x + "\n", y] + later)
         == (Lines(earlier) + Split(x, '\n')) + [""] + (Split(y, '\n') + Lines(later))
  {
    CutChunkLines(x, y);
    LinesAround(earlier, [x + "\n", y], later);
    RegroupAround(Lines(earlier), Split(x, '\n'), "", Split(y, '\n'), Lines(later));
  }

  lemma JoinedLines(earlier: seq<string>, x: string, y: string, later: seq<string>)
    ensures Lines(earlier + [x + "\n" + y] + later)
         == (Lines(earlier) + Split(x, '\n')) + (Split(y, '\n') + Lines(later))
  {
    WholeChunkLines(x, y);
    LinesAround(earlier, [x + "\n" + y], later);
    RegroupFour(Lines(earlier), Split(x, '\n'), Split(y, '\n'), Lines(later));
  }

  /** A chunk boundary right after a newline does not change the reply. */
  lemma ChunkBoundaryAfterNewline(parse: Parser, earlier: seq<string>, x: string, y: string, later: seq<string>)
    ensures Reply(parse, earlier + [x + "\n", y] + later) == Reply(parse, earlier + [x + "\n" + y] + later)
  {
    BoundaryLines(earlier, x, y, later);
    JoinedLines(earlier, x, y, later);
    assert LineToken(parse, "").None?;
    SkippedLineIgnored(parse, Lines(earlier) + Split(x, '\n'), "", Split(y, '\n') + Lines(later));
  }

  /** The reply of a single chunk holding a single line is that line's token, if any. */
  lemma ReplyOfOneLine(parse: Parser, line: string)
    requires '\n' !in line
    ensures Reply(parse, [line]) == Concat(TokensOf(LineToken(parse, line)))
  {
    SplitWhole(line, '\n');
    LinesOne(line);
    AcceptedOne(parse, line);
  }

  lemma FrameHasNoNewline(payload: string)
    requires '\n' !in payload
    ensures '\n' !in DataPrefix + payload
  {
    var line := DataPrefix + payload;
    assert forall i :: 0 <= i < |line| ==> line[i] == if i < 5 then DataPrefix[i] else payload[i - 5];
  }

  /** A whole frame in one chunk contributes its token. */
  lemma WholeFrameKept(parse: Parser, payload: string, token: string)
    requires '\n' !in payload && !Includes(DataPrefix + payload, DoneMarker)
    requires parse(payload) == Some(Str(token))
    ensures Reply(parse, [DataPrefix + payload]) == token
  {
    var line := DataPrefix + payload;
    FrameHasNoNewline(payload);
    assert StartsWith(line, DataPrefix) && Payload(line) == payload;
    assert LineToken(parse, line) == Some(token);
    ReplyOfOneLine(parse, line);
    ConcatOne(token);
  }

  /** Both halves of a frame cut inside its prefix fail the guard. */
  lemma CutFrameHalves(payload: string, k: nat)
    requires '\n' !in payload
    requires 0 < k < |DataPrefix|
    ensures '\n' !in (DataPrefix + payload)[..k] && '\n' !in (DataPrefix + payload)[k..]
    ensures !IsDataLine((DataPrefix + payload)[..k]) && !IsDataLine((DataPrefix + payload)[k..])
  {
    var line := DataPrefix + payload;
    FrameHasNoNewline(payload);
    var first, second := line[..k], line[k..];
    assert forall i :: 0 <= i < |first| ==> first[i] == line[i];
    assert forall i :: 0 <= i < |second| ==> second[i] == line[k + i];
    assert |second| > 0 && second[0] == DataPrefix[k] != 'd';
  }

  /**
   * A frame cut inside its `data:` prefix by a chunk boundary is lost: each half is
   * a line of its own and neither passes the guard, whereas the same frame inside
   * one chunk contributes its token.
   */
  lemma FrameSplitInPrefixIsLost(parse: Parser, payload: string, token: string, k: nat)
    requires '\n' !in payload && !Includes(DataPrefix + payload, DoneMarker)
    requires parse(payload) == Some(Str(token))
    requires 0 < k < |DataPrefix|
    ensures Reply(parse, [DataPrefix + payload]) == token
    ensures Reply(parse, [(DataPrefix + payload)[..k], (DataPrefix + payload)[k..]]) == ""
  {
    WholeFrameKept(parse, payload, token);
    var first, second := (DataPrefix + payload)[..k], (DataPrefix + payload)[k..];
    CutFrameHalves(payload, k);
    SplitWhole(first, '\n');
    SplitWhole(second, '\n');
    LinesTwo(first, second);
    assert [first] + [second] == [first, second];
    AcceptedTokensAppend(parse, [first], [second]);
    AcceptedOne(parse, first);
    AcceptedOne(parse, second);
  }

  const HelloPayload: string := " {\"choices\":[{\"delta\":{\"content\":\"He\"}}]}"
  const LloPayload: string := " {\"choices\":[{\"delta\":{\"content\":\"llo\"}}]}"
  const DoneLine: string := DataPrefix + " " + DoneMarker

  /** How each line of the example stream is classified. */
  lemma ExampleLineTokens(parse: Parser)
    requires parse(HelloPayload) == Some(Str("He")) && parse(LloPayload) == Some(Str("llo"))
    ensures LineToken(parse, DataPrefix + HelloPayload) == Some("He")
    ensures LineToken(parse, DataPrefix + LloPayload) == Some("llo")
    ensures LineToken(parse, DoneLine) == None
    ensures LineToken(parse, "") == None
  {
    var l1, l2 := DataPrefix + HelloPayload, DataPrefix + LloPayload;
    assert 'D' !in l1 && 'D' !in l2;
    NotIncludesWithoutChar(l1, DoneMarker, 1);
    NotIncludesWithoutChar(l2, DoneMarker, 1);
    assert l1[5..] == HelloPayload && l2[5..] == LloPayload;
    assert OccursAt(DoneLine, DoneMarker, 6);
    IncludesIff(DoneLine, DoneMarker);
  }

  /** A chunk of three newline-terminated lines splits into them and a final empty line. */
  lemma ThreeLineChunk(a: string, b: string, c: string)
    requires '\n' !in a && '\n' !in b && '\n' !in c
    ensures Lines([a + "\n" + b + "\n" + c + "\n"]) == [a, b, c, ""]
  {
    var chunk := a + "\n" + b + "\n" + c + "\n";
    SplitJoin([a, b, c, ""], '\n');
    assert [a, b, c, ""][1..] == [b, c, ""] && [b, c, ""][1..] == [c, ""] && [c, ""][1..] == [""];
    assert Join([c, ""], '\n') == c + "\n" + "";
    assert Join([b, c, ""], '\n') == b + "\n" + (c + "\n" + "");
    assert Join([a, b, c, ""], '\n') == a + "\n" + (b + "\n" + (c + "\n" + ""));
    assert chunk == a + "\n" + (b + "\n" + (c + "\n" + ""));
    LinesOne(chunk);
  }

  /** Two accepted lines followed by two skipped ones add up to the two tokens. */
  lemma TwoTokensThenSkipped(parse: Parser, a: string, b: string, c: string, d: string, ta: string, tb: string)
    requires LineToken(parse, a) == Some(ta) && LineToken(parse, b) == Some(tb)
    requires LineToken(parse, c).None? && LineToken(parse, d).None?
    ensures Concat(AcceptedTokens(parse, [a, b, c, d])) == ta + tb
  {
    assert [a, b, c, d][..3] == [a, b, c] && [a, b, c][..2] == [a, b] && [a, b][..1] == [a];
    AcceptedOne(parse, a);
    assert AcceptedTokens(parse, [a, b]) == [ta] + [tb];
    assert AcceptedTokens(parse, [a, b, c]) == [ta, tb] + [];
    assert AcceptedTokens(parse, [a, b, c, d]) == [ta, tb];
    assert [ta, tb][..1] == [ta];
    ConcatOne(ta);
  }

  /**
   * The stream of the example conversation: two content frames and the closing
   * `[DONE]` frame, all in one chunk, give the reply "He" + "llo".
   */
  lemma HelloStream(parse: Parser)
    requires parse(HelloPayload) == Some(Str("He")) && parse(LloPayload) == Some(Str("llo"))
    ensures Reply(parse, [DataPrefix + HelloPayload + "\n" + DataPrefix + LloPayload + "\n" + DoneLine + "\n"])
         == "Hello"
  {
    var l1, l2 := DataPrefix + HelloPayload, DataPrefix + LloPayload;
    ExampleLineTokens(parse);
    assert '\n' !in HelloPayload;
    FrameHasNoNewline(HelloPayload);
    assert '\n' !in LloPayload;
    FrameHasNoNewline(LloPayload);
    FrameHasNoNewline(" " + DoneMarker);
    ThreeLineChunk(l1, l2, DoneLine);
    assert DataPrefix + HelloPayload + "\n" + DataPrefix + LloPayload == l1 + "\n" + l2;
    TwoTokensThenSkipped(parse, l1, l2, DoneLine, "", "He", "llo");
  }
}
