/**
 * The chat view: the conversation, the input field and the three flags, and
 * the handlers that change them. Network replies, the speech recogniser's
 * events and the parsed stream arrive as parameters; each handler runs to
 * completion before the next one starts.
 */
module Chat {
  import opened JsString
  import opened Frames

  datatype Role = User | Assistant

  datatype Message = Message(role: Role, content: string)

  /** The JSON body of `POST /chat`: the submitted text and the conversation before it. */
  datatype Request = Request(message: string, history: seq<Message>)

  /**
   * How the chat request went: something threw before the empty assistant message
   * went in (`fetch`, or `getReader` on a response without a body), or the body
   * yielded these decoded chunks and then ended or threw.
   */
  datatype ChatOutcome = ConnectFailed | Streamed(chunks: seq<string>, broken: bool)

  /**
   * How the upload went: the request, `res.json()` or the `text` lookup (on a JSON
   * `null`) threw, or the JSON arrived with or without a `text` field.
   */
  datatype UploadOutcome = UploadFailed | Uploaded(text: Option<string>)

  const Greeting: Message := Message(Assistant,
    "Hello! I\U{2019}m your AI assistant. I can search, read files, and listen to your voice. Ask me anything!")

  const ConnectFailure: Message := Message(Assistant, "\U{274C} Failed to connect. Check backend or API key.")

  const ReadFailure: Message := Message(Assistant, "\U{274C} Failed to read file.")

  /** The guard of the submit handler lets through: `!input.trim() || loading` turns it away. */
  predicate CanSubmit(input: string, loading: bool)
  {
    !IsBlank(input) && !loading
  }

  /** The conversation with the content of its last message replaced. */
  function SetLast(messages: seq<Message>, content: string): (updated: seq<Message>)
    requires |messages| > 0
    ensures |updated| == |messages|
    ensures forall i :: 0 <= i < |messages| - 1 ==> updated[i] == messages[i]
    ensures updated[|messages| - 1].role == messages[|messages| - 1].role
    ensures updated[|messages| - 1].content == content
  {
    messages[..|messages| - 1] + [messages[|messages| - 1].(content := content)]
  }

  /** Overwriting the last content twice leaves only the second write. */
  lemma SetLastTwice(messages: seq<Message>, first: string, second: string)
    requires |messages| > 0
    ensures SetLast(SetLast(messages, first), second) == SetLast(messages, second)
  {
  }

  /** Overwriting the last content of a conversation that ends in `last`. */
  lemma SetLastAppended(earlier: seq<Message>, last: Message, content: string)
    ensures SetLast(earlier + [last], content) == earlier + [Message(last.role, content)]
  {
    assert (earlier + [last])[..|earlier|] == earlier;
  }

  /** A template literal shows a missing property as `undefined`. */
  function Shown(text: Option<string>): string
  {
    if text.Some? then text.value else "undefined"
  }

  const UploadLead: string := "I've read your file: "
  const UploadMiddle: string := ". Here's what it says:\n\n\""
  const UploadTail: string := "\"\n\nAsk me questions about it!"

  /** The message announcing an uploaded file's extracted text. */
  function UploadText(name: string, text: Option<string>): string
  {
    UploadLead + name + UploadMiddle + Shown(text) + UploadTail
  }

  /** Where a piece sits inside a three-part string. */
  lemma OccursInMiddle(before: string, piece: string, after: string)
    ensures Includes(before + piece + after, piece)
  {
    var whole := before + piece + after;
    assert whole[|before|..|before| + |piece|] == piece;
    assert OccursAt(whole, piece, |before|);
    IncludesIff(whole, piece);
  }

  /** The announcement quotes both the file name and the returned text. */
  lemma UploadTextQuotes(name: string, text: string)
    ensures Includes(UploadText(name, Some(text)), name)
    ensures Includes(UploadText(name, Some(text)), text)
  {
    var msg := UploadText(name, Some(text));
    assert msg == UploadLead + name + (UploadMiddle + text + UploadTail);
    OccursInMiddle(UploadLead, name, UploadMiddle + text + UploadTail);
    assert msg == (UploadLead + name + UploadMiddle) + text + UploadTail;
    OccursInMiddle(UploadLead + name + UploadMiddle, text, UploadTail);
  }

  class ChatView {
    var messages: seq<Message>
    var input: string
    var loading: bool
    var darkMode: bool
    var isListening: bool
    /** Whether the environment offers a speech recogniser, decided once at mount. */
    const hasRecognizer: bool

    /** The conversation is never empty: it starts with the greeting and only grows. */
    ghost predicate Valid()
      reads this`messages
    {
      |messages| > 0
    }

    constructor (hasRecognizer: bool)
      ensures Valid()
      ensures messages == [Greeting] && input == ""
      ensures !loading && !darkMode && !isListening
      ensures this.hasRecognizer == hasRecognizer
    {
      messages := [Greeting];
      input := "";
      loading, darkMode, isListening := false, false, false;
      this.hasRecognizer := hasRecognizer;
    }

    /** The input field's `onChange`: the field shows what was typed. */
    method EditInput(text: string)
      modifies this`input
      ensures input == text
    {
      input := text;
    }

    /**
     * The first half of the submit handler: the guard, then the user message,
     * the cleared field and the loading flag; the request carries the values
     * read before these updates.
     */
    method Send() returns (request: Option<Request>)
      requires Valid()
      modifies this`messages, this`input, this`loading
      ensures Valid()
      ensures request.Some? <==> old(CanSubmit(input, loading))
      ensures request.None? ==> messages == old(messages) && input == old(input) && loading == old(loading)
      ensures request.Some? ==>
        request.value == Request(old(input), old(messages))
        && messages == old(messages) + [Message(User, old(input))]
        && input == "" && loading
    {
      TrimEmptyIff(input);
      if Trim(input) == "" || loading {
        return None;
      }
      var submitted, history := input, messages;
      messages := messages + [Message(User, submitted)];
      input := "";
      loading := true;
      request := Some(Request(submitted, history));
    }

    /** Once the response has arrived: the empty assistant message that the reply fills in. */
    method OpenReply()
      requires Valid()
      modifies this`messages
      ensures Valid()
      ensures messages == old(messages) + [Message(Assistant, "")]
    {
      messages := messages + [Message(Assistant, "")];
    }

    /**
     * One line of a chunk: a line that passes the guard and whose payload parses
     * extends the reply and overwrites the last message's content with it; any
     * other line, and a payload whose parsing throws, changes nothing.
     */
    method ReceiveLine(line: string, parse: Parser, reply: string) returns (extended: string)
      requires Valid()
      modifies this`messages
      ensures Valid()
      ensures extended == reply + Concat(TokensOf(LineToken(parse, line)))
      ensures messages == if LineToken(parse, line).Some? then SetLast(old(messages), extended) else old(messages)
    {
      extended := reply;
      if IsDataLine(line) {
        match parse(Payload(line)) {
          case Some(field) =>
            var token := TokenOf(field);
            ConcatOne(token);
            extended := extended + token;
            messages := SetLast(messages, extended);
          case None =>
        }
      }
    }

    /** One decoded chunk, cut at each newline, its lines taken in order. */
    method ReceiveChunk(chunk: string, parse: Parser, reply: string) returns (extended: string)
      requires Valid()
      modifies this`messages
      ensures Valid()
      ensures extended == reply + Concat(AcceptedTokens(parse, Split(chunk, '\n')))
      ensures messages == if AcceptedTokens(parse, Split(chunk, '\n')) == [] then old(messages)
                          else SetLast(old(messages), extended)
    {
      var lines := Split(chunk, '\n');
      extended := reply;
      var j := 0;
      assert lines[..0] == [];
      while j < |lines|
        invariant 0 <= j <= |lines|
        invariant |messages| > 0
        invariant extended == reply + Concat(AcceptedTokens(parse, lines[..j]))
        invariant messages == if AcceptedTokens(parse, lines[..j]) == [] then old(messages)
                              else SetLast(old(messages), extended)
      {
        ghost var previous := extended;
        ghost var before := messages;
        ghost var untouched := AcceptedTokens(parse, lines[..j]) == [];
        ReplyLineStep(parse, lines, j, reply, extended);
        extended := ReceiveLine(lines[j], parse, extended);
        if LineToken(parse, lines[j]).Some? {
          assert messages == SetLast(before, extended);
          if !untouched {
            SetLastTwice(old(messages), previous, extended);
          }
          assert AcceptedTokens(parse, lines[..j + 1]) != [];
          assert messages == SetLast(old(messages), extended);
        } else {
          assert Concat([]) == "";
          assert extended == previous && messages == before;
          assert AcceptedTokens(parse, lines[..j + 1]) == [] <==> untouched;
        }
        j := j + 1;
      }
      assert lines[..j] == lines;
    }

    /**
     * The read loop: the empty assistant message goes in once the response has
     * arrived, and after the chunks it holds the reply they add up to.
     */
    method ReceiveStream(chunks: seq<string>, parse: Parser) returns (reply: string)
      requires Valid()
      modifies this`messages
      ensures Valid()
      ensures reply == Reply(parse, chunks)
      ensures messages == old(messages) + [Message(Assistant, reply)]
    {
      var sent := messages;
      OpenReply();
      reply := "";
      var i := 0;
      while i < |chunks|
        invariant 0 <= i <= |chunks|
        invariant reply == Reply(parse, chunks[..i])
        invariant messages == sent + [Message(Assistant, reply)]
      {
        ReplyStep(parse, chunks, i);
        var previous := reply;
        reply := ReceiveChunk(chunks[i], parse, reply);
        if AcceptedTokens(parse, Split(chunks[i], '\n')) == [] {
          assert Concat([]) == "";
          assert reply == previous;
        } else {
          SetLastAppended(sent, Message(Assistant, previous), reply);
        }
        i := i + 1;
      }
      assert chunks[..i] == chunks;
    }

    /** The `catch` and `finally` of the submit handler. */
    method Finish(failed: bool)
      requires Valid()
      modifies this`messages, this`loading
      ensures Valid()
      ensures messages == old(messages) + (if failed then [ConnectFailure] else [])
      ensures !loading
    {
      if failed {
        messages := messages + [ConnectFailure];
      }
      loading := false;
    }

    /** The whole submit handler, with the network's behaviour given by `outcome`. */
    method Submit(outcome: ChatOutcome, parse: Parser) returns (request: Option<Request>)
      requires Valid()
      modifies this`messages, this`input, this`loading
      ensures Valid()
      ensures request.Some? <==> old(CanSubmit(input, loading))
      ensures request.None? ==> messages == old(messages) && input == old(input) && loading == old(loading)
      ensures request.Some? ==> request.value == Request(old(input), old(messages)) && input == "" && !loading
      ensures request.Some? && outcome.ConnectFailed? ==>
        messages == old(messages) + [Message(User, old(input)), ConnectFailure]
      ensures request.Some? && outcome.Streamed? ==>
        messages == old(messages) + [Message(User, old(input)), Message(Assistant, Reply(parse, outcome.chunks))]
                    + (if outcome.broken then [ConnectFailure] else [])
    {
      request := Send();
      if request.None? {
        return;
      }
      match outcome {
        case ConnectFailed =>
          Finish(true);
        case Streamed(chunks, broken) =>
          var reply := ReceiveStream(chunks, parse);
          Finish(broken);
      }
    }

    /** The file picker's handler: nothing without a file, else one assistant message either way. */
    method UploadFile(file: Option<string>, outcome: UploadOutcome)
      requires Valid()
      modifies this`messages
      ensures Valid()
      ensures file.None? ==> messages == old(messages)
      ensures file.Some? && outcome.Uploaded? ==>
        messages == old(messages) + [Message(Assistant, UploadText(file.value, outcome.text))]
      ensures file.Some? && outcome.UploadFailed? ==> messages == old(messages) + [ReadFailure]
    {
      if file.None? {
        return;
      }
      match outcome {
        case Uploaded(text) =>
          messages := messages + [Message(Assistant, UploadText(file.value, text))];
        case UploadFailed =>
          messages := messages + [ReadFailure];
      }
    }

    /** The microphone button: starts the recogniser only when there is one and it is idle. */
    method StartListening() returns (started: bool)
      modifies this`isListening
      ensures started <==> hasRecognizer && !old(isListening)
      ensures isListening == (old(isListening) || started)
    {
      started := hasRecognizer && !isListening;
      if started {
        isListening := true;
      }
    }

    /** The recogniser's `onresult`: the transcript replaces the input; listening goes on. */
    method Recognized(transcript: string)
      requires hasRecognizer
      modifies this`input
      ensures input == transcript
    {
      input := transcript;
    }

    /** The recogniser's `onend`. */
    method RecognitionEnded()
      requires hasRecognizer
      modifies this`isListening
      ensures !isListening
    {
      isListening := false;
    }

    /** The theme button. */
    method ToggleTheme()
      modifies this`darkMode
      ensures darkMode == !old(darkMode)
    {
      darkMode := !darkMode;
    }
  }

  /** Toggling the theme twice restores it and leaves the conversation as it was. */
  method ToggleThemeTwice(view: ChatView)
    modifies view
    ensures view.darkMode == old(view.darkMode)
    ensures view.messages == old(view.messages) && view.input == old(view.input)
  {
    view.ToggleTheme();
    view.ToggleTheme();
  }

  /** Listening, then a recognised phrase: the phrase replaces the typed text, and `onend` stops listening. */
  method DictateOver(view: ChatView, typed: string, phrase: string)
    requires view.hasRecognizer && !view.isListening
    modifies view
    ensures view.input == phrase && !view.isListening
  {
    view.EditInput(typed);
    var started := view.StartListening();
    assert started && view.isListening;
    view.Recognized(phrase);
    assert view.isListening;
    view.RecognitionEnded();
  }
}
