/** The command front end of the bot (exec/bot.py): which messages it
    accepts, how it picks the code block, its language and its input out of
    the parsed message, which runner a language selects, and how it folds
    the runner's chunk stream into the plaintext output, the HTML output,
    the return value and the exception text that it reports. */
module Bot {
  import opened Base
  import opened Html
  import opened Strings

  datatype MessageType = Text | Notice | OtherType(name: string)
  datatype Content = Content(msgtype: MessageType, body: string, formattedBody: Option<string>)
  datatype MessageEvent = MessageEvent(sender: string, content: Content)
  datatype Config = Config(prefix: string, userbot: bool, whitelist: set<string>)

  /** An entity of the parsed command: its type, the language given for a
      code block, and the span of text it covers. */
  datatype EntityType = Preformatted | OtherEntity(name: string)
  datatype Entity = Entity(etype: EntityType, language: string, offset: nat, length: nat)
  /** The parsed message: its plain text and its entities, in order. */
  datatype Command = Command(text: string, entities: seq<Entity>)

  datatype RunnerKind = PythonRunner | ShellRunner
  datatype Dispatch = NoRunner | Run(runner: RunnerKind) | Unsupported(lang: string)

  /** The exception header and text that `runner.format_exception` gives. */
  type ExceptionText = (Option<string>, Option<string>)

  /** Why a run that got its first status message never gets its final one:
      the shell runner's `run` is a plain coroutine, which `async for`
      rejects with a TypeError; the Python runner's stream re-raised the
      user code's exception; or that stream never yields again. */
  datatype Failure = NotAsyncIterable | RunnerRaised | StreamStalls

  /** What handling one message comes to: nothing, the reply that the
      language is unsupported, a run whose final status carries these, or a
      run that only ever shows its first status. */
  datatype Reply =
    | Ignored
    | UnsupportedLanguage(message: string)
    | Executed(runner: RunnerKind, msgtype: MessageType, code: string, lang: string, stdin: string,
               output: string, outputHtml: string, returnValue: PyValue,
               exceptionHeader: Option<string>, exception: Option<string>)
    | Unfinished(runner: RunnerKind, msgtype: MessageType, code: string, lang: string, failure: Failure)

  /** `escape`: None stays None; a string is HTML-escaped, which leaves no
      markup character in it and can be read back. */
  function Escape(val: Option<string>): (r: Option<string>)
    ensures r.None? <==> val.None?
    ensures r.Some? ==> r.value == HtmlEscape(val.value)
    ensures r.Some? ==> Unescape(r.value) == val.value
    ensures r.Some? ==> forall i :: 0 <= i < |r.value| ==> !IsMarkupChar(r.value[i])
  {
    match val
    case None => None
    case Some(s) =>
      UnescapeHtmlEscape(s);
      HtmlEscapeHasNoMarkup(s);
      Some(HtmlEscape(s))
  }

  /** Python's truth value of an optional string. */
  predicate Truthy(s: Option<string>) {
    s.Some? && s.value != ""
  }

  /** The guard at the top of `exec`. */
  predicate Accepts(cfg: Config, evt: MessageEvent)
    ensures Accepts(cfg, evt) ==> evt.sender in cfg.whitelist && |cfg.prefix| <= |evt.content.body|
    ensures Accepts(cfg, evt) ==> evt.content.body[..|cfg.prefix|] == cfg.prefix
    ensures evt.content.formattedBody.None? || evt.content.formattedBody == Some("") ==> !Accepts(cfg, evt)
    ensures evt.content.msgtype != Text ==> !Accepts(cfg, evt)
  {
    && evt.content.msgtype == Text
    && evt.sender in cfg.whitelist
    && StartsWith(evt.content.body, cfg.prefix)
    && Truthy(evt.content.formattedBody)
  }

  /** Python's `text[offset:offset + length]`, which clamps to the string. */
  function Slice(text: string, offset: nat, length: nat): (r: string)
    ensures |r| <= length
    ensures offset + length <= |text| ==> r == text[offset..offset + length]
    ensures offset >= |text| ==> r == ""
    ensures offset <= |text| ==> r == text[offset..if offset + length <= |text| then offset + length else |text|]
  {
    var lo := if offset < |text| then offset else |text|;
    var hi := if offset + length < |text| then offset + length else |text|;
    text[lo..hi]
  }

  function BlockText(text: string, e: Entity): string {
    Slice(text, e.offset, e.length)
  }

  /** A block that can be the code: preformatted, with a non-empty text. */
  predicate IsCodeBlock(text: string, e: Entity) {
    e.etype == Preformatted && BlockText(text, e) != ""
  }

  /** A block whose text is appended to the input of the run. */
  predicate IsStdinBlock(e: Entity) {
    e.etype == Preformatted && (Lower(e.language) == "stdin" || Lower(e.language) == "input")
  }

  /** The index of the first code block, if any. */
  function FirstCode(text: string, ents: seq<Entity>): (r: Option<nat>)
    ensures r.Some? ==> r.value < |ents| && IsCodeBlock(text, ents[r.value])
    ensures r.Some? ==> forall j :: 0 <= j < r.value ==> !IsCodeBlock(text, ents[j])
    ensures r.None? <==> forall j :: 0 <= j < |ents| ==> !IsCodeBlock(text, ents[j])
    decreases |ents|
  {
    if ents == [] then None
    else
      var init := ents[..|ents| - 1];
      assert forall j :: 0 <= j < |init| ==> init[j] == ents[j];
      match FirstCode(text, init)
      case Some(k) => Some(k)
      case None => if IsCodeBlock(text, ents[|ents| - 1]) then Some(|ents| - 1) else None
  }

  /** The texts of the input blocks among `ents`, concatenated in order. */
  function StdinOf(text: string, ents: seq<Entity>): string
    decreases |ents|
  {
    if ents == [] then ""
    else
      var last := ents[|ents| - 1];
      StdinOf(text, ents[..|ents| - 1]) + (if IsStdinBlock(last) then BlockText(text, last) else "")
  }

  lemma FirstCodeExtend(text: string, ents: seq<Entity>, i: nat)
    requires i < |ents|
    ensures FirstCode(text, ents[..i + 1]) ==
      if FirstCode(text, ents[..i]).Some? then FirstCode(text, ents[..i])
      else if IsCodeBlock(text, ents[i]) then Some(i)
      else None
  {
    assert ents[..i + 1][..i] == ents[..i];
  }

  /** The state of the loop over the entities after the first `i` of them. */
  ghost predicate Scanned(text: string, ents: seq<Entity>, i: nat, code: Option<string>, lang: Option<string>, stdin: string)
    requires i <= |ents|
  {
    && (code.Some? <==> lang.Some?)
    && match FirstCode(text, ents[..i])
      case Some(k) =>
        && k < i
        && code == Some(BlockText(text, ents[k]))
        && lang == Some(Lower(ents[k].language))
        && stdin == StdinOf(text, ents[k + 1..i])
      case None =>
        && !Truthy(code) && stdin == ""
        && (code.None? <==> forall j :: 0 <= j < i ==> ents[j].etype != Preformatted)
  }

  /** Extending the entities by one block adds that block's input, if any. */
  lemma StdinOfStep(text: string, ents: seq<Entity>, lo: nat, i: nat)
    requires lo <= i < |ents|
    ensures StdinOf(text, ents[lo..i + 1]) ==
      StdinOf(text, ents[lo..i]) + if IsStdinBlock(ents[i]) then BlockText(text, ents[i]) else ""
  {
    assert ents[lo..i + 1][..i - lo] == ents[lo..i];
    assert ents[lo..i + 1][i - lo] == ents[i];
  }

  lemma ScanOther(text: string, ents: seq<Entity>, i: nat, code: Option<string>, lang: Option<string>, stdin: string)
    requires i < |ents| && ents[i].etype != Preformatted
    requires Scanned(text, ents, i, code, lang, stdin)
    ensures Scanned(text, ents, i + 1, code, lang, stdin)
  {
    FirstCodeExtend(text, ents, i);
    assert FirstCode(text, ents[..i + 1]) == FirstCode(text, ents[..i]);
    if FirstCode(text, ents[..i]).Some? {
      StdinOfStep(text, ents, FirstCode(text, ents[..i]).value + 1, i);
    }
  }

  lemma ScanFirst(text: string, ents: seq<Entity>, i: nat, code0: Option<string>, lang0: Option<string>, stdin: string,
                  code: Option<string>, lang: Option<string>)
    requires i < |ents| && ents[i].etype == Preformatted && !Truthy(code0)
    requires Scanned(text, ents, i, code0, lang0, stdin)
    requires code == Some(BlockText(text, ents[i])) && lang == Some(Lower(ents[i].language))
    ensures Scanned(text, ents, i + 1, code, lang, stdin)
  {
    FirstCodeExtend(text, ents, i);
    if IsCodeBlock(text, ents[i]) {
      assert ents[i + 1..i + 1] == [];
    }
  }

  lemma ScanLater(text: string, ents: seq<Entity>, i: nat, code: Option<string>, lang: Option<string>, stdin: string, stdin': string)
    requires i < |ents| && ents[i].etype == Preformatted && Truthy(code)
    requires Scanned(text, ents, i, code, lang, stdin)
    requires stdin' == if IsStdinBlock(ents[i]) then stdin + BlockText(text, ents[i]) else stdin
    ensures Scanned(text, ents, i + 1, code, lang, stdin')
  {
    FirstCodeExtend(text, ents, i);
    var k := FirstCode(text, ents[..i]).value;
    assert FirstCode(text, ents[..i + 1]) == Some(k);
    StdinOfStep(text, ents, k + 1, i);
  }

  /** What one iteration of the loop in `exec` does to (code, lang, stdin). */
  function ScanNext(text: string, e: Entity, code: Option<string>, lang: Option<string>, stdin: string): (r: (Option<string>, Option<string>, string))
    ensures e.etype != Preformatted ==> r == (code, lang, stdin)
    ensures Truthy(code) ==> r.0 == code && r.1 == lang
    ensures e.etype == Preformatted && !Truthy(code) ==> r.0 == Some(BlockText(text, e)) && r.1 == Some(Lower(e.language))
    ensures r.2 == stdin || (Truthy(code) && IsStdinBlock(e) && r.2 == stdin + BlockText(text, e))
    ensures Truthy(code) && IsStdinBlock(e) ==> r.2 == stdin + BlockText(text, e)
  {
    if e.etype != Preformatted then (code, lang, stdin)
    else if !Truthy(code) then (Some(BlockText(text, e)), Some(Lower(e.language)), stdin)
    else if IsStdinBlock(e) then (code, lang, stdin + BlockText(text, e))
    else (code, lang, stdin)
  }

  lemma ScanStep(text: string, ents: seq<Entity>, i: nat, code: Option<string>, lang: Option<string>, stdin: string,
                 code': Option<string>, lang': Option<string>, stdin': string)
    requires i < |ents|
    requires Scanned(text, ents, i, code, lang, stdin)
    requires (code', lang', stdin') == ScanNext(text, ents[i], code, lang, stdin)
    ensures Scanned(text, ents, i + 1, code', lang', stdin')
  {
    var e := ents[i];
    if e.etype != Preformatted {
      ScanOther(text, ents, i, code, lang, stdin);
    } else if !Truthy(code) {
      ScanFirst(text, ents, i, code, lang, stdin, code', lang');
    } else {
      ScanLater(text, ents, i, code, lang, stdin, stdin');
    }
  }

  /** The result of the loop over `ents`, one ScanNext per entity. */
  function ScanEntities(text: string, ents: seq<Entity>): (Option<string>, Option<string>, string)
    decreases |ents|
  {
    if ents == [] then (None, None, "")
    else
      var r := ScanEntities(text, ents[..|ents| - 1]);
      ScanNext(text, ents[|ents| - 1], r.0, r.1, r.2)
  }

  lemma {:induction false} ScanEntitiesScanned(text: string, ents: seq<Entity>, i: nat)
    requires i <= |ents|
    ensures var r := ScanEntities(text, ents[..i]); Scanned(text, ents, i, r.0, r.1, r.2)
    decreases i
  {
    if i > 0 {
      ScanEntitiesScanned(text, ents, i - 1);
      var r := ScanEntities(text, ents[..i - 1]);
      assert ents[..i][..i - 1] == ents[..i - 1];
      var n := ScanNext(text, ents[i - 1], r.0, r.1, r.2);
      assert ScanEntities(text, ents[..i]) == n;
      ScanStep(text, ents, i - 1, r.0, r.1, r.2, n.0, n.1, n.2);
    }
  }

  lemma ScanEntitiesFirstCode(text: string, ents: seq<Entity>, code: Option<string>, lang: Option<string>, stdin: string)
    requires (code, lang, stdin) == ScanEntities(text, ents)
    ensures code.Some? <==> lang.Some?
    ensures match FirstCode(text, ents)
      case Some(k) =>
        && code == Some(BlockText(text, ents[k]))
        && lang == Some(Lower(ents[k].language))
        && stdin == StdinOf(text, ents[k + 1..])
      case None =>
        && !Truthy(code) && stdin == ""
        && (code.None? <==> forall j :: 0 <= j < |ents| ==> ents[j].etype != Preformatted)
  {
    ScanEntitiesScanned(text, ents, |ents|);
    assert ents[..|ents|] == ents;
  }

  /** The loop over the entities in `exec`: the first preformatted block with
      non-empty text is the code and gives the language; the input is made
      of the later blocks marked "stdin" or "input". Without such a block
      there is no code (or only an empty one). */
  method ExtractCode(command: Command) returns (code: Option<string>, lang: Option<string>, stdin: string)
    ensures (code, lang, stdin) == ScanEntities(command.text, command.entities)
  {
    var text, ents := command.text, command.entities;
    code, lang, stdin := None, None, "";
    var i := 0;
    while i < |ents|
      invariant 0 <= i <= |ents|
      invariant (code, lang, stdin) == ScanEntities(text, ents[..i])
    {
      var e := ents[i];
      if e.etype == Preformatted {
        var currentLang := Lower(e.language);
        var value := BlockText(text, e);
        if !Truthy(code) {
          code, lang := Some(value), Some(currentLang);
        } else if currentLang == "stdin" || currentLang == "input" {
          stdin := stdin + value;
        }
      }
      assert ents[..i + 1][..i] == ents[..i];
      i := i + 1;
    }
    assert ents[..i] == ents;
  }

  const ShellLanguages: set<string> := {"shell", "bash", "sh"}

  /** The language dispatch of `exec`. */
  function SelectRunner(code: Option<string>, lang: Option<string>): (d: Dispatch)
    ensures d == NoRunner <==> !Truthy(code) || !Truthy(lang)
    ensures d == Run(PythonRunner) <==> Truthy(code) && lang == Some("python")
    ensures d == Run(ShellRunner) <==> Truthy(code) && lang.Some? && lang.value in ShellLanguages
    ensures d.Unsupported? <==>
      Truthy(code) && Truthy(lang) && lang.value != "python" && lang.value !in ShellLanguages
    ensures d.Unsupported? ==> d.lang == lang.value
  {
    if !Truthy(code) || !Truthy(lang) then NoRunner
    else if lang.value == "python" then Run(PythonRunner)
    else if lang.value in ShellLanguages then Run(ShellRunner)
    else Unsupported(lang.value)
  }

  function UnsupportedMessage(lang: string): string {
    "Unsupported language \"" + lang + "\""
  }

  /** A userbot edits the command message itself, so it keeps its type;
      otherwise the status is sent as a notice. */
  function StatusMsgType(userbot: bool): (t: MessageType)
    ensures t == Text <==> userbot
    ensures t == Notice <==> !userbot
  {
    if userbot then Text else Notice
  }

  const RedFontOpen: string := "<font color=\"red\" data-mx-color=\"red\">"
  const FontClose: string := "</font>"

  /** What one chunk adds to the plaintext output. */
  function ChunkText(c: Chunk): string {
    if IsTextChunk(c) then c.data.s else ""
  }

  /** What one chunk adds to the HTML output: escaped stdout, escaped stderr
      wrapped in red. */
  function ChunkHtml(c: Chunk): string {
    if !IsTextChunk(c) then ""
    else if c.kind == Stdout then Escape(Some(c.data.s)).value
    else RedFontOpen + Escape(Some(c.data.s)).value + FontClose
  }

  /** The strings `f` gives for each chunk of the stream, concatenated in
      stream order: what writing them one by one into a StringIO leaves. */
  function Collect(stream: seq<Chunk>, f: Chunk -> string): string
    decreases |stream|
  {
    if stream == [] then "" else Collect(stream[..|stream| - 1], f) + f(stream[|stream| - 1])
  }

  /** The plaintext output: every stdout and stderr text, in stream order. */
  function PlainOf(stream: seq<Chunk>): string {
    Collect(stream, ChunkText)
  }

  /** The HTML output. */
  function HtmlOf(stream: seq<Chunk>): string {
    Collect(stream, ChunkHtml)
  }

  /** The payload of the last RETURN chunk, None if there is none. */
  function LastReturn(stream: seq<Chunk>): PyValue
    decreases |stream|
  {
    if stream == [] then PyNone
    else if stream[|stream| - 1].kind == Return then stream[|stream| - 1].data
    else LastReturn(stream[..|stream| - 1])
  }

  /** The formatted text of the last EXCEPTION chunk, (None, None) if none. */
  function LastException(stream: seq<Chunk>, formatException: PyValue -> ExceptionText): ExceptionText
    decreases |stream|
  {
    if stream == [] then (None, None)
    else if stream[|stream| - 1].kind == Exception then formatException(stream[|stream| - 1].data)
    else LastException(stream[..|stream| - 1], formatException)
  }

  /** The fold over the chunk stream in `exec`. */
  method FoldOutput(stream: seq<Chunk>, formatException: PyValue -> ExceptionText)
    returns (output: string, outputHtml: string, returnValue: PyValue, exceptionHeader: Option<string>, exception: Option<string>)
    requires TextChunks(stream)
    ensures output == PlainOf(stream) && outputHtml == HtmlOf(stream)
    ensures returnValue == LastReturn(stream)
    ensures (exceptionHeader, exception) == LastException(stream, formatException)
  {
    output, outputHtml, returnValue := "", "", PyNone;
    exceptionHeader, exception := None, None;
    var i := 0;
    while i < |stream|
      invariant 0 <= i <= |stream|
      invariant output == PlainOf(stream[..i]) && outputHtml == HtmlOf(stream[..i])
      invariant returnValue == LastReturn(stream[..i])
      invariant (exceptionHeader, exception) == LastException(stream[..i], formatException)
    {
      assert stream[..i + 1][..i] == stream[..i];
      var c := stream[i];
      match c.kind {
        case Stdout =>
          output := output + c.data.s;
          outputHtml := outputHtml + Escape(Some(c.data.s)).value;
        case Stderr =>
          output := output + c.data.s;
          outputHtml := outputHtml + RedFontOpen + Escape(Some(c.data.s)).value + FontClose;
        case Return =>
          returnValue := c.data;
        case Exception =>
          exceptionHeader, exception := formatException(c.data).0, formatException(c.data).1;
      }
      i := i + 1;
    }
    assert stream[..i] == stream;
  }

  /** `exec` on one message, given the parsed command, the stream that the
      Python runner relays and how that stream ends. Outside the guard
      nothing happens; a message without code or language is dropped; an
      unknown language gets a reply. A run first gets its status message.
      The shell runner's `run` is a coroutine, not an async iterator, so the
      `async for` over it fails before any chunk and the final status is
      never sent. A Python run reports the fold of its stream when the
      stream ends; when the stream re-raises or stalls, the final status is
      never sent either. */
  method Exec(cfg: Config, evt: MessageEvent, command: Command, stream: seq<Chunk>, end: StreamEnd,
              formatException: PyValue -> ExceptionText) returns (reply: Reply)
    requires TextChunks(stream)
    ensures !Accepts(cfg, evt) ==> reply == Ignored
    ensures Accepts(cfg, evt) && FirstCode(command.text, command.entities).None? ==> reply == Ignored
    ensures Accepts(cfg, evt) && FirstCode(command.text, command.entities).Some? ==>
      var k := FirstCode(command.text, command.entities).value;
      var code := BlockText(command.text, command.entities[k]);
      var lang := Lower(command.entities[k].language);
      match SelectRunner(Some(code), Some(lang))
      case NoRunner => reply == Ignored
      case Unsupported(l) => reply == UnsupportedLanguage(UnsupportedMessage(l))
      case Run(ShellRunner) =>
        reply == Unfinished(ShellRunner, StatusMsgType(cfg.userbot), code, lang, NotAsyncIterable)
      case Run(PythonRunner) =>
        match end
        case Ended =>
          reply == Executed(PythonRunner, StatusMsgType(cfg.userbot), code, lang,
                            StdinOf(command.text, command.entities[k + 1..]),
                            PlainOf(stream), HtmlOf(stream), LastReturn(stream),
                            LastException(stream, formatException).0, LastException(stream, formatException).1)
        case Escapes => reply == Unfinished(PythonRunner, StatusMsgType(cfg.userbot), code, lang, RunnerRaised)
        case Stalls => reply == Unfinished(PythonRunner, StatusMsgType(cfg.userbot), code, lang, StreamStalls)
  {
    if !Accepts(cfg, evt) {
      return Ignored;
    }
    var code, lang, stdin := ExtractCode(command);
    ScanEntitiesFirstCode(command.text, command.entities, code, lang, stdin);
    var dispatch := SelectRunner(code, lang);
    match dispatch {
      case NoRunner =>
        reply := Ignored;
      case Unsupported(l) =>
        reply := UnsupportedLanguage(UnsupportedMessage(l));
      case Run(ShellRunner) =>
        reply := Unfinished(ShellRunner, StatusMsgType(cfg.userbot), code.value, lang.value, NotAsyncIterable);
      case Run(PythonRunner) =>
        var msgtype := StatusMsgType(cfg.userbot);
        var output, outputHtml, returnValue, exceptionHeader, exception := FoldOutput(stream, formatException);
        match end {
          case Ended =>
            reply := Executed(PythonRunner, msgtype, code.value, lang.value, stdin,
                              output, outputHtml, returnValue, exceptionHeader, exception);
          case Escapes =>
            reply := Unfinished(PythonRunner, msgtype, code.value, lang.value, RunnerRaised);
          case Stalls =>
            reply := Unfinished(PythonRunner, msgtype, code.value, lang.value, StreamStalls);
        }
    }
  }

  lemma {:induction false} CollectConcat(a: seq<Chunk>, b: seq<Chunk>, f: Chunk -> string)
    ensures Collect(a + b, f) == Collect(a, f) + Collect(b, f)
    decreases |b|
  {
    if b == [] {
      assert a + b == a;
    } else {
      var b' := b[..|b| - 1];
      assert (a + b)[..|a + b| - 1] == a + b';
      CollectConcat(a, b', f);
    }
  }

  lemma PlainOfConcat(a: seq<Chunk>, b: seq<Chunk>)
    ensures PlainOf(a + b) == PlainOf(a) + PlainOf(b)
  {
    CollectConcat(a, b, ChunkText);
  }

  lemma HtmlOfConcat(a: seq<Chunk>, b: seq<Chunk>)
    ensures HtmlOf(a + b) == HtmlOf(a) + HtmlOf(b)
  {
    CollectConcat(a, b, ChunkHtml);
  }

  /** RETURN and EXCEPTION chunks never reach either output: taking one out
      of the stream leaves both outputs as they were. */
  lemma TerminalChunksLeaveOutput(stream: seq<Chunk>, i: nat)
    requires i < |stream| && (stream[i].kind == Return || stream[i].kind == Exception)
    ensures PlainOf(stream[..i] + stream[i + 1..]) == PlainOf(stream)
    ensures HtmlOf(stream[..i] + stream[i + 1..]) == HtmlOf(stream)
  {
    var pre, post := stream[..i], stream[i + 1..];
    assert stream == (pre + [stream[i]]) + post;
    assert (pre + [stream[i]])[..|pre|] == pre;
    assert ChunkText(stream[i]) == "" && ChunkHtml(stream[i]) == "";
    PlainOfConcat(pre, post);
    PlainOfConcat(pre + [stream[i]], post);
    assert PlainOf(pre + [stream[i]]) == PlainOf(pre);
    HtmlOfConcat(pre, post);
    HtmlOfConcat(pre + [stream[i]], post);
    assert HtmlOf(pre + [stream[i]]) == HtmlOf(pre);
  }

  /** Without stderr output the HTML output is exactly the escaped plaintext
      output. */
  lemma {:induction false} HtmlOfStdoutOnly(stream: seq<Chunk>)
    requires forall i :: 0 <= i < |stream| ==> stream[i].kind != Stderr
    ensures HtmlOf(stream) == HtmlEscape(PlainOf(stream))
    decreases |stream|
  {
    if stream != [] {
      var init := stream[..|stream| - 1];
      HtmlOfStdoutOnly(init);
      HtmlEscapeConcat(PlainOf(init), ChunkText(stream[|stream| - 1]));
    }
  }

  /** The output of a prefix of a stream is a prefix of the stream's output. */
  lemma PlainOfPrefix(a: seq<Chunk>, b: seq<Chunk>)
    requires |a| <= |b| && b[..|a|] == a
    ensures |PlainOf(a)| <= |PlainOf(b)| && PlainOf(b)[..|PlainOf(a)|] == PlainOf(a)
  {
    assert b == a + b[|a|..];
    PlainOfConcat(a, b[|a|..]);
  }

  /** The reported return value is the payload of the last RETURN chunk, and
      None when the stream has none. */
  lemma {:induction false} LastReturnIsLast(stream: seq<Chunk>)
    ensures (forall i :: 0 <= i < |stream| ==> stream[i].kind != Return) ==> LastReturn(stream) == PyNone
    ensures forall j :: 0 <= j < |stream| && stream[j].kind == Return
                        && (forall i :: j < i < |stream| ==> stream[i].kind != Return)
                        ==> LastReturn(stream) == stream[j].data
    decreases |stream|
  {
    if stream != [] {
      var init := stream[..|stream| - 1];
      LastReturnIsLast(init);
      assert forall i :: 0 <= i < |init| ==> init[i] == stream[i];
    }
  }

  /** Without any EXCEPTION chunk, no exception text is reported. */
  lemma {:induction false} LastExceptionNone(stream: seq<Chunk>, formatException: PyValue -> ExceptionText)
    requires forall i :: 0 <= i < |stream| ==> stream[i].kind != Exception
    ensures LastException(stream, formatException) == (None, None)
    decreases |stream|
  {
    if stream != [] {
      var init := stream[..|stream| - 1];
      assert forall i :: 0 <= i < |init| ==> init[i] == stream[i];
      LastExceptionNone(init, formatException);
    }
  }
}
