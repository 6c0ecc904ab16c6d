/** The bot's report of a Python run: the fold of exec/bot.py:145-157 applied
    to the stream that PythonRunner.run yields (exec/runner/python.py:112-120). */
module EndToEnd {
  import opened Base
  import opened RunTrace
  import opened Bot

  /** Everything the user code wrote, both streams interleaved in order; a
      `print` is two writes, its text and then its end string. */
  function WrittenText(script: seq<Action>): string
    decreases |script|
  {
    if script == [] then ""
    else
      var last := script[|script| - 1];
      WrittenText(script[..|script| - 1]) + (if last.Write? then last.text else "")
  }

  lemma {:induction false} WrittenPlainText(script: seq<Action>)
    ensures PlainOf(Written(script)) == WrittenText(script)
    decreases |script|
  {
    if script != [] {
      var init := script[..|script| - 1];
      var last := script[|script| - 1];
      WrittenPlainText(init);
      if last.Write? {
        PlainOfConcat(Written(init), [WriteChunk(last.toStderr, last.text)]);
        assert PlainOf([WriteChunk(last.toStderr, last.text)]) == last.text by {
          assert [WriteChunk(last.toStderr, last.text)][..0] == [];
        }
      } else {
        assert Written(script) == Written(init) + [];
        assert Written(script) == Written(init);
        assert WrittenText(script) == WrittenText(init) + "";
      }
    }
  }

  /** When the code returns v, the bot reports v as the return value, no
      exception, and as plaintext output a prefix of what the code printed. */
  lemma PythonReturnReport(script: seq<Action>, v: PyValue, formatException: PyValue -> ExceptionText)
    ensures var chunks := Trace(script, Returned(v)).0;
      && TextChunks(chunks)
      && LastReturn(chunks) == v
      && LastException(chunks, formatException) == (None, None)
      && IsPrefix(PlainOf(chunks), WrittenText(script))
  {
    var chunks := Trace(script, Returned(v)).0;
    ReturnedTrace(script, v);
    TraceTerminalChunks(script, Returned(v));
    LastExceptionNone(chunks, formatException);
    var relayed := chunks[..|chunks| - 1];
    assert chunks == relayed + [chunks[|chunks| - 1]];
    TerminalChunksLeaveOutput(chunks, |chunks| - 1);
    assert chunks[..|chunks| - 1] + chunks[|chunks|..] == relayed;
    PlainOfPrefix(relayed, Written(script));
    WrittenPlainText(script);
  }

  /** When the code raises without closing its handles, the stream stalls
      after all the code printed, with no return value: the fold of what was
      relayed holds everything printed, and no RETURN chunk ever comes. */
  lemma PythonRaisedReport(script: seq<Action>, formatException: PyValue -> ExceptionText)
    requires !HasClose(script)
    ensures var (chunks, end) := Trace(script, Raised);
      && end == Stalls
      && PlainOf(chunks) == WrittenText(script)
      && LastReturn(chunks) == PyNone
      && LastException(chunks, formatException) == (None, None)
  {
    RaisedTrace(script);
    TraceTerminalChunks(script, Raised);
    WrittenPlainText(script);
    var chunks := Trace(script, Raised).0;
    LastReturnIsLast(chunks);
    LastExceptionNone(chunks, formatException);
  }
}
