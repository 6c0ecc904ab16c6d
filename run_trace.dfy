/** The chunk stream of PythonRunner.run (exec/runner/python.py:112-120) as a
    pure function of the schedule the event loop happens to choose.

    The user's program is not interpreted: it is given as the sequence of
    things it does that the channel can observe (writing to the redirected
    sys.stdout or sys.stderr, closing one of them) and its outcome
    (a returned value or an unhandled exception). A Relay action is a point
    where the event loop lets the consumer of the channel take one step of
    its `async for part in output` loop. */
module RunTrace {
  import opened Base
  import opened Channel

  datatype Action =
    | Write(toStderr: bool, text: string)   // one write call on sys.stdout / sys.stderr
    | CloseHandle(toStderr: bool)           // user code calls sys.stdout.close() / sys.stderr.close()
    | Relay                                 // the consumer's loop runs one step

  /** How the awaited user code ends. */
  datatype Outcome = Returned(value: PyValue) | Raised

  /** The channel and its consumer: queued chunks, the closed flag, the
      read task, the chunks relayed so far and whether the loop has ended. */
  datatype Sim = Sim(queue: seq<Chunk>, closed: bool, read: ReadTask, relayed: seq<Chunk>, done: bool)

  const Start: Sim := Sim([], false, NoRead, [], false)

  function WriteChunk(toStderr: bool, text: string): Chunk {
    Chunk(if toStderr then Stderr else Stdout, PyStr(text))
  }

  function CloseSim(s: Sim): Sim {
    s.(closed := true, read := CancelRead(s.read))
  }

  /** One step of `async for part in output: yield part`: resume a pending
      read, or start the next `__anext__`. Nothing is lost or reordered, the
      flag is untouched, and the loop ends only on a closed channel or a
      cancelled read. */
  function Consume(s: Sim): (r: Sim)
    ensures s.relayed <= r.relayed
    ensures r.relayed + r.queue == s.relayed + s.queue
    ensures r.closed == s.closed
    ensures r.done ==> s.done || s.closed || s.read == Cancelled
    ensures |r.relayed| <= |s.relayed| + 1
  {
    if s.done then s
    else if s.read == Cancelled then s.(done := true)
    else if s.read == Waiting then
      if s.queue == [] then s
      else
        assert s.relayed + [s.queue[0]] + s.queue[1..] == s.relayed + s.queue;
        s.(queue := s.queue[1..], read := Finished, relayed := s.relayed + [s.queue[0]])
    else if s.closed then s.(done := true)
    else s.(read := Waiting)
  }

  function Step(s: Sim, a: Action): Sim {
    match a
    case Write(toStderr, text) => s.(queue := s.queue + [WriteChunk(toStderr, text)])
    case CloseHandle(_) => CloseSim(s)
    case Relay => Consume(s)
  }

  function Simulate(script: seq<Action>): Sim
    decreases |script|
  {
    if script == [] then Start
    else Step(Simulate(script[..|script| - 1]), script[|script| - 1])
  }

  /** Lets the consumer run on after the producer has died without closing the
      channel: it reads until the iteration ends or it waits on an empty queue. */
  function Drain(s: Sim): Sim
    decreases if s.done then 0 else 1, |s.queue|, if s.read == Waiting then 0 else 1
  {
    if s.done || (s.read == Waiting && s.queue == []) then s
    else Drain(Consume(s))
  }

  /** The chunks `run` yields, and how the stream ends. On return,
      `_run_task` closes the channel, the consumer's loop stops, and one
      RETURN chunk follows. On an exception nothing closes the channel: the
      consumer reads on, and either waits for ever or, if the code had
      closed a handle and with it the channel, its loop ends and
      `await task` re-raises the exception out of `run`. */
  function Trace(script: seq<Action>, outcome: Outcome): (r: (seq<Chunk>, StreamEnd))
    ensures r.1 == Ended <==> outcome.Returned?
    ensures outcome.Returned? ==> |r.0| > 0 && r.0[|r.0| - 1] == Chunk(Return, outcome.value)
  {
    var s := Simulate(script);
    match outcome
    case Returned(v) => (Consume(CloseSim(s)).relayed + [Chunk(Return, v)], Ended)
    case Raised =>
      var d := Drain(s);
      (d.relayed, if d.done then Escapes else Stalls)
  }

  /** Everything the user code wrote, in order. */
  function Written(script: seq<Action>): (w: seq<Chunk>)
    decreases |script|
  {
    if script == [] then []
    else
      var last := script[|script| - 1];
      Written(script[..|script| - 1]) + (if last.Write? then [WriteChunk(last.toStderr, last.text)] else [])
  }

  predicate HasClose(script: seq<Action>) {
    exists i :: 0 <= i < |script| && script[i].CloseHandle?
  }

  predicate IsPrefix<T(==)>(a: seq<T>, b: seq<T>) {
    |a| <= |b| && b[..|a|] == a
  }

  /** The invariant of the simulation: nothing is lost or reordered between
      the writers and the consumer, and no read waits on a closed channel. */
  ghost predicate Consistent(s: Sim, written: seq<Chunk>, hasClose: bool) {
    && s.relayed + s.queue == written
    && (s.closed <==> hasClose)
    && (s.closed ==> s.read != Waiting)
    && (s.read == Cancelled ==> s.closed)
    && (s.done ==> s.closed)
  }

  lemma ConsumeConsistent(s: Sim, written: seq<Chunk>, hasClose: bool)
    requires Consistent(s, written, hasClose)
    ensures Consistent(Consume(s), written, hasClose)
  {
    if !s.done && s.read == Waiting && s.queue != [] {
      assert s.relayed + [s.queue[0]] + s.queue[1..] == s.relayed + s.queue;
    }
  }

  lemma {:induction false} SimulateConsistent(script: seq<Action>)
    ensures Consistent(Simulate(script), Written(script), HasClose(script))
    decreases |script|
  {
    if script != [] {
      var init := script[..|script| - 1];
      var last := script[|script| - 1];
      SimulateConsistent(init);
      var s := Simulate(init);
      assert HasClose(script) <==> HasClose(init) || last.CloseHandle? by {
        if HasClose(script) && !last.CloseHandle? {
          var i :| 0 <= i < |script| && script[i].CloseHandle?;
          assert init[i] == script[i];
        }
        if HasClose(init) {
          var i :| 0 <= i < |init| && init[i].CloseHandle?;
          assert script[i] == init[i];
        }
        if last.CloseHandle? {
          assert script[|script| - 1].CloseHandle?;
        }
      }
      match last
      case Write(e, t) =>
        assert s.relayed + (s.queue + [WriteChunk(e, t)]) == (s.relayed + s.queue) + [WriteChunk(e, t)];
      case CloseHandle(_) =>
      case Relay =>
        ConsumeConsistent(s, Written(init), HasClose(init));
    }
  }

  lemma {:induction false} DrainConsistent(s: Sim, written: seq<Chunk>, hasClose: bool)
    requires Consistent(s, written, hasClose)
    ensures Consistent(Drain(s), written, hasClose)
    ensures Drain(s).done || (Drain(s).read == Waiting && Drain(s).queue == [])
    decreases if s.done then 0 else 1, |s.queue|, if s.read == Waiting then 0 else 1
  {
    if !(s.done || (s.read == Waiting && s.queue == [])) {
      ConsumeConsistent(s, written, hasClose);
      DrainConsistent(Consume(s), written, hasClose);
    }
  }

  lemma {:induction false} WrittenAreText(script: seq<Action>)
    ensures forall i :: 0 <= i < |Written(script)| ==> IsTextChunk(Written(script)[i])
    decreases |script|
  {
    if script != [] {
      WrittenAreText(script[..|script| - 1]);
    }
  }

  /** On a normal return the stream is: some prefix of what the user code
      wrote, in the order written, then exactly one RETURN chunk. */
  lemma ReturnedTrace(script: seq<Action>, v: PyValue)
    ensures var (chunks, end) := Trace(script, Returned(v));
      && end == Ended
      && |chunks| >= 1
      && chunks[|chunks| - 1] == Chunk(Return, v)
      && IsPrefix(chunks[..|chunks| - 1], Written(script))
      && (forall i :: 0 <= i < |chunks| - 1 ==> IsTextChunk(chunks[i]))
  {
    var s := Simulate(script);
    SimulateConsistent(script);
    WrittenAreText(script);
    var c := CloseSim(s);
    assert Consume(c).relayed == s.relayed;
    var chunks := s.relayed + [Chunk(Return, v)];
    assert chunks[..|chunks| - 1] == s.relayed;
    assert Written(script)[..|s.relayed|] == s.relayed;
  }

  /** The stream of `run` has exactly one RETURN chunk when the code returns,
      none when it raises, and never an EXCEPTION chunk. */
  lemma TraceTerminalChunks(script: seq<Action>, outcome: Outcome)
    ensures var (chunks, _) := Trace(script, outcome);
      && (forall i :: 0 <= i < |chunks| ==> chunks[i].kind != Exception)
      && (forall i :: 0 <= i < |chunks| && chunks[i].kind == Return ==>
            outcome.Returned? && i == |chunks| - 1)
      && TextChunks(chunks)
  {
    SimulateConsistent(script);
    WrittenAreText(script);
    var s := Simulate(script);
    match outcome
    case Returned(v) =>
      ReturnedTrace(script, v);
    case Raised =>
      DrainConsistent(s, Written(script), HasClose(script));
      var d := Drain(s);
      forall i | 0 <= i < |d.relayed|
        ensures IsTextChunk(d.relayed[i])
      {
        assert d.relayed[i] == (d.relayed + d.queue)[i];
      }
  }

  /** When the code raises and never closed sys.stdout or sys.stderr, the
      consumer relays everything written and then waits for ever: the stream
      does not end and no RETURN chunk comes. */
  lemma RaisedTrace(script: seq<Action>)
    requires !HasClose(script)
    ensures Trace(script, Raised) == (Written(script), Stalls)
  {
    SimulateConsistent(script);
    DrainConsistent(Simulate(script), Written(script), false);
    var d := Drain(Simulate(script));
    assert d.relayed + [] == d.relayed;
  }

  /** When the code closed sys.stdout or sys.stderr and then raises, the
      close has closed the channel, so the consumer's loop ends; `await task`
      then re-raises the exception out of `run`. What was relayed is a prefix
      of what was written, and no RETURN chunk comes. */
  lemma RaisedAfterCloseTrace(script: seq<Action>)
    requires HasClose(script)
    ensures var (chunks, end) := Trace(script, Raised);
      && end == Escapes
      && IsPrefix(chunks, Written(script))
  {
    SimulateConsistent(script);
    DrainConsistent(Simulate(script), Written(script), true);
    var d := Drain(Simulate(script));
    assert Written(script)[..|d.relayed|] == d.relayed;
  }

  /** `run` starts the consumer's loop right after scheduling `_run_task`,
      so the first `__anext__` finds the channel open, creates its read task
      and suspends on it before the user code runs: the first step of every
      schedule is a Relay. Code that has not suspended since then has let
      nothing through: no chunk is relayed, the loop has not ended, and the
      read is waiting or, after a close, cancelled. */
  lemma {:induction false} UnrelayedSimulate(script: seq<Action>)
    requires |script| >= 1 && script[0] == Relay
    requires forall i :: 1 <= i < |script| ==> !script[i].Relay?
    ensures var s := Simulate(script);
      && s.relayed == [] && !s.done
      && (s.read == Waiting || s.read == Cancelled)
    decreases |script|
  {
    var init := script[..|script| - 1];
    if |script| == 1 {
      assert init == [];
    } else {
      assert init[0] == script[0];
      assert forall i :: 1 <= i < |init| ==> init[i] == script[i];
      UnrelayedSimulate(init);
    }
  }

  /** Code that writes and returns without ever suspending: its writes queue
      up behind the consumer's read, which has not resumed yet; the close in
      `_run_task` cancels that read, so the loop stops and none of the output
      is relayed. */
  lemma UnsuspendedOutputIsDropped(script: seq<Action>, v: PyValue)
    requires |script| >= 1 && script[0] == Relay
    requires forall i :: 1 <= i < |script| ==> !script[i].Relay?
    ensures Trace(script, Returned(v)) == ([Chunk(Return, v)], Ended)
  {
    UnrelayedSimulate(script);
    assert [] + [Chunk(Return, v)] == [Chunk(Return, v)];
  }

  /** When the consumer has caught up with the writers before the code
      returns (its read resumed after every write), everything the code
      wrote is relayed, in order, followed by the RETURN chunk. */
  lemma SuspendedOutputIsRelayed(script: seq<Action>, v: PyValue)
    requires Simulate(script).queue == []
    ensures Trace(script, Returned(v)) == (Written(script) + [Chunk(Return, v)], Ended)
  {
    SimulateConsistent(script);
    var s := Simulate(script);
    assert s.relayed + [] == s.relayed;
    assert Consume(CloseSim(s)).relayed == s.relayed;
  }
}
