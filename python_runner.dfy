/** PythonRunner (exec/runner/python.py:92-120): the runner's namespace, the
    redirection of the process-wide standard I/O handles, and the order of
    the chunks `run` yields. Compiling and evaluating the user's code is not
    modelled: the code is represented by the script of its observable
    actions and by its outcome (see RunTrace). */
module Python {
  import opened Base
  import opened Channel
  import opened RunTrace

  /** What sys.stdout, sys.stderr or sys.stdin can be bound to: one of the
      channel's writers, an in-memory reader over a string (StringIO), or a
      handle that was there before (identified by name). */
  datatype Handle = Proxy(writer: ProxyOutput) | StringReader(text: string) | Original(name: string)

  /** The three handles `_redirect_io` saves before it swaps them. */
  datatype SavedIo = SavedIo(stdout: Handle, stderr: Handle, stdin: Handle)

  /** The global `sys.stdout`, `sys.stderr` and `sys.stdin`. */
  class Stdio {
    var stdout: Handle
    var stderr: Handle
    var stdin: Handle

    constructor (stdout: Handle, stderr: Handle, stdin: Handle)
      ensures this.stdout == stdout && this.stderr == stderr && this.stdin == stdin
    {
      this.stdout := stdout;
      this.stderr := stderr;
      this.stdin := stdin;
    }
  }

  /** A Python dict used as the namespace the code runs in; it is an object,
      so a caller that passed it in sees what the runner does to it. */
  class Namespace {
    var bindings: map<string, PyValue>

    constructor (bindings: map<string, PyValue>)
      ensures this.bindings == bindings
    {
      this.bindings := bindings;
    }
  }

  /** One step of the consumer's `async for part in output` loop: resume the
      pending read if there is one, otherwise start the next `__anext__`. */
  method ConsumerStep(output: AsyncTextOutput, relayed: seq<Chunk>, done: bool)
    returns (relayed': seq<Chunk>, done': bool)
    requires output.Valid()
    modifies output
    ensures output.Valid() && output.writers == old(output.writers)
    ensures Sim(output.queue, output.closed, output.readTask, relayed', done')
         == Consume(old(Sim(output.queue, output.closed, output.readTask, relayed, done)))
  {
    relayed', done' := relayed, done;
    if done {
      return;
    }
    var r: Next;
    if output.readTask == Waiting || output.readTask == Cancelled {
      r := output.CompleteNext();
    } else {
      r := output.BeginNext();
    }
    match r
    case Item(c) => relayed' := relayed + [c];
    case Stop => done' := true;
    case Suspended =>
  }

  /** The consumer after the user code died without closing the channel: it
      reads on until the iteration ends or it waits on an empty queue. */
  method DrainRelay(output: AsyncTextOutput, relayed: seq<Chunk>, done: bool)
    returns (relayed': seq<Chunk>, done': bool)
    requires output.Valid()
    modifies output
    ensures output.Valid() && output.writers == old(output.writers)
    ensures Sim(output.queue, output.closed, output.readTask, relayed', done')
         == Drain(old(Sim(output.queue, output.closed, output.readTask, relayed, done)))
  {
    relayed', done' := relayed, done;
    while !(done' || (output.readTask == Waiting && output.queue == []))
      invariant output.Valid() && output.writers == old(output.writers)
      invariant Drain(Sim(output.queue, output.closed, output.readTask, relayed', done'))
             == Drain(old(Sim(output.queue, output.closed, output.readTask, relayed, done)))
      decreases if done' then 0 else 1, |output.queue|, if output.readTask == Waiting then 0 else 1
    {
      relayed', done' := ConsumerStep(output, relayed', done');
    }
  }

  /** The body of the `with` block up to the user code's end: its writes and
      closes, interleaved with the consumer's steps as `script` orders them. */
  method Interleave(output: AsyncTextOutput, out: ProxyOutput, err: ProxyOutput, script: seq<Action>)
    returns (relayed: seq<Chunk>, done: bool)
    requires output.Valid() && output.writers == map[Stdout := out, Stderr := err]
    requires out.ato == output && err.ato == output && out.kind == Stdout && err.kind == Stderr
    requires output.queue == [] && !output.closed && output.readTask == NoRead
    modifies output, out, err
    ensures output.Valid() && output.writers == old(output.writers)
    ensures Sim(output.queue, output.closed, output.readTask, relayed, done) == Simulate(script)
  {
    relayed, done := [], false;
    var i := 0;
    while i < |script|
      invariant 0 <= i <= |script|
      invariant output.Valid() && output.writers == map[Stdout := out, Stderr := err]
      invariant Sim(output.queue, output.closed, output.readTask, relayed, done) == Simulate(script[..i])
    {
      assert script[..i + 1][..i] == script[..i];
      match script[i] {
        case Write(toStderr, text) =>
          if toStderr { err.Write(text); } else { out.Write(text); }
        case CloseHandle(toStderr) =>
          if toStderr { err.Close(false); } else { out.Close(false); }
        case Relay =>
          relayed, done := ConsumerStep(output, relayed, done);
      }
      i := i + 1;
    }
    assert script[..|script|] == script;
  }

  class PythonRunner {
    var namespace: Namespace

    /** `namespace or {}`: a non-empty namespace is shared with the caller;
        none, or an empty one, gives the runner a fresh empty dict. */
    constructor (namespace: Namespace?)
      ensures namespace != null && namespace.bindings != map[] ==> this.namespace == namespace
      ensures namespace == null || namespace.bindings == map[] ==>
        fresh(this.namespace) && this.namespace.bindings == map[]
    {
      if namespace != null && namespace.bindings != map[] {
        this.namespace := namespace;
      } else {
        this.namespace := new Namespace(map[]);
      }
    }

    /** The end of `_run_task`, once the awaited code has returned `value`:
        close the channel, then return the value. */
    method FinishTask(stdio: AsyncTextOutput, value: PyValue) returns (r: PyValue)
      requires stdio.Valid()
      modifies stdio, stdio.writers.Values
      ensures r == value
      ensures stdio.Valid() && stdio.closed
      ensures stdio.queue == old(stdio.queue) && stdio.writers == old(stdio.writers)
      ensures stdio.readTask == CancelRead(old(stdio.readTask))
      ensures forall w :: w in stdio.writers.Values ==> w.closed
    {
      stdio.Close();
      r := value;
    }

    /** Entering `_redirect_io`: save the three handles, then bind them to the
        channel's STDOUT writer, its STDERR writer and a reader over `stdin`. */
    method RedirectEnter(sys: Stdio, output: AsyncTextOutput, stdin: string) returns (saved: SavedIo)
      requires output.Valid()
      modifies sys, output
      ensures saved == SavedIo(old(sys.stdout), old(sys.stderr), old(sys.stdin))
      ensures output.Valid() && Stdout in output.writers && Stderr in output.writers
      ensures sys.stdout == Proxy(output.writers[Stdout])
      ensures sys.stderr == Proxy(output.writers[Stderr])
      ensures sys.stdin == StringReader(stdin)
      ensures old(output.writers).Keys <= output.writers.Keys
      ensures forall k :: k in old(output.writers) ==> output.writers[k] == old(output.writers)[k]
      ensures output.writers.Keys == old(output.writers).Keys + {Stdout, Stderr}
      ensures forall k :: k in output.writers && k !in old(output.writers) ==> fresh(output.writers[k])
      ensures output.queue == old(output.queue) && output.closed == old(output.closed)
      ensures output.readTask == old(output.readTask)
    {
      saved := SavedIo(sys.stdout, sys.stderr, sys.stdin);
      var out := output.GetWriter(Stdout);
      sys.stdout := Proxy(out);
      var err := output.GetWriter(Stderr);
      sys.stderr := Proxy(err);
      sys.stdin := StringReader(stdin);
    }

    /** Leaving `_redirect_io` normally: put the saved handles back. This is
        not in a `finally`, so it happens only on a normal exit. */
    method RedirectExit(sys: Stdio, saved: SavedIo)
      modifies sys
      ensures sys.stdout == saved.stdout && sys.stderr == saved.stderr && sys.stdin == saved.stdin
    {
      sys.stdout, sys.stderr, sys.stdin := saved.stdout, saved.stderr, saved.stdin;
    }

    /** `run`: a fresh channel, redirected handles, the user code and the
        consumer interleaved as `script` says, then, if the code returned,
        the close by `_run_task`, the end of the relay loop, one RETURN chunk
        and the restored handles. If the code raised, the consumer reads on:
        it waits for ever, or, when a closed handle has closed the channel,
        its loop ends and `await task` re-raises. Either way the handles stay
        redirected. */
    method Run(sys: Stdio, stdin: string, script: seq<Action>, outcome: Outcome)
      returns (chunks: seq<Chunk>, end: StreamEnd)
      modifies sys
      ensures (chunks, end) == Trace(script, outcome)
      ensures outcome.Returned? ==>
        sys.stdout == old(sys.stdout) && sys.stderr == old(sys.stderr) && sys.stdin == old(sys.stdin)
      ensures outcome.Raised? ==>
        && sys.stdout.Proxy? && sys.stdout.writer.kind == Stdout
        && sys.stderr.Proxy? && sys.stderr.writer.kind == Stderr
        && sys.stdin == StringReader(stdin)
    {
      var output := new AsyncTextOutput();
      var saved := RedirectEnter(sys, output, stdin);
      var out := output.writers[Stdout];
      var err := output.writers[Stderr];
      var relayed, done := Interleave(output, out, err, script);
      match outcome
      case Returned(v) =>
        var value := FinishTask(output, v);
        relayed, done := ConsumerStep(output, relayed, done);
        RedirectExit(sys, saved);
        chunks, end := relayed + [Chunk(Return, value)], Ended;
      case Raised =>
        relayed, done := DrainRelay(output, relayed, done);
        chunks, end := relayed, if done then Escapes else Stalls;
    }
  }
}
