/** The output channel of the in-process runner (exec/runner/python.py):
    AsyncTextOutput, a closable FIFO of chunks shared by several writers,
    and ProxyOutput, the file-like writer for one output kind.

    The asyncio queue and read task are modelled sequentially: `__anext__`
    is split at its `await` into BeginNext (creating the read task) and
    CompleteNext (the task resuming), so that a `close` may happen in
    between, as it can under the event loop. */
module Channel {
  import opened Base

  /** The state of the consumer's `read_task`. */
  datatype ReadTask = NoRead | Waiting | Finished | Cancelled

  /** What a step of `__anext__` produces: a chunk, the end of iteration,
      or nothing yet (the consumer is suspended on its read task). */
  datatype Next = Item(chunk: Chunk) | Stop | Suspended

  /** `read_task.cancel()`: only a read that is still waiting is affected. */
  function CancelRead(t: ReadTask): (r: ReadTask)
    ensures r != Waiting
    ensures t != Waiting ==> r == t
  {
    if t == Waiting then Cancelled else t
  }

  class AsyncTextOutput {
    var queue: seq<Chunk>
    var closed: bool
    var writers: map<OutputType, ProxyOutput>
    var readTask: ReadTask

    /** Every cached writer is keyed by its own kind and writes into this
        channel, and no read is left waiting on a closed channel. */
    ghost predicate Valid()
      reads this
    {
      && (forall k :: k in writers ==> writers[k].kind == k && writers[k].ato == this)
      && (closed ==> readTask != Waiting)
    }

    constructor ()
      ensures Valid()
      ensures queue == [] && !closed && writers == map[] && readTask == NoRead
    {
      queue := [];
      closed := false;
      writers := map[];
      readTask := NoRead;
    }

    /** `get_writer`: the cached writer of that kind, or a new one that is
        cached from now on. */
    method GetWriter(kind: OutputType) returns (w: ProxyOutput)
      requires Valid()
      modifies this
      ensures Valid()
      ensures w.kind == kind && w.ato == this && kind in writers && writers[kind] == w
      ensures kind in old(writers) ==> w == old(writers[kind]) && writers == old(writers)
      ensures kind !in old(writers) ==> fresh(w) && !w.closed && writers == old(writers)[kind := w]
      ensures queue == old(queue) && closed == old(closed) && readTask == old(readTask)
    {
      if kind in writers {
        w := writers[kind];
      } else {
        w := new ProxyOutput(kind, this);
        writers := writers[kind := w];
      }
    }

    /** `close`: mark the channel closed, close every cached writer without
        calling back into the channel, and cancel a read that is waiting. */
    method Close()
      requires Valid()
      modifies this, writers.Values
      decreases 1
      ensures Valid() && closed
      ensures queue == old(queue) && writers == old(writers)
      ensures readTask == CancelRead(old(readTask))
      ensures forall w :: w in writers.Values ==> w.closed
    {
      closed := true;
      var pending := writers.Keys;
      while pending != {}
        invariant pending <= writers.Keys
        invariant closed && queue == old(queue) && writers == old(writers) && readTask == old(readTask)
        invariant forall k :: k in writers ==> writers[k].kind == k && writers[k].ato == this
        invariant forall k :: k in writers && k !in pending ==> writers[k].closed
        decreases pending
      {
        var k :| k in pending;
        writers[k].Close(true);
        pending := pending - {k};
      }
      readTask := CancelRead(readTask);
    }

    /** `__anext__` up to its `await`: a closed channel ends iteration at once,
        whatever is still queued; otherwise a read task is started. */
    method BeginNext() returns (r: Next)
      requires Valid()
      modifies this
      ensures Valid()
      ensures old(closed) ==> r == Stop && readTask == old(readTask)
      ensures !old(closed) ==> r == Suspended && readTask == Waiting
      ensures queue == old(queue) && closed == old(closed) && writers == old(writers)
    {
      if closed {
        r := Stop;
      } else {
        readTask := Waiting;
        r := Suspended;
      }
    }

    /** `__anext__` after its `await`: a cancelled read ends iteration and
        leaves the queue alone; a waiting read takes the oldest chunk, or
        stays suspended while the queue is empty. */
    method CompleteNext() returns (r: Next)
      requires Valid()
      requires readTask == Waiting || readTask == Cancelled
      modifies this
      ensures Valid()
      ensures old(readTask) == Cancelled ==> r == Stop && queue == old(queue) && readTask == Cancelled
      ensures old(readTask) == Waiting && old(queue) != [] ==>
        r == Item(old(queue)[0]) && queue == old(queue)[1..] && readTask == Finished
      ensures old(readTask) == Waiting && old(queue) == [] ==>
        r == Suspended && queue == [] && readTask == Waiting
      ensures closed == old(closed) && writers == old(writers)
    {
      if readTask == Cancelled {
        r := Stop;
      } else if queue != [] {
        r := Item(queue[0]);
        queue := queue[1..];
        readTask := Finished;
      } else {
        r := Suspended;
      }
    }
  }

  class ProxyOutput {
    const kind: OutputType
    const ato: AsyncTextOutput
    /** The `closed` flag every file object inherits from IOBase. */
    var closed: bool

    constructor (kind: OutputType, ato: AsyncTextOutput)
      ensures this.kind == kind && this.ato == ato && !closed
    {
      this.kind := kind;
      this.ato := ato;
      closed := false;
    }

    /** `write`: enqueue (kind, data) on the shared queue. It does not look at
        either closed flag, so writes after a close still enqueue. */
    method Write(data: string)
      requires ato.Valid()
      modifies ato
      ensures ato.Valid()
      ensures ato.queue == old(ato.queue) + [Chunk(kind, PyStr(data))]
      ensures ato.closed == old(ato.closed) && ato.writers == old(ato.writers) && ato.readTask == old(ato.readTask)
    {
      ato.queue := ato.queue + [Chunk(kind, PyStr(data))];
    }

    /** `close(_ato)`: close this writer; unless the channel itself is the
        caller (`fromChannel`, the source's `_ato=True`), close the channel too. */
    method Close(fromChannel: bool)
      requires !fromChannel ==> ato.Valid()
      modifies this, ato, ato.writers.Values
      decreases if fromChannel then 0 else 2
      ensures closed
      ensures !fromChannel ==> ato.Valid()
      ensures fromChannel ==> unchanged(ato)
      ensures fromChannel ==> forall w :: w in old(ato.writers.Values) && w != this ==> w.closed == old(w.closed)
      ensures !fromChannel ==> ato.closed && ato.queue == old(ato.queue) && ato.writers == old(ato.writers)
      ensures !fromChannel ==> ato.readTask == CancelRead(old(ato.readTask))
      ensures !fromChannel ==> forall w :: w in ato.writers.Values ==> w.closed
    {
      closed := true;
      if !fromChannel {
        ato.Close();
      }
    }
  }
}
