/** Values shared by the runners and the bot: the kinds of output chunk
    (exec/runner/base.py, OutputType) and the Python values they carry. */
module Base {

  datatype Option<+T> = None | Some(value: T)

  /** The kind tag of a chunk. The runners define only the first three;
      the bot also tests for Exception, so it is a constructor here too. */
  datatype OutputType = Stdout | Stderr | Return | Exception

  /** A Python value as far as this model needs to tell values apart:
      None, a string, or any other object (identified opaquely). */
  datatype PyValue = PyNone | PyStr(s: string) | PyObject(id: nat)

  /** How a runner's stream ends for its consumer: the generator finishes,
      it never yields again, or an exception escapes from it. */
  datatype StreamEnd = Ended | Stalls | Escapes

  /** One element of a runner's output stream, the tuple (kind, data). */
  datatype Chunk = Chunk(kind: OutputType, data: PyValue)

  /** A chunk that a writer produces: text on stdout or stderr. */
  predicate IsTextChunk(c: Chunk) {
    (c.kind == Stdout || c.kind == Stderr) && c.data.PyStr?
  }

  /** Every stdout and stderr chunk of the stream carries a string. */
  predicate TextChunks(stream: seq<Chunk>) {
    forall i :: 0 <= i < |stream| && (stream[i].kind == Stdout || stream[i].kind == Stderr) ==> stream[i].data.PyStr?
  }
}
