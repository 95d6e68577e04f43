/** The write-through log stream that `PebbleHandler.execute` hands to Pebble. */
module LogWriting {
  import opened Text

  /** The log lines of a finished output: its newline split, the last piece only if non-empty. */
  function Lines(text: string): seq<string> {
    var parts := Split(text, '\n');
    if Last(parts) == "" then Front(parts) else parts
  }

  class LogWriter {
    var logged: seq<string>
    var buf: string
    var accumulated: string

    constructor ()
      ensures logged == [] && buf == "" && accumulated == ""
    {
      logged, buf, accumulated := [], "", "";
    }

    /** Logs every completed line and keeps the rest. */
    method Write(data: string) returns (n: nat)
      modifies this
      ensures n == |data|
      ensures accumulated == old(accumulated) + data
      ensures logged + [buf] == old(logged) + Split(old(buf) + data, '\n')
    {
      accumulated := accumulated + data;
      buf := buf + data;
      ghost var all := buf;
      while '\n' in buf
        invariant accumulated == old(accumulated) + data
        invariant logged + Split(buf, '\n') == old(logged) + Split(all, '\n')
        decreases |buf|
      {
        var cut := SplitOnce(buf, '\n');
        SplitFirst(cut.value.0, cut.value.1, '\n');
        Assoc(logged, [cut.value.0], Split(cut.value.1, '\n'));
        logged := logged + [cut.value.0];
        buf := cut.value.1;
      }
      n := |data|;
    }

    /** Logs the unfinished last line, if there is one. */
    method Flush()
      modifies this
      ensures logged == old(logged) + (if old(buf) == "" then [] else [old(buf)])
      ensures buf == "" && accumulated == old(accumulated)
    {
      if buf != "" {
        logged := logged + [buf];
        buf := "";
      }
    }
  }

  /** One more chunk: what is logged and buffered stays the split of the whole input. */
  lemma ChunkStep(logged: seq<string>, buf: string, text: string, chunk: string)
    requires logged + [buf] == Split(text, '\n')
    ensures logged + Split(buf + chunk, '\n') == Split(text + chunk, '\n')
  {
    SplitConcat(text, chunk, '\n');
    assert Front(logged + [buf]) == logged && Last(logged + [buf]) == buf;
  }

  lemma ChunksDone(logged: seq<string>, buf: string, text: string)
    requires logged + [buf] == Split(text, '\n')
    ensures logged == Front(Split(text, '\n'))
    ensures logged + (if buf == "" then [] else [buf]) == Lines(text)
  {
    assert Front(logged + [buf]) == logged && Last(logged + [buf]) == buf;
  }

  /** The output part of `execute`: the process writes its output in arbitrary chunks and
      exits. On a failed exit nothing is flushed and the caller gets "" (or the exception). */
  method Execute(chunks: seq<string>, exitOk: bool) returns (value: string, logged: seq<string>)
    ensures exitOk ==> value == Flatten(chunks) && logged == Lines(Flatten(chunks))
    ensures !exitOk ==> value == "" && logged == Front(Split(Flatten(chunks), '\n'))
  {
    var writer := new LogWriter();
    var i := 0;
    assert chunks[..0] == [];
    while i < |chunks|
      invariant 0 <= i <= |chunks|
      invariant fresh(writer)
      invariant writer.accumulated == Flatten(chunks[..i])
      invariant writer.logged + [writer.buf] == Split(Flatten(chunks[..i]), '\n')
    {
      ChunkStep(writer.logged, writer.buf, writer.accumulated, chunks[i]);
      FlattenAppend(chunks[..i], chunks[i]);
      assert chunks[..i + 1] == chunks[..i] + [chunks[i]];
      var _ := writer.Write(chunks[i]);
      i := i + 1;
    }
    assert chunks[..i] == chunks;
    ChunksDone(writer.logged, writer.buf, Flatten(chunks));
    if exitOk {
      writer.Flush();
      value := writer.accumulated;
    } else {
      value := "";
    }
    logged := writer.logged;
  }

  /** The lines say everything but a final newline: they determine the text up to it. */
  lemma LinesLoseOnlyTheFinalNewline(text: string)
    ensures text == Join(Lines(text), "\n") || text == Join(Lines(text), "\n") + "\n"
    ensures forall line :: line in Lines(text) ==> '\n' !in line
  {
    SplitPartsFree(text, '\n');
    JoinOfSplit(text, '\n');
    var parts := Split(text, '\n');
    if Last(parts) == "" && |parts| > 1 {
      JoinSnoc(Front(parts), "");
      assert Front(parts) + [""] == parts;
    }
  }

  lemma {:induction false} JoinSnoc(parts: seq<string>, p: string)
    requires |parts| > 0
    ensures Join(parts + [p], "\n") == Join(parts, "\n") + "\n" + p
  {
    if |parts| > 1 {
      assert (parts + [p])[1..] == parts[1..] + [p];
      JoinSnoc(parts[1..], p);
    }
  }
}
