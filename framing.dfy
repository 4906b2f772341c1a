/**
 * Framing of the control connection (the reader loop of `FTPSession::run`).
 * Bytes arrive in chunks of arbitrary size; they are queued, then moved one
 * at a time into the command buffer until the two bytes CR LF have been
 * seen consecutively. A command that has outgrown 1024 bytes once the queue
 * is drained is given up, and a zero-length read ends the session.
 */
module Framing {

  import opened Text
  import opened LineEnding

  /** Longest unterminated command that is still waited on. */
  const MaxCommand := 1024

  /** The outcome of reading one command. */
  datatype Frame =
    | Line(text: seq<byte>)        // a complete command, CR LF removed
    | Overlong(dropped: seq<byte>) // more than MaxCommand bytes without CR LF
    | Closed(partial: seq<byte>)   // the peer closed; the partial command is dropped

  /** The next read: a chunk, or the empty chunk at end of stream. */
  function Head(chunks: seq<seq<byte>>): seq<byte>
  {
    if |chunks| == 0 then [] else chunks[0]
  }

  function Tail(chunks: seq<seq<byte>>): (r: seq<seq<byte>>)
    ensures |chunks| > 0 ==> |r| < |chunks|
  {
    if |chunks| == 0 then [] else chunks[1..]
  }

  /** The bytes the peer delivers before closing (the first empty read). */
  function Received(chunks: seq<seq<byte>>): seq<byte>
    decreases |chunks|
  {
    if Head(chunks) == [] then [] else Head(chunks) + Received(Tail(chunks))
  }

  /** The receive side of the control connection; the chunks each read returns are scripted. */
  class ControlInput {
    var chunks: seq<seq<byte>>

    constructor (chunks: seq<seq<byte>>)
      ensures this.chunks == chunks
    {
      this.chunks := chunks;
    }

    /** One `read` into the 1024-byte buffer; the empty chunk means end of stream. */
    method Read() returns (chunk: seq<byte>)
      modifies this
      ensures chunk == Head(old(chunks)) && chunks == Tail(old(chunks))
    {
      if |chunks| == 0 {
        chunk := [];
      } else {
        chunk := chunks[0];
        chunks := chunks[1..];
      }
    }
  }

  predicate EndsWithCrLf(s: seq<byte>)
  {
    |s| >= 2 && s[|s| - 2] == CR && s[|s| - 1] == LF
  }

  /** No CR is immediately followed by LF anywhere in `s`. */
  predicate NoCrLf(s: seq<byte>)
  {
    forall k :: 0 <= k < |s| - 1 ==> !(s[k] == CR && s[k + 1] == LF)
  }

  /** The bytes a frame took from the stream. */
  function Consumed(f: Frame): seq<byte>
  {
    match f
    case Line(t) => t + [CR, LF]
    case Overlong(d) => d
    case Closed(p) => p
  }

  /**
   * The frame reader as a function: from the command gathered so far, the
   * queued bytes and the chunks still to come, the frame produced, the bytes
   * left queued and the chunks left over.
   */
  function Scan(command: seq<byte>, queue: seq<byte>, chunks: seq<seq<byte>>): (Frame, seq<byte>, seq<seq<byte>>)
    decreases |chunks|, |queue|
  {
    if EndsWithCrLf(command) then (Line(command[..|command| - 2]), queue, chunks)
    else if |queue| > 0 then Scan(command + [queue[0]], queue[1..], chunks)
    else if |command| > MaxCommand then (Overlong(command), [], chunks)
    else if Head(chunks) == [] then (Closed(command), [], Tail(chunks))
    else Scan(command, Head(chunks), Tail(chunks))
  }

  /**
   * Reads one command, as the nested loops of `run` do: the queue is drained
   * into the command, `pre` remembering the previous byte so that a CR at the
   * end of one read and an LF at the start of the next still end the line.
   */
  method ReadFrame(input: ControlInput, queue0: seq<byte>) returns (frame: Frame, queue: seq<byte>)
    modifies input
    ensures (frame, queue, input.chunks) == Scan([], queue0, old(input.chunks))
  {
    ghost var target := Scan([], queue0, input.chunks);
    queue := queue0;
    var command: seq<byte> := [];
    var pre: byte := 0;
    while true
      invariant Scan(command, queue, input.chunks) == target
      invariant !EndsWithCrLf(command)
      invariant pre == if |command| == 0 then 0 else command[|command| - 1]
      decreases |input.chunks|
    {
      while |queue| > 0
        invariant Scan(command, queue, input.chunks) == target
        invariant !EndsWithCrLf(command)
        invariant pre == if |command| == 0 then 0 else command[|command| - 1]
        decreases |queue|
      {
        var cur := queue[0];
        queue := queue[1..];
        command := command + [cur];
        if pre == CR && cur == LF {
          break;
        }
        pre := cur;
      }
      if EndsWithCrLf(command) || |command| > MaxCommand {
        break;
      }
      var chunk := input.Read();
      if chunk == [] {
        return Closed(command), [];
      }
      queue := chunk;
    }
    if EndsWithCrLf(command) {
      frame := Line(command[..|command| - 2]);
    } else {
      frame := Overlong(command);
    }
  }

  /**
   * Nothing is lost or reordered: the bytes pending before a line or an
   * overlong command equal the bytes it consumed followed by those pending
   * after it. A closed connection leaves everything received in the
   * dropped partial command.
   */
  lemma {:induction false} ScanConserves(command: seq<byte>, queue: seq<byte>, chunks: seq<seq<byte>>)
    ensures var (f, q, r) := Scan(command, queue, chunks);
      !f.Closed? ==> command + queue + Received(chunks) == Consumed(f) + q + Received(r)
    ensures var (f, q, r) := Scan(command, queue, chunks);
      f.Closed? ==> f.partial == command + queue + Received(chunks) && q == []
    decreases |chunks|, |queue|
  {
    if EndsWithCrLf(command) {
      PrefixEnds(command);
      assert command[..|command| - 2] + [CR, LF] == command;
    } else if |queue| > 0 {
      ScanConserves(command + [queue[0]], queue[1..], chunks);
      assert command + [queue[0]] + queue[1..] == command + queue;
    } else if |command| > MaxCommand {
      assert queue == [];
    } else if Head(chunks) == [] {
      assert queue == [] && Received(chunks) == [];
      assert command + queue + Received(chunks) == command;
    } else {
      ScanConserves(command, Head(chunks), Tail(chunks));
      AppendAssoc(command, Head(chunks), Received(Tail(chunks)));
    }
  }

  /**
   * The shape of each frame, starting from a command with no terminator in
   * it: a line holds no CR LF (the first terminator ends it), an overlong
   * command is more than 1024 bytes and empties the queue, and a command cut
   * short by the peer is at most 1024 bytes.
   */
  lemma {:induction false} ScanShape(command: seq<byte>, queue: seq<byte>, chunks: seq<seq<byte>>)
    requires NoCrLf(command)
    ensures var (f, q, r) := Scan(command, queue, chunks);
      match f
      case Line(t) => NoCrLf(t + [CR])
      case Overlong(d) => |d| > MaxCommand && NoCrLf(d) && q == []
      case Closed(p) => |p| <= MaxCommand && NoCrLf(p) && q == []
    decreases |chunks|, |queue|
  {
    if EndsWithCrLf(command) {
      assert false;
    } else if |queue| > 0 {
      var next := command + [queue[0]];
      if EndsWithCrLf(next) {
        var t := next[..|next| - 2];
        assert t + [CR] == command;
      } else {
        assert NoCrLf(next) by {
          forall k | 0 <= k < |next| - 1
            ensures !(next[k] == CR && next[k + 1] == LF)
          {
            if k < |next| - 2 {
              assert next[k] == command[k] && next[k + 1] == command[k + 1];
            }
          }
        }
        ScanShape(next, queue[1..], chunks);
      }
    } else if |command| > MaxCommand {
    } else if Head(chunks) == [] {
    } else {
      ScanShape(command, Head(chunks), Tail(chunks));
    }
  }

  /** Draining a queue that completes no terminator just appends it to the command. */
  lemma {:induction false} ScanDrain(command: seq<byte>, queue: seq<byte>, chunks: seq<seq<byte>>)
    requires NoCrLf(command + queue)
    ensures Scan(command, queue, chunks) == Scan(command + queue, [], chunks)
    decreases |queue|
  {
    if |queue| > 0 {
      var next := command + [queue[0]];
      assert command + queue == next + queue[1..];
      assert !EndsWithCrLf(command) by {
        if |command| >= 2 {
          assert (command + queue)[|command| - 2] == command[|command| - 2];
          assert (command + queue)[|command| - 1] == command[|command| - 1];
        }
      }
      ScanDrain(next, queue[1..], chunks);
    } else {
      assert command + queue == command;
    }
  }

  /**
   * A terminator split between two chunks still ends the line: a read ending
   * in CR followed by a read starting with LF yields the text before the CR,
   * and the rest of the second read stays queued for the next command.
   */
  lemma CrLfAcrossReads(a: seq<byte>, b: seq<byte>, rest: seq<seq<byte>>)
    requires NoCrLf(a) && |a| < MaxCommand
    ensures Scan([], [], [a + [CR], [LF] + b] + rest) == (Line(a), b, rest)
  {
    var first, second := a + [CR], [LF] + b;
    var chunks := [first, second] + rest;
    assert Head(chunks) == first && Tail(chunks) == [second] + rest;
    assert Scan([], [], chunks) == Scan([], first, [second] + rest);
    assert NoCrLf([] + first) by {
      assert [] + first == first;
      forall k | 0 <= k < |first| - 1
        ensures !(first[k] == CR && first[k + 1] == LF)
      {
        assert first[k] == a[k];
        if k + 1 < |a| {
          assert first[k + 1] == a[k + 1];
        }
      }
    }
    ScanDrain([], first, [second] + rest);
    assert [] + first == first;
    assert Head([second] + rest) == second && Tail([second] + rest) == rest;
    assert !EndsWithCrLf(first) && |first| <= MaxCommand;
    assert Scan(first, [], [second] + rest) == Scan(first, second, rest);
    assert second[0] == LF && second[1..] == b;
    assert first + [second[0]] == a + [CR, LF];
    assert Scan(first, second, rest) == Scan(a + [CR, LF], b, rest);
    assert (a + [CR, LF])[..|a|] == a;
  }

  /**
   * The first terminator in the pending bytes, when it ends within the first
   * 1026 bytes, always yields a line holding exactly the bytes before it:
   * neither the length limit nor the end of the stream can intervene.
   */
  lemma {:induction false} ScanFindsLine(command: seq<byte>, queue: seq<byte>, chunks: seq<seq<byte>>, i: nat)
    requires var s := command + queue + Received(chunks);
      i + 1 < |s| && s[i] == CR && s[i + 1] == LF && NoCrLf(s[..i + 1])
    requires |command| <= i + 2 && i < MaxCommand
    ensures Scan(command, queue, chunks).0 == Line((command + queue + Received(chunks))[..i])
    decreases |chunks|, |queue|
  {
    var s := command + queue + Received(chunks);
    assert command == s[..|command|];
    if 2 <= |command| <= i + 1 {
      assert s[..i + 1][|command| - 2] == command[|command| - 2];
      assert s[..i + 1][|command| - 1] == command[|command| - 1];
    }
    if |command| == i + 2 {
      assert command[i] == CR && command[i + 1] == LF;
    }
    if EndsWithCrLf(command) {
    } else if |queue| > 0 {
      var next := command + [queue[0]];
      assert next + queue[1..] + Received(chunks) == s;
      ScanFindsLine(next, queue[1..], chunks, i);
    } else if |command| > MaxCommand {
      assert false;
    } else if Head(chunks) == [] {
      assert false;
    } else {
      AppendAssoc(command, Head(chunks), Received(Tail(chunks)));
      ScanFindsLine(command, Head(chunks), Tail(chunks), i);
    }
  }
}
