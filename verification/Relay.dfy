/**
 * ReadWriteThread of PCSCProxyService.java: one direction of the relay between the local socket and the
 * Bluetooth socket. Another thread may set the exit flag at any moment.
 */
module Relay {
  import opened Bytes
  import opened Framing
  import opened Pcsc

  const CHUNK := 1024

  /** How one turn of the loop comes out, and what other threads did before the flags were looked at. */
  datatype Turn =
    | Read(n: nat, exit: bool, interrupted: bool, write: Writing)
    | ReadFailed(exit: bool)

  datatype Writing = WriteDone | WriteFailed(done: nat, exit: bool)

  /** Why the loop was left. */
  datatype End = Finished | Exited | Interrupted | Failed

  /** Nothing happens in this turn but a read and, if there was something to read, a write. */
  predicate Ordinary(t: Turn)
  {
    t.Read? && !t.exit && !t.interrupted && t.write.WriteDone?
  }

  predicate Fails(t: Turn)
  {
    t.ReadFailed? || t.write.WriteFailed?
  }

  /** The exit flag is set during this turn. */
  predicate Exits(t: Turn)
  {
    t.exit || (t.Read? && t.write.WriteFailed? && t.write.exit)
  }

  predicate Interrupts(t: Turn)
  {
    t.Read? && t.interrupted
  }

  class ReadWriteThread {
    // what the input stream still has to give, before its end
    var input: seq<byte>
    var output: seq<byte>
    var shouldExit: bool
    // the coming turns; afterwards reads return all they can and nobody interferes
    var turns: seq<Turn>
    ghost var taken: nat

    constructor (input: seq<byte>, turns: seq<Turn>)
      ensures this.input == input && this.turns == turns && output == [] && taken == 0 && !shouldExit
    {
      this.input, this.turns, output, taken, shouldExit := input, turns, [], 0, false;
    }

    /** mInput.read(buf, 0, buf.length): -1 at the end of the stream. */
    method ReadInput(buf: array<byte>, n: nat) returns (len: int)
      requires buf.Length == CHUNK
      modifies this`input, this`taken, buf
      ensures len == -1 <==> old(input) == []
      ensures -1 <= len <= CHUNK
      ensures len >= 0 ==>
                && len <= |old(input)| && len <= n && (len == n || len == CHUNK || len == |old(input)|)
                && buf[..len] == old(input)[..len]
                && input == old(input)[len..] && taken == old(taken) + len
      ensures len < 0 ==> input == old(input) && taken == old(taken)
    {
      if input == [] {
        return -1;
      }
      len := Min(n, Min(CHUNK, |input|));
      Store(buf, 0, input[..len]);
      assert buf[..len] == buf[..][0..len];
      taken := taken + len;
      input := input[len..];
    }

    /** mOutput.write(buf, 0, len): a failure may come after some of the bytes. */
    method WriteOutput(buf: array<byte>, len: nat, write: Writing) returns (ok: bool)
      requires len <= buf.Length
      modifies this`output, this`shouldExit
      ensures ok <==> write.WriteDone?
      ensures output == old(output) + buf[..if ok then len else Min(write.done, len)]
      ensures shouldExit == (old(shouldExit) || (write.WriteFailed? && write.exit))
    {
      if write.WriteFailed? {
        var k := Min(write.done, len);
        output := output + buf[..k];
        shouldExit := shouldExit || write.exit;
        return false;
      }
      output := output + buf[..len];
      return true;
    }

    /** Of the whole input some is read, and the output is all of that, or lacks up to `missing` bytes at its end. */
    ghost predicate Relayed(whole: seq<byte>, missing: nat)
      reads this
    {
      && |output| <= taken <= |whole| && taken <= |output| + missing
      && output == whole[..|output|] && input == whole[taken..]
    }

    /** One turn of the loop: the loop goes on, or is left. */
    method OneTurn(buf: array<byte>, ghost whole: seq<byte>) returns (end: Option<End>, notified: bool)
      requires buf.Length == CHUNK && Relayed(whole, 0)
      modifies this, buf
      ensures turns == if old(turns) == [] then [] else old(turns)[1..]
      ensures !old(shouldExit) && (old(turns) == [] || Ordinary(old(turns)[0])) ==>
                !shouldExit && end == if old(input) == [] then Some(Finished) else None
      ensures end == Some(Interrupted) ==> old(turns) != [] && Interrupts(old(turns)[0])
      ensures end == Some(Failed) ==> old(turns) != [] && Fails(old(turns)[0])
      ensures end == Some(Exited) ==> old(shouldExit) || (old(turns) != [] && Exits(old(turns)[0]))
      ensures end == Some(Finished) ==> old(input) == []
      ensures old(turns) != [] && old(turns)[0].ReadFailed? ==> end == Some(Failed) || end == Some(Exited)
      ensures old(input) != [] && (old(shouldExit) || (old(turns) != [] && old(turns)[0].exit)) ==> end == Some(Exited)
      ensures old(turns) != [] && old(input) != [] && !old(shouldExit) && !old(turns)[0].exit ==>
                var t := old(turns)[0];
                && (Interrupts(t) ==> end == Some(Interrupted))
                && (t.Read? && !t.interrupted && t.n > 0 && t.write.WriteFailed? ==>
                      end == Some(if t.write.exit then Exited else Failed))
      ensures end.None? ==>
                var n := if old(turns) == [] then CHUNK else old(turns)[0].n;
                !shouldExit && taken == old(taken) + Min(n, Min(CHUNK, |old(input)|))
      ensures Relayed(whole, CHUNK)
      ensures end.None? ==> Relayed(whole, 0)
      ensures end == Some(Finished) ==> Relayed(whole, 0) && input == []
      ensures end == Some(Exited) ==> shouldExit
      ensures notified <==> end.Some? && end.value != Exited
      ensures end.None? ==> |turns| < |old(turns)| || (|turns| == |old(turns)| && |input| < |old(input)|)
    {
      var write, interrupted, n := WriteDone, false, CHUNK;
      if turns != [] {
        var turn := turns[0];
        turns := turns[1..];
        shouldExit := shouldExit || turn.exit;
        if turn.ReadFailed? {
          return Some(if shouldExit then Exited else Failed), !shouldExit;
        }
        write, interrupted, n := turn.write, turn.interrupted, turn.n;
      }
      ghost var at := taken;
      var len := ReadInput(buf, n);
      if len < 0 {
        return Some(Finished), true;
      }
      Chunk(whole, at, len, buf[..]);
      if shouldExit {
        return Some(Exited), false;
      }
      if interrupted {
        return Some(Interrupted), true;
      }
      if len > 0 {
        var ok := WriteOutput(buf, len, write);
        if !ok {
          return Some(if shouldExit then Exited else Failed), !shouldExit;
        }
      }
      return None, false;
    }

    /**
     * run(): what is written is always a beginning of what was read. It is all of it when the loop ends at
     * the end of the input; otherwise what was read last, at most one buffer full, may be missing. The
     * listener is told unless the thread was asked to exit.
     */
    method Run() returns (end: End, notified: bool)
      requires output == [] && taken == 0
      modifies this
      ensures |output| <= taken <= |old(input)| && taken <= |output| + CHUNK
      ensures output == old(input)[..|output|] && input == old(input)[taken..]
      ensures end == Finished ==> output == old(input)
      ensures end == Exited ==> shouldExit
      ensures notified <==> end != Exited
      ensures !old(shouldExit) && (forall t :: t in old(turns) ==> Ordinary(t)) ==> end == Finished
      ensures end == Interrupted ==> exists t :: t in old(turns) && Interrupts(t)
      ensures end == Failed ==> exists t :: t in old(turns) && Fails(t)
      ensures end == Exited ==> old(shouldExit) || exists t :: t in old(turns) && Exits(t)
    {
      ghost var whole := input;
      var buf := new byte[CHUNK];
      while true
        invariant Relayed(whole, 0)
        invariant |turns| <= |old(turns)| && turns == old(turns)[|old(turns)| - |turns|..]
        invariant shouldExit ==> old(shouldExit)
        decreases |turns|, |input|
      {
        var done;
        done, notified := OneTurn(buf, whole);
        if done.Some? {
          return done.value, notified;
        }
      }
    }
  }

  lemma Chunk(whole: seq<byte>, at: nat, len: nat, buf: seq<byte>)
    requires at + len <= |whole| && len <= |buf| && buf[..len] == whole[at..][..len]
    ensures whole[at..][len..] == whole[at + len..]
    ensures forall k :: 0 <= k <= len ==> whole[..at] + buf[..k] == whole[..at + k]
  {
    forall k | 0 <= k <= len
      ensures whole[..at] + buf[..k] == whole[..at + k]
    {
      assert buf[..k] == buf[..len][..k] == whole[at..][..k];
    }
  }

  /** Whole frames sent: a stopped relay passes on some first frames, unchanged. */
  lemma RelayedFrames(frames: seq<seq<byte>>, relayed: seq<byte>)
    requires forall f :: f in frames ==> WellFramed(f)
    requires relayed <= Flatten(frames)
    ensures ParseAll(relayed).0 <= frames
    ensures ParseAll(relayed) == (frames, AtEof) <==> relayed == Flatten(frames)
  {
    FramesRoundTrip(frames);
    PrefixParses(relayed, Flatten(frames));
    ParsedIsPrefix(relayed);
  }

  /**
   * A relay of whole frames: what the other side receives are first frames of those sent, unchanged, and it
   * receives all of them and then the end of the stream when the loop ran to the end of the input.
   */
  method RelayFrames(thread: ReadWriteThread, ghost frames: seq<seq<byte>>) returns (end: End, notified: bool)
    requires forall f :: f in frames ==> WellFramed(f)
    requires thread.input == Flatten(frames) && thread.output == [] && thread.taken == 0
    modifies thread
    ensures ParseAll(thread.output).0 <= frames
    ensures ParseAll(thread.output) == (frames, AtEof) <==> thread.output == Flatten(frames)
    ensures end == Finished ==> ParseAll(thread.output) == (frames, AtEof)
    ensures !old(thread.shouldExit) && (forall t :: t in old(thread.turns) ==> Ordinary(t)) ==> end == Finished
    ensures notified <==> end != Exited
  {
    hide ParseAll, Flatten, WellFramed;
    end, notified := thread.Run();
    RelayedFrames(frames, thread.output);
  }
}
