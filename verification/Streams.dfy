/** Many messages over one pipe: any frames, any chunking on the sending side, any on the receiving side. */
module Streams {
  import opened Bytes
  import opened Message
  import opened Framing

  ghost predicate AllFramed(frames: seq<seq<byte>>)
  {
    forall f :: f in frames ==> WellFramed(f)
  }

  lemma FrameOfStored(over: Image, f: seq<byte>)
    requires WellFramed(f)
    ensures Length(Received(over, f)) == |f| && Frame(Received(over, f)) == f
  {
    var b := Received(over, f);
    assert b[1..5] == f[1..5];
    assert b[0..|f|] == f;
  }

  /** Sends the frames one by one. When a send fails, the frames before it and a beginning of its own went out. */
  method SendAll(pipe: Pipe, m: array<byte>, frames: seq<seq<byte>>) returns (rv: int, ghost done: nat, ghost k: nat)
    requires m.Length == MAX_LEN && AllFramed(frames)
    modifies pipe`content, pipe`departures, pipe`failures, m
    ensures rv == 0 || rv == -1
    ensures rv == 0 ==> pipe.content == old(pipe.content) + Flatten(frames)
    ensures rv == -1 ==>
              && done < |frames| && k < |frames[done]|
              && pipe.content == old(pipe.content) + Flatten(frames[..done]) + frames[done][..k]
    ensures old(pipe.Reliable()) ==> rv == 0 && pipe.Reliable()
  {
    hide Flatten, WellFramed, Put, Frame, Length;
    done, k := 0, 0;
    NoFrames();
    assert pipe.content == old(pipe.content) + [];
    for i := 0 to |frames|
      invariant pipe.content == old(pipe.content) + Flatten(frames[..i])
      invariant old(pipe.Reliable()) ==> pipe.Reliable()
    {
      assert frames[i] in frames;
      FrameOfStored(m[..], frames[i]);
      FrameLength(frames[i]);
      Store(m, 0, frames[i]);
      ghost var before := pipe.content;
      rv := Send(pipe, m);
      if rv < 0 {
        done := i;
        k :| 0 <= k < |frames[i]| && pipe.content == before + frames[i][..k];
        return;
      }
      FlattenAppend(frames[..i], frames[i]);
      assert frames[..i + 1] == frames[..i] + [frames[i]];
      assert before + frames[i] == old(pipe.content) + (Flatten(frames[..i]) + frames[i]);
    }
    assert frames[..|frames|] == frames;
    rv := 0;
  }

  lemma NoFrames()
    ensures Flatten([]) == []
  {
  }

  lemma FrameLength(f: seq<byte>)
    requires WellFramed(f)
    ensures HEADER <= |f| < MAX_LEN
  {
  }

  /** Receives until a call returns no message. */
  method RecvAll(pipe: Pipe, m: array<byte>) returns (rv: int, frames: seq<seq<byte>>)
    requires m.Length == MAX_LEN && pipe.Uninterrupted()
    modifies pipe`content, pipe`arrivals, pipe`interrupts, pipe`failures, m
    ensures rv == 0 || rv == -1
    ensures pipe.failures >= old(pipe.failures)
    ensures pipe.failures == old(pipe.failures) ==>
              ParseAll(old(pipe.content)) == (frames, if rv == 0 then AtEof else Unfinished)
    ensures pipe.failures > old(pipe.failures) ==> rv == -1 && frames <= ParseAll(old(pipe.content)).0
    ensures old(pipe.Steady()) ==> pipe.failures == old(pipe.failures)
  {
    hide ParseOne, ParseAll, Put, Received, SoFar;
    frames := [];
    ghost var s := pipe.content;
    NoneYet(s);
    while true
      invariant pipe.Uninterrupted() && pipe.failures == old(pipe.failures)
      invariant SoFar(s, frames, pipe.content)
      invariant old(pipe.Steady()) ==> pipe.Steady()
      decreases |pipe.content|
    {
      ghost var rest, over: Image := pipe.content, m[..];
      Parsing(rest);
      NoMore(s, frames, rest);
      rv := Recv(pipe, m);
      if rv <= 0 {
        return;
      }
      PrefixStored(over, ParseOne(rest).frame);
      OneMore(s, frames, rest);
      frames := frames + [m[..rv]];
    }
  }

  /** The messages of s are these frames and those of the rest. */
  ghost predicate SoFar(s: seq<byte>, frames: seq<seq<byte>>, rest: seq<byte>)
  {
    ParseAll(s) == (frames + ParseAll(rest).0, ParseAll(rest).1)
  }

  lemma NoneYet(s: seq<byte>)
    ensures SoFar(s, [], s)
  {
    hide ParseAll;
    assert [] + ParseAll(s).0 == ParseAll(s).0;
  }

  lemma NoMore(s: seq<byte>, frames: seq<seq<byte>>, rest: seq<byte>)
    requires SoFar(s, frames, rest)
    ensures frames <= ParseAll(s).0
    ensures ParseOne(rest) == Eof ==> ParseAll(s) == (frames, AtEof)
    ensures ParseOne(rest) == Broken ==> ParseAll(s) == (frames, Unfinished)
  {
    hide ParseOne;
    assert frames + [] == frames;
  }

  lemma OneMore(s: seq<byte>, frames: seq<seq<byte>>, rest: seq<byte>)
    requires SoFar(s, frames, rest) && ParseOne(rest).Message?
    ensures SoFar(s, frames + [ParseOne(rest).frame], ParseOne(rest).rest)
  {
    hide ParseOne;
    var after := ParseAll(ParseOne(rest).rest).0;
    assert frames + ([ParseOne(rest).frame] + after) == frames + [ParseOne(rest).frame] + after;
  }

  lemma PrefixStored(over: Image, f: seq<byte>)
    requires |f| <= MAX_LEN
    ensures Received(over, f)[..|f|] == f
  {
    assert Received(over, f)[0..|f|] == f;
  }

  lemma Parsing(s: seq<byte>)
    ensures match ParseOne(s)
            case Message(f, rest) =>
              ParseAll(s) == ([f] + ParseAll(rest).0, ParseAll(rest).1) && HEADER <= |f| <= MAX_LEN
            case Eof => ParseAll(s) == ([], AtEof)
            case Broken => ParseAll(s) == ([], Unfinished)
  {
  }

  /**
   * The framing round trip, whatever the chunks on either side: what is received is the frames that were
   * sent and then 0; when the sender fails, the frames sent in full, then 0, or -1 if a beginning of the next
   * one had gone out.
   */
  method SendThenReceive(pipe: Pipe, m: array<byte>, frames: seq<seq<byte>>)
    returns (sent: int, received: seq<seq<byte>>, rv: int, ghost done: nat, ghost k: nat)
    requires m.Length == MAX_LEN && AllFramed(frames)
    requires pipe.content == [] && pipe.Steady()
    modifies pipe, m
    ensures sent == 0 ==> received == frames && rv == 0
    ensures sent != 0 ==>
              done < |frames| && k < |frames[done]| && received == frames[..done] && rv == if k == 0 then 0 else -1
    ensures old(pipe.Reliable()) ==> sent == 0
  {
    hide ParseAll, Flatten, WellFramed;
    sent, done, k := SendAll(pipe, m, frames);
    ghost var s := pipe.content;
    if sent == 0 {
      FramesRoundTrip(frames);
      assert s == Flatten(frames);
    } else {
      assert AllFramed(frames[..done]) && frames[done] in frames;
      if k == 0 {
        FramesRoundTrip(frames[..done]);
        assert s == Flatten(frames[..done]);
      } else {
        CutStream(frames[..done], frames[done], k);
        assert s == Flatten(frames[..done]) + frames[done][..k];
      }
    }
    rv, received := RecvAll(pipe, m);
  }
}
