/**
 * The framing loops of src/common/nullenc.c (and, word for word, src/common/network.c) over a
 * transport that moves any number of bytes at a time.
 */
module Framing {
  import opened Bytes
  import opened Message

  // ---- what a byte stream says, independently of how it arrives

  datatype Parsed = Eof | Broken | Message(frame: seq<byte>, rest: seq<byte>)

  function ParseOne(s: seq<byte>): (r: Parsed)
  {
    if s == [] then Eof
    else if |s| < HEADER then Broken
    else
      var n := if Length(s) < HEADER then HEADER else Length(s);
      if Length(s) >= MAX_LEN || |s| < n then Broken else Message(s[..n], s[n..])
  }

  datatype Ending = AtEof | Unfinished

  /** All the messages of a stream that ends, and whether it ends between two of them. */
  function ParseAll(s: seq<byte>): (r: (seq<seq<byte>>, Ending))
  {
    match ParseOne(s)
    case Eof => ([], AtEof)
    case Broken => ([], Unfinished)
    case Message(frame, rest) => var (frames, end) := ParseAll(rest); ([frame] + frames, end)
  }

  function Flatten(frames: seq<seq<byte>>): (s: seq<byte>)
  {
    if frames == [] then [] else frames[0] + Flatten(frames[1..])
  }

  lemma {:induction false} FlattenAppend(frames: seq<seq<byte>>, f: seq<byte>)
    ensures Flatten(frames + [f]) == Flatten(frames) + f
  {
    if frames == [] {
      assert Flatten([f]) == f + Flatten([]);
    } else {
      FlattenAppend(frames[1..], f);
      assert (frames + [f])[1..] == frames[1..] + [f];
    }
  }

  /** A frame as the senders build it: its header length is its own length, and within the limit. */
  predicate WellFramed(f: seq<byte>)
  {
    HEADER <= |f| < MAX_LEN && Length(f) == |f|
  }

  lemma FrameFirst(f: seq<byte>, t: seq<byte>)
    requires WellFramed(f)
    ensures ParseOne(f + t) == Message(f, t)
  {
    assert (f + t)[1..5] == f[1..5];
    assert (f + t)[..|f|] == f && (f + t)[|f|..] == t;
  }

  lemma {:induction false} ParseAfterFrames(frames: seq<seq<byte>>, t: seq<byte>)
    requires forall f :: f in frames ==> WellFramed(f)
    ensures ParseAll(Flatten(frames) + t) == (frames + ParseAll(t).0, ParseAll(t).1)
  {
    hide ParseOne, WellFramed;
    if frames == [] {
      assert Flatten(frames) + t == t;
      assert frames + ParseAll(t).0 == ParseAll(t).0;
    } else {
      var f, u := frames[0], Flatten(frames[1..]) + t;
      assert Flatten(frames) + t == f + u;
      ParseAfterFrames(frames[1..], t);
      FrameFirst(f, u);
      assert ParseAll(f + u) == ([f] + ParseAll(u).0, ParseAll(u).1);
      assert [f] + (frames[1..] + ParseAll(t).0) == frames + ParseAll(t).0;
    }
  }

  /** Frames sent one after the other are received as exactly these frames, and then end of file. */
  lemma FramesRoundTrip(frames: seq<seq<byte>>)
    requires forall f :: f in frames ==> WellFramed(f)
    ensures ParseAll(Flatten(frames)) == (frames, AtEof)
  {
    ParseAfterFrames(frames, []);
    assert Flatten(frames) + [] == Flatten(frames);
    assert frames + [] == frames;
  }

  /** A stream cut inside a frame yields the whole frames before the cut and then a failure. */
  lemma CutStream(frames: seq<seq<byte>>, f: seq<byte>, k: nat)
    requires forall g :: g in frames ==> WellFramed(g)
    requires WellFramed(f) && 0 < k < |f|
    ensures ParseAll(Flatten(frames) + f[..k]) == (frames, Unfinished)
  {
    ParseAfterFrames(frames, f[..k]);
    if HEADER <= k {
      assert f[..k][1..5] == f[1..5];
    }
    assert ParseOne(f[..k]) == Broken;
    assert frames + [] == frames;
  }

  /** No message is ever invented: those found, put end to end, begin the stream. */
  lemma {:induction false} ParsedIsPrefix(s: seq<byte>)
    ensures Flatten(ParseAll(s).0) <= s
    ensures ParseAll(s).1 == AtEof <==> Flatten(ParseAll(s).0) == s
    decreases |s|
  {
    match ParseOne(s)
    case Eof =>
    case Broken =>
    case Message(frame, rest) =>
      ParsedIsPrefix(rest);
      var frames := ParseAll(rest).0;
      assert ParseAll(s).0[1..] == frames;
      assert s == frame + rest;
  }

  /** Cutting a stream short can only drop messages from its end. */
  lemma {:induction false} PrefixParses(s: seq<byte>, t: seq<byte>)
    requires s <= t
    ensures ParseAll(s).0 <= ParseAll(t).0
    decreases |s|
  {
    match ParseOne(s)
    case Eof =>
    case Broken =>
    case Message(frame, rest) =>
      assert s[1..5] == t[1..5];
      assert ParseOne(t) == Message(frame, t[|frame|..]);
      PrefixParses(rest, t[|frame|..]);
  }

  // ---- the transport

  datatype Arrival = Deliver(n: nat) | RecvInterrupted | RecvFailed
  datatype Departure = Accept(n: nat) | SendInterrupted | SendFailed

  /** Of the coming recv calls, one is interrupted before `need` bytes of a header have come. */
  predicate HeaderInterrupted(arrivals: seq<Arrival>, need: int)
  {
    if arrivals == [] || need <= 0 then false
    else match arrivals[0]
         case RecvInterrupted => true
         case RecvFailed => false
         case Deliver(n) => HeaderInterrupted(arrivals[1..], need - if n == 0 then 1 else n)
  }

  /** How a recv call for n bytes, with `there` bytes on the stream, turns out. */
  predicate ArrivedAs(arrivals: seq<Arrival>, n: nat, there: nat, i: int, interrupted: bool)
  {
    if arrivals == [] then i == Min(n, there)
    else match arrivals[0]
         case RecvInterrupted => i < 0 && interrupted
         case RecvFailed => i < 0 && !interrupted
         case Deliver(k) => i == Min(if k == 0 then 1 else k, Min(n, there))
  }

  /**
   * One direction of a connection. `content` is what was sent and not yet received; after it the
   * receiver sees the end of the stream. The two schedules say how the coming recv and send calls
   * turn out; where they are used up, a call moves all it can.
   */
  class Pipe {
    var content: seq<byte>
    var arrivals: seq<Arrival>
    var departures: seq<Departure>
    ghost var interrupts: nat
    ghost var failures: nat

    constructor (arrivals: seq<Arrival>, departures: seq<Departure>)
      ensures content == [] && this.arrivals == arrivals && this.departures == departures
      ensures interrupts == 0 && failures == 0
    {
      content, this.arrivals, this.departures := [], arrivals, departures;
      interrupts, failures := 0, 0;
    }

    ghost predicate Uninterrupted()
      reads this
    {
      forall e :: e in arrivals ==> !e.RecvInterrupted?
    }

    ghost predicate Unfailing()
      reads this
    {
      forall e :: e in arrivals ==> !e.RecvFailed?
    }

    /** No recv fails or is interrupted. */
    ghost predicate Steady()
      reads this
    {
      Uninterrupted() && Unfailing()
    }

    /** Nor does a send fail; sends may stall or be interrupted. */
    ghost predicate Reliable()
      reads this
    {
      Steady() && forall e :: e in departures ==> !e.SendFailed?
    }

    /** recv(2): at least one byte unless the stream has ended. */
    method RawRecv(m: array<byte>, p: nat, n: nat) returns (i: int, interrupted: bool)
      requires 0 < n && p + n <= m.Length
      modifies this`content, this`arrivals, this`interrupts, this`failures, m
      ensures -1 <= i <= n && i <= |old(content)|
      ensures i == 0 ==> old(content) == []
      ensures i >= 0 ==> m[..] == Put(old(m[..]), p, old(content)[..i]) && content == old(content)[i..]
      ensures i < 0 ==> m[..] == old(m[..]) && content == old(content)
      ensures interrupts == old(interrupts) + if i < 0 && interrupted then 1 else 0
      ensures failures == old(failures) + if i < 0 && !interrupted then 1 else 0
      ensures i < 0 ==> |arrivals| < |old(arrivals)|
      ensures arrivals == if old(arrivals) == [] then [] else old(arrivals)[1..]
      ensures ArrivedAs(old(arrivals), n, |old(content)|, i, interrupted)
      ensures old(Unfailing()) ==> (i < 0 ==> interrupted) && Unfailing()
      ensures old(Uninterrupted()) ==> (i < 0 ==> !interrupted) && Uninterrupted()
    {
      var got := Min(n, |content|);
      if arrivals != [] {
        var e := arrivals[0];
        assert e in arrivals;
        arrivals := arrivals[1..];
        match e {
          case RecvInterrupted => interrupts := interrupts + 1; return -1, true;
          case RecvFailed => failures := failures + 1; return -1, false;
          case Deliver(k) => got := Min(if k == 0 then 1 else k, got);
        }
      }
      Store(m, p, content[..got]);
      content := content[got..];
      return got, false;
    }

    /** send(2): may take nothing. */
    method RawSend(m: array<byte>, p: nat, n: nat) returns (i: int, interrupted: bool)
      requires 0 < n && p + n <= m.Length
      modifies this`content, this`departures, this`failures
      ensures -1 <= i <= n
      ensures i >= 0 ==> content == old(content) + m[p..p + i]
      ensures i < 0 ==> content == old(content)
      ensures failures == old(failures) + if i < 0 && !interrupted then 1 else 0
      ensures i <= 0 ==> |departures| < |old(departures)|
      ensures departures == if old(departures) == [] then [] else old(departures)[1..]
      ensures old(Reliable()) ==> (i < 0 ==> interrupted) && Reliable()
    {
      i, interrupted := n, false;
      if departures != [] {
        var e := departures[0];
        assert e in departures;
        departures := departures[1..];
        match e {
          case SendInterrupted => return -1, true;
          case SendFailed => failures := failures + 1; return -1, false;
          case Accept(k) => i := Min(k, n);
        }
      }
      content := content + m[p..p + i];
    }
  }

  /**
   * nullenc_tls_recv. The counters are compared with unsigned sizes, so -1 also leaves both loops.
   *
   * Without an interruption the outcome is that of ParseOne on the stream: the next frame, its bytes
   * stored over the buffer and taken off the stream. Each recv interrupted inside the header steps the
   * counter back by one: the message returned then has lost as many bytes as calls were interrupted.
   */
  method Recv(pipe: Pipe, m: array<byte>) returns (rv: int)
    requires m.Length == MAX_LEN
    modifies pipe`content, pipe`arrivals, pipe`interrupts, pipe`failures, m
    ensures |pipe.content| <= |old(pipe.content)|
    ensures pipe.content == old(pipe.content)[|old(pipe.content)| - |pipe.content|..]
    ensures rv > 0 ==> |old(pipe.content)| == rv + |pipe.content| + (pipe.interrupts - old(pipe.interrupts))
    ensures pipe.failures == old(pipe.failures) && pipe.interrupts == old(pipe.interrupts) ==>
              match ParseOne(old(pipe.content))
              case Message(frame, rest) =>
                rv == |frame| && m[..] == Received(old(m[..]), frame) && pipe.content == rest
              case Eof => rv == 0 && m[..] == old(m[..])
              case Broken => rv == -1
    ensures pipe.failures == old(pipe.failures) || (pipe.failures > old(pipe.failures) && rv == -1)
    ensures pipe.failures == old(pipe.failures) && ParseOne(old(pipe.content)).Message? ==>
              (pipe.interrupts == old(pipe.interrupts) <==>
                 rv == |ParseOne(old(pipe.content)).frame| && pipe.content == ParseOne(old(pipe.content)).rest)
    ensures pipe.failures == old(pipe.failures) && |old(pipe.content)| >= HEADER
            && HeaderInterrupted(old(pipe.arrivals), HEADER) ==>
              pipe.interrupts > old(pipe.interrupts)
    ensures pipe.failures == old(pipe.failures) && pipe.interrupts == old(pipe.interrupts)
            && |old(pipe.content)| >= HEADER && Length(old(pipe.content)) >= MAX_LEN ==>
              rv == -1 && pipe.content == old(pipe.content)[HEADER..]
    ensures -1 <= rv < MAX_LEN
    ensures rv > 0 ==> Length(m[..]) < MAX_LEN && rv == if Length(m[..]) < HEADER then HEADER else Length(m[..])
    ensures pipe.interrupts >= old(pipe.interrupts)
    ensures old(pipe.Unfailing()) ==> pipe.Unfailing() && pipe.failures == old(pipe.failures)
    ensures old(pipe.Uninterrupted()) ==> pipe.Uninterrupted() && pipe.interrupts == old(pipe.interrupts)
  {
    hide ParseOne, Put, Get32, Length, HeaderInterrupted, Received, Pipe.Unfailing, Pipe.Uninterrupted, Tail, Outcome;
    ghost var g := Beginning(pipe.content, m[..], pipe.arrivals, pipe.interrupts, pipe.failures);
    ParseShape(g.s);
    var bytesRead, done := RecvHeader(pipe, m);
    TailIs(g.s, pipe.content);
    if done {
      return bytesRead;
    }
    rv := RecvRest(pipe, m, bytesRead, g);
    TailIs(g.s, pipe.content);
    OutcomeIs(g, rv, m[..], pipe.content);
  }

  /** What is received of the stream g.s over the buffer g.b, its header being there. */
  ghost predicate Outcome(g: Beginning, rv: int, b': Image, s': seq<byte>)
  {
    && |g.s| >= HEADER
    && match ParseOne(g.s)
       case Message(frame, rest) => rv == |frame| <= MAX_LEN && b' == Received(g.b, frame) && s' == rest
       case Eof => false
       case Broken => rv == -1 && (Length(g.s) >= MAX_LEN ==> s' == g.s[HEADER..])
  }

  lemma OutcomeIs(g: Beginning, rv: int, b': Image, s': seq<byte>)
    ensures Outcome(g, rv, b', s') ==>
              match ParseOne(g.s)
              case Message(frame, rest) => rv == |frame| <= MAX_LEN && b' == Received(g.b, frame) && s' == rest
              case Eof => false
              case Broken => rv == -1 && (|g.s| >= HEADER && Length(g.s) >= MAX_LEN ==> s' == g.s[HEADER..])
  {
  }

  /** The second loop, seen from before the first. */
  method RecvRest(pipe: Pipe, m: array<byte>, start: int, ghost g: Beginning) returns (rv: int)
    requires m.Length == MAX_LEN && (start == -1 || start == HEADER)
    requires Tail(g.s, pipe.content) && |g.s| == start + |pipe.content| + (pipe.interrupts - g.interrupts)
    requires pipe.interrupts >= g.interrupts && pipe.failures == g.failures
    requires pipe.interrupts == g.interrupts ==>
               start == HEADER && HEADER <= |g.s| && m[..] == Put(g.b, 0, g.s[..HEADER])
    modifies pipe`content, pipe`arrivals, pipe`interrupts, pipe`failures, m
    ensures Tail(g.s, pipe.content) && -1 <= rv < MAX_LEN && rv != 0
    ensures rv > 0 ==>
              && |g.s| == rv + |pipe.content| + (pipe.interrupts - g.interrupts)
              && pipe.failures == g.failures && Length(m[..]) < MAX_LEN
              && rv == if Length(m[..]) < HEADER then HEADER else Length(m[..])
    ensures pipe.interrupts >= old(pipe.interrupts) && pipe.failures >= old(pipe.failures)
    ensures pipe.failures == g.failures && pipe.interrupts == g.interrupts ==> Outcome(g, rv, m[..], pipe.content)
    ensures old(pipe.Unfailing()) ==> pipe.Unfailing() && pipe.failures == old(pipe.failures)
    ensures old(pipe.Uninterrupted()) ==> pipe.Uninterrupted() && pipe.interrupts == old(pipe.interrupts)
  {
    hide ParseOne, Put, Get32, Length, Received, Pipe.Unfailing, Pipe.Uninterrupted, Tail, Completes, Outcome;
    ghost var header: Image, rest := m[..], pipe.content;
    rv := RecvPayload(pipe, m, start);
    TailOn(g.s, rest, pipe.content);
    if pipe.interrupts == g.interrupts && pipe.failures == g.failures {
      HeaderAligned(g, header, rest, rv, m[..], pipe.content);
    }
  }

  lemma ParseShape(s: seq<byte>)
    ensures ParseOne(s) == Eof <==> s == []
    ensures 0 < |s| < HEADER || (|s| >= HEADER && Length(s) >= MAX_LEN) ==> ParseOne(s) == Broken
    ensures ParseOne(s).Message? ==>
              |ParseOne(s).frame| + |ParseOne(s).rest| == |s| && HEADER <= |ParseOne(s).frame| <= MAX_LEN
  {
  }

  lemma TailIs(s: seq<byte>, c: seq<byte>)
    requires Tail(s, c)
    ensures |c| <= |s| && c == s[|s| - |c|..]
  {
  }

  lemma TailOn(s: seq<byte>, c: seq<byte>, d: seq<byte>)
    requires Tail(s, c) && Tail(c, d)
    ensures Tail(s, d) && |d| <= |s| && d == s[|s| - |d|..]
  {
  }

  /** After the header in b, with s still to come: the frame is received, or not, as these bytes say. */
  ghost predicate Completes(b: Image, s: seq<byte>, n: int, b': Image, s': seq<byte>)
  {
    match ParseOne(b[..HEADER] + s)
    case Message(frame, rest) => n == |frame| <= MAX_LEN && b' == Received(b, frame) && s' == rest
    case _ => n == -1 && (Length(b) >= MAX_LEN ==> s' == s)
  }

  /** A header read without interruption is that of the stream, and receiving goes on over the same buffer. */
  lemma HeaderAligned(g: Beginning, header: Image, rest: seq<byte>, n: int, b': Image, s': seq<byte>)
    requires HEADER <= |g.s| && header == Put(g.b, 0, g.s[..HEADER]) && Tail(g.s, rest) && |rest| == |g.s| - HEADER
    requires Completes(header, rest, n, b', s')
    ensures Outcome(g, n, b', s')
  {
    var b, s := g.b, g.s;
    assert header[0..HEADER] == s[..HEADER];
    assert header[1..5] == s[..HEADER][1..5] == s[1..5];
    assert header[..HEADER] + rest == s;
    if ParseOne(s).Message? {
      var f := ParseOne(s).frame;
      assert f[..HEADER] == s[..HEADER];
      PutByIndex(header, 0, f, Received(b, f));
    }
  }

  /** The first loop: the header, or `done` with the value to return. */
  method RecvHeader(pipe: Pipe, m: array<byte>) returns (bytesRead: int, done: bool)
    requires m.Length == MAX_LEN
    modifies pipe`content, pipe`arrivals, pipe`interrupts, pipe`failures, m
    ensures Tail(old(pipe.content), pipe.content)
    ensures pipe.interrupts >= old(pipe.interrupts)
    ensures pipe.failures == old(pipe.failures) || (pipe.failures > old(pipe.failures) && done && bytesRead == -1)
    ensures pipe.failures == old(pipe.failures) && |old(pipe.content)| >= HEADER
            && HeaderInterrupted(old(pipe.arrivals), HEADER) ==>
              pipe.interrupts > old(pipe.interrupts)
    ensures done ==> bytesRead == 0 || bytesRead == -1
    ensures done && pipe.failures == old(pipe.failures) && pipe.interrupts == old(pipe.interrupts) ==>
              if bytesRead == 0 then old(pipe.content) == [] && m[..] == old(m[..])
                  else 0 < |old(pipe.content)| < HEADER
    ensures !done ==> bytesRead == -1 || bytesRead == HEADER
    ensures !done ==> |old(pipe.content)| == bytesRead + |pipe.content| + (pipe.interrupts - old(pipe.interrupts))
    ensures !done && pipe.interrupts == old(pipe.interrupts) ==>
              bytesRead == HEADER && m[..] == Put(old(m[..]), 0, old(pipe.content)[..HEADER])
    ensures old(pipe.Unfailing()) ==> pipe.Unfailing() && pipe.failures == old(pipe.failures)
    ensures old(pipe.Uninterrupted()) ==> pipe.Uninterrupted() && pipe.interrupts == old(pipe.interrupts)
  {
    hide Put, Pipe.Unfailing, Pipe.Uninterrupted, HeaderInterrupted, Tail, Stored;
    ghost var s, b: Image := pipe.content, m[..];
    ghost var g := Beginning(s, b, pipe.arrivals, pipe.interrupts, pipe.failures);
    NothingStored(b, s);
    bytesRead := 0;
    while 0 <= bytesRead < HEADER
      invariant Reading(pipe, m, bytesRead, g)
      invariant old(pipe.Unfailing()) ==> pipe.Unfailing()
      invariant old(pipe.Uninterrupted()) ==> pipe.Uninterrupted() && pipe.interrupts == g.interrupts
      decreases |pipe.arrivals|, HEADER - bytesRead
    {
      bytesRead, done := HeaderTurn(pipe, m, bytesRead, g);
      if done {
        return;
      }
    }
    NothingNeeded(pipe.arrivals);
    AtStart(b, s, m[..], pipe.content);
    done := false;
  }

  /** What was there when the header was begun. */
  datatype Beginning = Beginning(s: seq<byte>, b: Image, arrivals: seq<Arrival>, interrupts: nat, failures: nat)

  /** The header is being read: the counter lags behind the bytes taken by one for each interruption. */
  ghost predicate Reading(pipe: Pipe, m: array<byte>, n: int, g: Beginning)
    requires m.Length == MAX_LEN
    reads pipe, m
  {
    && -1 <= n <= HEADER && pipe.failures == g.failures && pipe.interrupts >= g.interrupts
    && n + (pipe.interrupts - g.interrupts) + |pipe.content| == |g.s| && Tail(g.s, pipe.content)
    && (pipe.interrupts == g.interrupts ==> n >= 0 && Stored(g.b, g.s, n, m[..]))
    && (pipe.interrupts == g.interrupts && |g.s| >= HEADER ==>
          HeaderInterrupted(g.arrivals, HEADER) == HeaderInterrupted(pipe.arrivals, HEADER - n))
  }

  /** One turn of the first loop. */
  method HeaderTurn(pipe: Pipe, m: array<byte>, start: nat, ghost g: Beginning) returns (bytesRead: int, done: bool)
    requires m.Length == MAX_LEN && start < HEADER && Reading(pipe, m, start, g)
    modifies pipe`content, pipe`arrivals, pipe`interrupts, pipe`failures, m
    ensures !done ==>
              && Reading(pipe, m, bytesRead, g)
              && (|pipe.arrivals| < |old(pipe.arrivals)|
                  || (|pipe.arrivals| == |old(pipe.arrivals)| && bytesRead > start))
    ensures done ==> pipe.interrupts == old(pipe.interrupts) && (bytesRead == 0 || bytesRead == -1)
    ensures done ==> Tail(g.s, pipe.content)
    ensures done ==> pipe.failures == g.failures || (pipe.failures > g.failures && bytesRead == -1)
    ensures done && pipe.failures == g.failures && pipe.interrupts == g.interrupts ==>
              if bytesRead == 0 then g.s == [] && m[..] == g.b else 0 < |g.s| < HEADER
    ensures old(pipe.Unfailing()) ==> pipe.Unfailing() && pipe.failures == g.failures
    ensures old(pipe.Uninterrupted()) ==> pipe.Uninterrupted() && pipe.interrupts == old(pipe.interrupts)
  {
    hide Put, Pipe.Unfailing, Pipe.Uninterrupted, HeaderInterrupted, ArrivedAs, Tail, Stored;
    ghost var was: Image, c, arrivals := m[..], pipe.content, pipe.arrivals;
    var i, interrupted := pipe.RawRecv(m, start, HEADER - start);
    HeaderStep(arrivals, HEADER - start, |c|, i, interrupted);
    if i < 0 {
      if !interrupted {
        AtStart(g.b, g.s, m[..], pipe.content);
        return -1, true;
      }
    } else if i == 0 {
      PutNothing(was, c);
      AtStart(g.b, g.s, was, pipe.content);
      return if start == 0 then 0 else -1, true;
    } else {
      MoreStored(g.b, was, m[..], g.s, start, i, c);
    }
    TailStep(g.s, c, i);
    return start + i, false;
  }

  ghost predicate Tail(s: seq<byte>, c: seq<byte>)
  {
    |c| <= |s| && c == s[|s| - |c|..]
  }

  /** The first n bytes of s are stored over b. */
  ghost predicate Stored(b: Image, s: seq<byte>, n: int, now: Image)
  {
    0 <= n <= |s| && n <= MAX_LEN && now == Put(b, 0, s[..n])
  }

  lemma NothingStored(b: Image, s: seq<byte>)
    ensures Stored(b, s, 0, b) && Tail(s, s)
  {
    PutNothing(b, s);
  }

  lemma TailStep(s: seq<byte>, c: seq<byte>, i: int)
    requires Tail(s, c) && i <= |c|
    ensures i >= 0 ==> Tail(s, c[i..])
  {
  }

  lemma MoreStored(b: Image, was: Image, now: Image, s: seq<byte>, n: int, i: nat, c: seq<byte>)
    requires Tail(s, c) && 0 <= n && n + i <= MAX_LEN && i <= |c| && now == Put(was, n, c[..i])
    ensures n + |c| == |s| && Stored(b, s, n, was) ==> Stored(b, s, n + i, now)
  {
    if n + |c| == |s| {
      PutMore(b, was, now, s, n, i, c);
    }
  }

  lemma AtStart(b: Image, s: seq<byte>, now: Image, c: seq<byte>)
    requires Tail(s, c)
    ensures |c| <= |s| && c == s[|s| - |c|..] && (|s| == 0 ==> s == [])
    ensures Stored(b, s, 0, now) ==> now == b
    ensures Stored(b, s, HEADER, now) ==> HEADER <= |s| && now == Put(b, 0, s[..HEADER])
  {
    PutNothing(b, s);
  }

  lemma HeaderStep(arrivals: seq<Arrival>, need: nat, there: nat, i: int, interrupted: bool)
    requires ArrivedAs(arrivals, need, there, i, interrupted) && 0 < need
    ensures i >= 0 && there >= need ==>
              HeaderInterrupted(arrivals, need)
                  == HeaderInterrupted(if arrivals == [] then [] else arrivals[1..], need - i)
    ensures i < 0 && !interrupted ==> !HeaderInterrupted(arrivals, need)
  {
  }

  lemma NothingNeeded(arrivals: seq<Arrival>)
    ensures !HeaderInterrupted(arrivals, 0)
  {
  }

  /**
   * The second loop: as much as the header in the buffer announces, whatever came before it. With the counter
   * at -1 nothing is read and that is returned.
   */
  method RecvPayload(pipe: Pipe, m: array<byte>, start: int) returns (bytesRead: int)
    requires m.Length == MAX_LEN && (start == -1 || start == HEADER)
    modifies pipe`content, pipe`arrivals, pipe`interrupts, pipe`failures, m
    ensures Tail(old(pipe.content), pipe.content)
    ensures start == -1 ==> bytesRead == -1 && m[..] == old(m[..]) && pipe.content == old(pipe.content)
    ensures -1 <= bytesRead < MAX_LEN && bytesRead != 0 && Length(m[..]) == old(Length(m[..]))
    ensures bytesRead > 0 ==>
              && pipe.failures == old(pipe.failures) && pipe.interrupts == old(pipe.interrupts)
              && bytesRead == (if Length(m[..]) < HEADER then HEADER else Length(m[..]))
              && |old(pipe.content)| == bytesRead - start + |pipe.content|
    ensures Length(m[..]) >= MAX_LEN ==> bytesRead == -1 && pipe.content == old(pipe.content)
    ensures pipe.interrupts >= old(pipe.interrupts) && pipe.failures >= old(pipe.failures)
    ensures start == HEADER && pipe.failures == old(pipe.failures) && pipe.interrupts == old(pipe.interrupts) ==>
              Completes(old(m[..]), old(pipe.content), bytesRead, m[..], pipe.content)
    ensures old(pipe.Unfailing()) ==> pipe.Unfailing() && pipe.failures == old(pipe.failures)
    ensures old(pipe.Uninterrupted()) ==> pipe.Uninterrupted() && pipe.interrupts == old(pipe.interrupts)
  {
    hide Put, U32, Pipe.Unfailing, Pipe.Uninterrupted, ArrivedAs;
    bytesRead := start;
    var len := Get32(m[..], 1);
    ghost var b: Image, s := m[..], m[..HEADER] + pipe.content;
    HeaderThere(b, pipe.content);
    // -1 is compared as the largest unsigned number
    if len >= MAX_LEN || start < 0 {
      return -1;
    }
    while bytesRead < len
      invariant HEADER == start <= bytesRead < MAX_LEN
      invariant bytesRead <= len || bytesRead == HEADER
      invariant len == Length(m[..])
      invariant pipe.failures == old(pipe.failures) && pipe.interrupts == old(pipe.interrupts)
      invariant bytesRead <= |s| && pipe.content == s[bytesRead..] && m[..] == Put(b, 0, s[..bytesRead])
      invariant old(pipe.Unfailing()) ==> pipe.Unfailing()
      invariant old(pipe.Uninterrupted()) ==> pipe.Uninterrupted()
      decreases len - bytesRead
    {
      ghost var was: Image := m[..];
      ghost var c := pipe.content;
      var i, interrupted := pipe.RawRecv(m, bytesRead, len - bytesRead);
      if i <= 0 {
        return -1;
      }
      PutMore(b, was, m[..], s, bytesRead, i, c);
      bytesRead := bytesRead + i;
    }
  }

  /** The header of a buffer, in front of what is still to come. */
  lemma HeaderThere(b: Image, c: seq<byte>)
    ensures var s := b[..HEADER] + c;
            && s[HEADER..] == c && Put(b, 0, s[..HEADER]) == b && Length(s) == Length(b)
  {
    var s := b[..HEADER] + c;
    assert s[..HEADER] == b[..HEADER] && s[1..5] == b[1..5];
    PutByIndex(b, 0, s[..HEADER], b);
  }

  lemma PutNothing(b: Image, s: seq<byte>)
    ensures Put(b, 0, s[..0]) == b
  {
  }

  lemma HeaderStored(b: Image, s: seq<byte>, n: nat)
    requires HEADER <= n <= MAX_LEN && n <= |s|
    ensures Length(Put(b, 0, s[..n])) == Length(s)
  {
    assert s[..n][1..5] == s[1..5];
  }

  lemma PutMore(b: Image, was: Image, now: Image, s: seq<byte>, n: nat, i: nat, c: seq<byte>)
    requires n + i <= MAX_LEN && i <= |c| && now == Put(was, n, c[..i])
    ensures n + |c| == |s| && c == s[n..] && was == Put(b, 0, s[..n]) ==> now == Put(b, 0, s[..n + i])
    ensures HEADER <= n ==> now[1..5] == was[1..5]
  {
  }

  /**
   * nullenc_tls_send: stalls and interruptions are retried, in any number as long as they end; what
   * reaches the stream is the frame, or a beginning of it when the transport fails.
   */
  method Send(pipe: Pipe, m: array<byte>) returns (rv: int)
    requires m.Length == MAX_LEN && Length(m[..]) <= MAX_LEN
    modifies pipe`content, pipe`departures, pipe`failures
    ensures rv == 0 || rv == -1
    ensures rv == 0 <==> pipe.failures == old(pipe.failures)
    ensures rv == 0 ==> pipe.content == old(pipe.content) + Frame(m[..])
    ensures rv == -1 ==> exists k :: 0 <= k < Length(m[..]) && pipe.content == old(pipe.content) + Frame(m[..])[..k]
    ensures old(pipe.Reliable()) ==> rv == 0 && pipe.Reliable()
  {
    ghost var f := Frame(m[..]);
    var p, bytesLeft := 0, Get32(m[..], 1);
    assert pipe.content == old(pipe.content) + f[..p];
    while bytesLeft != 0
      invariant 0 <= p && 0 <= bytesLeft && p + bytesLeft == |f|
      invariant pipe.failures == old(pipe.failures)
      invariant pipe.content == old(pipe.content) + f[..p]
      invariant old(pipe.Reliable()) ==> pipe.Reliable()
      decreases |pipe.departures|, bytesLeft
    {
      assert f[..p] == m[..p];
      var i, interrupted := pipe.RawSend(m, p, bytesLeft);
      if i < 0 {
        if !interrupted {
          assert f == Frame(m[..]) && pipe.content == old(pipe.content) + Frame(m[..])[..p];
          return -1;
        }
      } else {
        assert f[..p + i] == f[..p] + m[p..p + i];
        bytesLeft := bytesLeft - i;
        p := p + i;
      }
    }
    assert f[..p] == f;
    return 0;
  }

  /**
   * A frame whose second recv call is interrupted after one byte of the header: what is received is not the
   * frame, and no error of the transport.
   */
  method InterruptedHeader(f: seq<byte>, m: array<byte>) returns (pipe: Pipe, rv: int)
    requires WellFramed(f) && m.Length == MAX_LEN
    modifies m
    ensures pipe.failures == 0 && !(rv == |f| && pipe.content == [])
  {
    pipe := new Pipe([Deliver(1), RecvInterrupted], []);
    pipe.content := f;
    OneMessage(f);
    assert HeaderInterrupted([Deliver(1), RecvInterrupted], HEADER);
    rv := Recv(pipe, m);
  }

  lemma OneMessage(f: seq<byte>)
    requires WellFramed(f)
    ensures ParseOne(f) == Message(f, [])
  {
    FrameFirst(f, []);
    assert f + [] == f;
  }
}
