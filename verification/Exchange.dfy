/**
 * pp_exchangeMsg and the calls built on it: one client session, its connection in both directions and
 * the server process at the other end.
 */
module Exchange {
  import opened Bytes
  import opened Message
  import opened Pcsc
  import opened Client
  import opened Server
  import opened RequestDelivery
  import opened AnswerDelivery
  import opened Framing
  import opened Service

  /** The checks pass and the request is short enough for the receiving loop. */
  predicate Sendable(c: Call)
  {
    Admitted(c) && RequestEnd(c) < MAX_LEN
  }

  /** One exchange at the level of messages; None when the client's pp_exchangeMsg fails. */
  ghost function Wire(lib: Library, history: seq<Call>, c: Call, h: int, stale: Image): (r: (Option<Reply>, seq<Call>))
    requires Lawful(lib) && Sendable(c)
  {
    RequestDelivered(c, h, stale);
    var b := Marshal(c, h);
    var q := Received(stale, Frame(b));
    var (y, after) := Serve(lib, history, q);
    if HEADER <= Length(y) < MAX_LEN then (Some(Unmarshal(c, Received(b, Frame(y)))), after) else (None, after)
  }

  ghost function WireCall(lib: Library, history: seq<Call>, c: Call, h: int, stale: Image): (r: (Reply, seq<Call>))
    requires Lawful(lib) && Sendable(c)
  {
    var (r, after) := Wire(lib, history, c, h, stale);
    (if r.Some? then r.value else Code(INTERNAL_ERROR), after)
  }

  /** The answer does not take up the whole message buffer. */
  predicate Short(c: Call, a: Reply)
    requires Admitted(c)
  {
    && (c.Transmit? ==> a.Response?)
    && (c.ListReaders? || c.ListReaderGroups? ==> a.Names?)
    && ReplyEnd(c, a) < MAX_LEN
  }

  /** The library's answer a to the forwarded call reaches the caller as r. */
  ghost predicate Reported(c: Call, h: int, a: Reply, r: Reply)
    requires Admitted(c) && !c.SetTimeout?
  {
    Answers(Forwarded(c, h), a) && if Short(c, a) then Faithful(c, h, a, r) else r == Code(INTERNAL_ERROR)
  }

  /**
   * Receiving over b from a stream s that then ends gives rv, b' and leaves s'. A header that announces too
   * much is taken off the stream alone.
   */
  ghost predicate Takes(b: Image, s: seq<byte>, rv: int, b': Image, s': seq<byte>)
  {
    match ParseOne(s)
    case Message(frame, rest) => |frame| <= MAX_LEN && rv == 0 && b' == Received(b, frame) && s' == rest
    case Eof => rv == 0 && b' == b && s' == []
    case Broken => rv == -1 && (HEADER <= |s| && Length(s) >= MAX_LEN ==> s' == s[HEADER..])
  }

  class Session {
    const up: Pipe
    const down: Pipe
    const process: Process

    constructor (up: Pipe, down: Pipe, process: Process)
      ensures this.up == up && this.down == down && this.process == process
    {
      this.up, this.down, this.process := up, down, process;
    }

    /** What an exchange changes. */
    ghost function Wires(): (ws: set<object>)
    {
      {up, down, process}
    }

    /** The server has taken every request; the transport may still chunk as it likes. */
    ghost predicate Ready()
      reads up, down, process
    {
      up != down && up.Reliable() && down.Reliable() && up.content == [] && Lawful(process.library)
    }

    /** Nor is anything left of an answer. */
    ghost predicate Idle()
      reads up, down, process
    {
      Ready() && down.content == []
    }

    /**
     * Send the request, let the server answer it, receive an answer over the request. What is received is
     * the next frame of what earlier answers left on the stream and this one. When the server process is
     * gone the stream ends, and an end counts as an answer too: the request stays in m. `stack` is the
     * server's uninitialised message buffer. When the transport refuses the request, nothing is received and
     * nobody is asked.
     */
    method ExchangeMsg(m: array<byte>, stack: array<byte>, alive: bool) returns (rv: int, ghost sent: bool)
      requires up != down && Lawful(process.library) && m != stack && m.Length == MAX_LEN == stack.Length
      requires HEADER <= Length(m[..]) < MAX_LEN && m[0] <= LIST_GROUPS
      requires Sound(Received(stack[..], Frame(m[..])))
      modifies up, down, process, stack, m
      ensures rv == 0 || rv == -1
      ensures !sent ==>
                && rv == -1 && m[..] == old(m[..]) && process.history == old(process.history)
                && down.content == old(down.content) && up.failures != old(up.failures)
                && exists k :: 0 <= k < Length(m[..]) && up.content == old(up.content) + Frame(m[..])[..k]
      ensures old(Ready()) ==> sent
      ensures old(Ready()) && !alive ==>
                && process.history == old(process.history)
                && Takes(old(m[..]), old(down.content), rv, m[..], down.content)
      ensures var q := Received(old(stack[..]), Frame(old(m[..])));
              old(Ready()) && alive ==>
              var (y, history) := Serve(process.library, old(process.history), q);
              && process.history == history && HEADER <= Length(y) <= MAX_LEN && Ready()
              && Takes(old(m[..]), old(down.content) + Frame(y), rv, m[..], down.content)
    {
      hide Serve, Put, U32, ParseOne, Sound;
      ghost var b: Image := m[..];
      ghost var f, ready := Frame(b), Ready();
      rv := Send(up, m);
      sent := rv == 0;
      if rv < 0 {
        return;
      }
      OneFrame(f);
      assert [] + f == f;
      assert f[0] == b[0];
      ghost var stale: Image := stack[..];
      if alive {
        ReceivedSlices(stale, b);
        ServedLength(process.library, process.history, Received(stale, f));
        assert ready ==> ParseOne(up.content) == Message(f, []);
        var outcome, image := NextMsg(up, down, stack, process);
        assert ready ==> outcome == Service.Served;
      }
      ParsedEnds(down.content);
      rv := Recv(down, m);
      if rv < 0 {
        return;
      }
      // pp_exchangeMsg tests for rv < 0 only
      rv := 0;
    }

    /**
     * From marshalling to unmarshalling, over any chunking of either direction and any content of the
     * server's buffer; None when the exchange fails. The library performs exactly the forwarded call.
     */
    method Forward(c: Call, h: int, stack: array<byte>) returns (r: Option<Reply>)
      requires Idle() && Sendable(c) && !c.SetTimeout? && stack.Length == MAX_LEN
      modifies up, down, process, stack
      ensures (r, process.history) == Wire(process.library, old(process.history), c, h, old(stack[..]))
      ensures process.history == old(process.history) + [Forwarded(c, h)]
      ensures AnswerFits(Forwarded(c, h), process.library(process.history)) ==> Idle()
    {
      hide Short, Answers, Marshal, Unmarshal, Forwarded, Serve, Answer, Sound, Faithful, RequestEnd, ReplyEnd,
        Received, Frame, Takes, ParseOne, AnswerFits;
      var m := new byte[MAX_LEN];
      BuildRequest(m, c, h);
      RequestSound(c, h, stack[..]);
      ghost var b: Image := m[..];
      ghost var q := Received(stack[..], Frame(b));
      RequestDelivered(c, h, stack[..]);
      ServeAsked(process.library, process.history, q, Forwarded(c, h));
      var rv, sent := ExchangeMsg(m, stack, true);
      TakesAnswer(b, Serve(process.library, old(process.history), q).0, rv, m[..], down.content);
      ghost var a := process.library(process.history);
      AnswerKind(c, h, a);
      AnswerDelivered(c, h, a, old(stack[..]));
      r := if rv < 0 then None else Some(Unmarshal(c, m[..]));
    }

    /** A call on this session: the caller gets the answer unless it is as long as the message buffer. */
    method CallLibrary(c: Call, h: int, stack: array<byte>) returns (r: Reply)
      requires Idle() && Sendable(c) && !c.SetTimeout? && stack.Length == MAX_LEN
      modifies up, down, process, stack
      ensures (r, process.history) == WireCall(process.library, old(process.history), c, h, old(stack[..]))
      ensures process.history == old(process.history) + [Forwarded(c, h)]
      ensures Reported(c, h, process.library(process.history), r)
      ensures Short(c, process.library(process.history)) ==> Idle()
    {
      hide Short, Answers, Forwarded, Faithful, ReplyEnd, Wire, AnswerFits, Sendable;
      WireReports(process.library, process.history, c, h, stack[..]);
      var o := Forward(c, h, stack);
      AnswerKind(c, h, process.library(process.history));
      r := if o.Some? then o.value else Code(INTERNAL_ERROR);
    }
  }

  /** As the server sees it: the answer a to the call f it was asked is not as long as the message buffer. */
  predicate AnswerFits(f: Call, a: Reply)
  {
    && (f.Transmit? ==> a.Response? && TRANSMIT_DATA + a.length < MAX_LEN)
    && (f.ListReaders? || f.ListReaderGroups? ==> a.Names? && (f.query || LIST_DATA + a.length < MAX_LEN))
  }

  /** Every answer so far left the connection empty. */
  ghost predicate InStep(lib: Library, history: seq<Call>)
  {
    forall n :: 0 <= n < |history| ==> AnswerFits(history[n], lib(history[..n + 1]))
  }

  lemma InStepMore(lib: Library, history: seq<Call>, f: Call)
    ensures InStep(lib, history + [f]) <==> InStep(lib, history) && AnswerFits(f, lib(history + [f]))
  {
    hide AnswerFits;
    var more := history + [f];
    assert more[..|history| + 1] == more && more[|history|] == f;
    assert forall n :: 0 <= n < |history| ==> more[n] == history[n] && more[..n + 1] == history[..n + 1];
  }

  lemma AnswerKind(c: Call, h: int, a: Reply)
    requires Sendable(c) && !c.SetTimeout? && Answers(Forwarded(c, h), a)
    ensures Short(c, a) <==> ReplyEnd(c, a) < MAX_LEN
    ensures Short(c, a) <==> AnswerFits(Forwarded(c, h), a)
  {
  }

  lemma RequestSound(c: Call, h: int, stale: Image)
    requires Admitted(c) && RequestEnd(c) < MAX_LEN
    ensures var b := Marshal(c, h);
            HEADER <= Length(b) < MAX_LEN && b[0] <= LIST_GROUPS && Sound(Received(stale, Frame(b)))
  {
    hide Marshal, Sound, Received, RequestEnd, Forwarded, RequestIn;
    RequestDelivered(c, h, stale);
    KnownRequests(Received(stale, Frame(Marshal(c, h))));
  }

  lemma ServeAsked(lib: Library, history: seq<Call>, q: Image, f: Call)
    requires Lawful(lib) && Sound(q) && RequestIn(q) == Ask(f)
    ensures Fits(f) && Answers(f, lib(history + [f]))
    ensures Serve(lib, history, q) == (Answer(q, f, lib(history + [f])), history + [f])
  {
    RequestFits(q);
    assert Answers(f, lib(history + [f]));
  }

  /** With nothing left over, an answer is received unless it takes up the whole buffer. */
  lemma TakesAnswer(b: Image, y: Image, rv: int, b': Image, left: seq<byte>)
    requires HEADER <= Length(y) <= MAX_LEN && Takes(b, [] + Frame(y), rv, b', left)
    ensures Length(y) < MAX_LEN ==> rv == 0 && b' == Received(b, Frame(y)) && left == []
    ensures Length(y) == MAX_LEN ==> rv == -1 && left == Frame(y)[HEADER..]
  {
    HeadOfFrame(y);
    assert [] + Frame(y) == Frame(y);
    OneFrame(Frame(y));
  }

  /**
   * Out of step. An answer that took up the whole buffer leaves all but its header, and the next exchange
   * receives from there whatever its own answer f is: it succeeds, on bytes of the old answer, exactly if
   * the length field read at their second byte is within the limit.
   */
  lemma OutOfStep(y: Image, f: seq<byte>, b: Image, rv: int, b': Image, left: seq<byte>)
    requires Length(y) == MAX_LEN && WellFramed(f) && Takes(b, Frame(y)[HEADER..] + f, rv, b', left)
    ensures var n := Get32(y, HEADER + 1);
            && (rv == 0 <==> n < MAX_LEN)
            && (n <= MAX_LEN - HEADER ==> b' == Received(b, y[HEADER..HEADER + if n < HEADER then HEADER else n]))
  {
    var rest := Frame(y)[HEADER..];
    assert rest == y[HEADER..];
    assert (rest + f)[1..5] == y[HEADER + 1..HEADER + 5];
    var n := Get32(y, HEADER + 1);
    var k := if n < HEADER then HEADER else n;
    if n < MAX_LEN {
      assert ParseOne(rest + f) == Message((rest + f)[..k], (rest + f)[k..]);
      if k <= |rest| {
        assert (rest + f)[..k] == y[HEADER..HEADER + k];
      }
    }
  }

  lemma ParsedEnds(s: seq<byte>)
    ensures ParseOne(s).Message? ==> |ParseOne(s).frame| <= MAX_LEN
    ensures ParseOne(s) == Eof ==> s == []
  {
  }

  lemma OneFrame(f: seq<byte>)
    ensures WellFramed(f) ==> ParseOne(f) == Message(f, [])
    ensures |f| == MAX_LEN && Length(f) == MAX_LEN ==> ParseOne(f) == Broken
  {
    if WellFramed(f) {
      FrameFirst(f, []);
      assert f + [] == f;
    }
  }

  lemma HeadOfFrame(b: Image)
    requires HEADER <= Length(b) <= MAX_LEN
    ensures Length(Frame(b)) == Length(b)
  {
    assert Frame(b)[1..5] == b[1..5];
  }

  /** At the level of messages an exchange performs the forwarded call and reports its answer. */
  lemma WireReports(lib: Library, history: seq<Call>, c: Call, h: int, stale: Image)
    requires Lawful(lib) && Sendable(c) && !c.SetTimeout?
    ensures var (o, after) := Wire(lib, history, c, h, stale);
            && after == history + [Forwarded(c, h)]
            && Answers(Forwarded(c, h), lib(after))
            && (if Short(c, lib(after)) then o.Some? && Faithful(c, h, lib(after), o.value) else o == None)
  {
    hide Marshal, Unmarshal, Forwarded, Serve, Answer, Sound, Faithful, RequestEnd, ReplyEnd, Received, Frame,
      Short, Answers;
    RequestDelivered(c, h, stale);
    var q := Received(stale, Frame(Marshal(c, h)));
    ServeAsked(lib, history, q, Forwarded(c, h));
    var a := lib(history + [Forwarded(c, h)]);
    AnswerKind(c, h, a);
    AnswerDelivered(c, h, a, stale);
  }
}
