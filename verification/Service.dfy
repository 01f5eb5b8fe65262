/** pp_nextMsg and pp_handleConnection: one forked server process answering one connection. */
module Service {
  import opened Bytes
  import opened Message
  import opened Pcsc
  import opened Server
  import opened Framing

  lemma KnownRequests(b: Image)
    requires Sound(b)
    ensures RequestIn(b).Unknown? <==> b[0] > LIST_GROUPS
  {
  }

  /** The body of the server's switch: the handler for the type of the message, in place. */
  method Dispatch(m: array<byte>, process: Process) returns (known: bool)
    requires m.Length == MAX_LEN && Sound(m[..]) && Lawful(process.library)
    modifies m, process
    ensures known <==> old(m[0]) <= LIST_GROUPS
    ensures known ==> (m[..], process.history) == Serve(process.library, old(process.history), old(m[..]))
    ensures !known ==> m[..] == old(m[..]) && process.history == old(process.history)
  {
    hide Put, Put32, Get32, GetS32, ReaderOf, CString, ListRoomIn, ConnectIn, ReconnectIn, StatusIn, ChangeIn,
      ControlIn, TransmitIn;
    var kind := m[0];
    if kind == ESTABLISH_CONTEXT {
      HandleEstablishContext(m, process);
    } else if kind == RELEASE_CONTEXT {
      HandleCode(m, process, ReleaseContext(Get32(m[..], HANDLE)), ESTABLISH_RV);
    } else if kind == IS_VALID_CONTEXT {
      HandleCode(m, process, IsValidContext(Get32(m[..], HANDLE)), SHORT_RV);
    } else if kind == SET_TIMEOUT {
      // not executed
    } else if kind == CONNECT {
      HandleConnect(m, process);
    } else if kind == RECONNECT {
      HandleReconnect(m, process);
    } else if kind == DISCONNECT {
      HandleCode(m, process, Disconnect(GetS32(m[..], HANDLE), Get32(m[..], WORD_ARG)), WORD_RV);
    } else if kind == BEGIN_TRANSACTION {
      HandleCode(m, process, BeginTransaction(GetS32(m[..], HANDLE)), SHORT_RV);
    } else if kind == END_TRANSACTION {
      HandleCode(m, process, EndTransaction(GetS32(m[..], HANDLE), Get32(m[..], WORD_ARG)), WORD_RV);
    } else if kind == CANCEL_TRANSACTION || kind == CANCEL {
      HandleCode(m, process, Cancel(GetS32(m[..], HANDLE)), SHORT_RV);
    } else if kind == STATUS {
      HandleStatus(m, process);
    } else if kind == GET_STATUS_CHANGE {
      HandleGetStatusChange(m, process);
    } else if kind == CONTROL {
      HandleControl(m, process);
    } else if kind == TRANSMIT {
      HandleTransmit(m, process);
    } else if kind == GET_ATTRIB {
      HandleGetAttrib(m, process);
    } else if kind == SET_ATTRIB {
      HandleCode(m, process, SetAttribIn(m[..]), ATTRIB_RV);
    } else if kind == LIST_READERS {
      RequestFits(m[..]);
      HandleList(m, process, ListReaders(GetS32(m[..], HANDLE), Get32(m[..], LIST_QUERY) != 0, ListRoomIn(m[..])));
    } else if kind == LIST_GROUPS {
      RequestFits(m[..]);
      HandleList(m, process, ListReaderGroups(GetS32(m[..], HANDLE), Get32(m[..], LIST_QUERY) != 0, ListRoomIn(m[..])));
    } else {
      return false;
    }
    return true;
  }

  /** Overrun: a count or a name in the message leads behind its buffer, where what the handlers do is not defined. */
  datatype Outcome = Served | Closed | RecvError | SendError | UnknownType | Overrun

  /** A message was received. */
  predicate Got(outcome: Outcome)
  {
    outcome != Closed && outcome != RecvError
  }

  /** It was handled. */
  predicate Handled(outcome: Outcome)
  {
    outcome == Served || outcome == SendError
  }

  /**
   * pp_nextMsg: receive, dispatch, send the same message back. m is its uninitialised stack buffer, and
   * `image` what it holds once the message is received. Interruptions may garble a message; uninterrupted,
   * it is the next frame of the stream over what the buffer held.
   */
  method NextMsg(up: Pipe, down: Pipe, m: array<byte>, process: Process) returns (outcome: Outcome, ghost image: Image)
    requires m.Length == MAX_LEN && Lawful(process.library) && up != down
    modifies up, down, m, process
    ensures up.interrupts >= old(up.interrupts) && up.failures >= old(up.failures)
    ensures old(up.Steady()) ==> up.Steady() && up.interrupts == old(up.interrupts) && up.failures == old(up.failures)
    ensures up.departures == old(up.departures) && down.arrivals == old(down.arrivals)
    ensures old(down.Reliable()) ==> down.Reliable() && outcome != SendError
    ensures Got(outcome) ==> |up.content| < |old(up.content)| && up.failures == old(up.failures)
    ensures up.interrupts == old(up.interrupts) ==>
              match ParseOne(old(up.content))
              case Message(frame, rest) =>
                Got(outcome) ==> |frame| <= MAX_LEN && image == Received(old(m[..]), frame) && up.content == rest
              case Eof => !Got(outcome) && (up.failures == old(up.failures) ==> outcome == Closed)
              case Broken => !Got(outcome) && outcome != Closed
    ensures up.interrupts == old(up.interrupts) && up.failures == old(up.failures) ==>
              (Got(outcome) <==> ParseOne(old(up.content)).Message?)
    ensures outcome == Closed && up.interrupts == old(up.interrupts) ==> ParseOne(old(up.content)) == Eof
    ensures Got(outcome) ==> (outcome == Overrun <==> !Sound(image))
    ensures Got(outcome) ==> (outcome == UnknownType <==> Sound(image) && image[0] > LIST_GROUPS)
    ensures !Handled(outcome) ==> down.content == old(down.content) && process.history == old(process.history)
    ensures Handled(outcome) ==>
              var (reply, history) := Serve(process.library, old(process.history), image);
              && process.history == history && Length(reply) <= MAX_LEN && reply[0] == image[0]
              && (outcome == Served ==> down.content == old(down.content) + Frame(reply))
              && (outcome == SendError ==>
                    exists k :: 0 <= k < Length(reply) && down.content == old(down.content) + Frame(reply)[..k])
  {
    hide Put, Serve, Get32, Sound, Received;
    image := m[..];
    var rv := Recv(up, m);
    if rv == 0 {
      return Closed, m[..];
    } else if rv < 0 {
      return RecvError, m[..];
    }
    image := m[..];
    if !Sound(m[..]) {
      return Overrun, image;
    }
    var known := Dispatch(m, process);
    if !known {
      return UnknownType, image;
    }
    ServedLength(process.library, old(process.history), image);
    rv := Send(down, m);
    outcome := if rv < 0 then SendError else Served;
  }

  lemma ServedLength(lib: Library, history: seq<Call>, b: Image)
    requires Lawful(lib) && Sound(b)
    ensures Length(Serve(lib, history, b).0) <= MAX_LEN
    ensures HEADER <= Length(b) ==> HEADER <= Length(Serve(lib, history, b).0)
  {
    match RequestIn(b)
    case Ask(c) =>
      RequestFits(b);
      assert Answers(c, lib(history + [c]));
      AnswerLength(b, c, lib(history + [c]));
    case _ =>
  }

  ghost predicate AllSound(images: seq<Image>)
  {
    forall b :: b in images ==> Sound(b)
  }

  /** A run of the session over the messages received: the replies, and the library's history at the end. */
  ghost function Run(lib: Library, history: seq<Call>, images: seq<Image>): (r: (seq<seq<byte>>, seq<Call>))
    requires Lawful(lib) && AllSound(images)
    ensures |r.0| == |images|
  {
    if images == [] then ([], history)
    else
      var n := |images| - 1;
      var (replies, before) := Run(lib, history, images[..n]);
      assert Sound(images[n]);
      ServedLength(lib, before, images[n]);
      var (reply, after) := Serve(lib, before, images[n]);
      (replies + [Frame(reply)], after)
  }

  /** Every reply to a complete header is framed, and carries the type of its own request. */
  lemma {:induction false} RepliesInStep(lib: Library, history: seq<Call>, images: seq<Image>)
    requires Lawful(lib) && AllSound(images)
    ensures var replies := Run(lib, history, images).0;
            forall k :: 0 <= k < |images| && HEADER <= Length(images[k]) ==>
              |replies[k]| >= HEADER && Length(replies[k]) == |replies[k]| && replies[k][0] == images[k][0]
  {
    hide Serve, Sound;
    if images != [] {
      var n := |images| - 1;
      RepliesInStep(lib, history, images[..n]);
      var before := Run(lib, history, images[..n]).1;
      assert Sound(images[n]);
      ServedLength(lib, before, images[n]);
      var reply := Serve(lib, before, images[n]).0;
      assert HEADER <= Length(images[n]) ==> Frame(reply)[1..5] == reply[1..5];
    }
  }

  lemma RunMore(lib: Library, history: seq<Call>, images: seq<Image>, b: Image)
    requires Lawful(lib) && AllSound(images) && Sound(b)
    ensures var (replies, before) := Run(lib, history, images);
            Length(Serve(lib, before, b).0) <= MAX_LEN &&
            var (reply, after) := Serve(lib, before, b);
            && AllSound(images + [b])
            && Run(lib, history, images + [b]) == (replies + [Frame(reply)], after)
  {
    hide Serve, Sound;
    var before := Run(lib, history, images).1;
    ServedLength(lib, before, b);
    assert (images + [b])[..|images|] == images;
  }

  /** All replies but the last were sent, and of the last one only a beginning. */
  ghost predicate CutInLast(before: seq<byte>, replies: seq<seq<byte>>, after: seq<byte>)
  {
    && |replies| > 0
    && var n := |replies| - 1;
       exists k :: 0 <= k < |replies[n]| && after == before + Flatten(replies[..n]) + replies[n][..k]
  }

  /** Message k is request k, received over what the buffer held by then. */
  ghost predicate Frames(requests: seq<seq<byte>>, buffers: seq<Image>, images: seq<Image>)
  {
    && |requests| == |buffers| == |images|
    && forall k :: 0 <= k < |images| ==> |requests[k]| <= MAX_LEN && images[k] == Received(buffers[k], requests[k])
  }

  /** The loop ended as the stream says: after the requests answered comes its end, a broken frame, or one refused. */
  ghost predicate EndsAs(outcome: Outcome, requests: seq<seq<byte>>, all: seq<seq<byte>>, ending: Ending, failed: bool)
  {
    && requests <= all
    && (outcome == Closed ==> requests == all && ending == AtEof)
    && (outcome == RecvError && !failed ==> requests == all && ending == Unfinished)
    && (outcome == UnknownType ==> |requests| < |all| && |all[|requests|]| > 0 && all[|requests|][0] > LIST_GROUPS)
    && (outcome == Overrun ==>
          |requests| < |all| && |all[|requests|]| <= MAX_LEN
              && exists over: Image :: !Sound(Received(over, all[|requests|])))
  }

  /**
   * pp_handleConnection: serve until a message does not come, cannot be answered, is of no known type or
   * leads behind the buffer. Each message received is answered by one reply before the next is received, and
   * nothing else is sent; after a failed send one reply is missing or cut. Uninterrupted, the messages are
   * the requests of the stream, in order.
   */
  method HandleConnection(up: Pipe, down: Pipe, m: array<byte>, process: Process)
    returns (outcome: Outcome, ghost images: seq<Image>, ghost requests: seq<seq<byte>>, ghost buffers: seq<Image>)
    requires m.Length == MAX_LEN && Lawful(process.library) && up != down
    modifies up, down, m, process
    ensures outcome != Served
    ensures AllSound(images) && forall b :: b in images ==> b[0] <= LIST_GROUPS
    ensures process.history == Run(process.library, old(process.history), images).1
    ensures var replies := Run(process.library, old(process.history), images).0;
            if outcome != SendError then down.content == old(down.content) + Flatten(replies)
            else CutInLast(old(down.content), replies, down.content)
    ensures outcome == SendError ==> !old(down.Reliable())
    ensures up.interrupts == old(up.interrupts) ==>
              && Frames(requests, buffers, images)
              && var (all, ending) := ParseAll(old(up.content));
                 EndsAs(outcome, requests, all, ending, up.failures > old(up.failures))
  {
    hide Serve, ParseOne, ParseAll, Sound, Frame, Length, Run, Flatten, CutInLast, Received, AllSound, Frames, EndsAs;
    images, requests, buffers := [], [], [];
    ghost var s, sent := up.content, down.content;
    ghost var lib, h0 := process.library, process.history;
    StartOfService(lib, h0, sent);
    assert ParseAll(s).0 == [] + ParseAll(s).0;
    while true
      invariant InService(lib, h0, images, sent, down.content, process.history)
      invariant up.interrupts >= old(up.interrupts) && up.failures == old(up.failures)
      invariant up.interrupts == old(up.interrupts) ==>
                  Frames(requests, buffers, images)
                      && ParseAll(s) == (requests + ParseAll(up.content).0, ParseAll(up.content).1)
      invariant old(down.Reliable()) ==> down.Reliable()
      decreases |up.content|
    {
      ghost var rest, c, h, b: Image := up.content, down.content, process.history, m[..];
      ghost var image;
      outcome, image := NextMsg(up, down, m, process);
      if up.interrupts == old(up.interrupts) {
        Ended(outcome, requests, rest, up.content, s, up.failures > old(up.failures), b, image);
      }
      if !Handled(outcome) {
        return;
      }
      AnsweredNext(lib, h0, images, sent, c, h, image, down.content);
      if up.interrupts == old(up.interrupts) {
        FrameMore(requests, buffers, images, ParseOne(rest).frame, b, image);
        requests, buffers := requests + [ParseOne(rest).frame], buffers + [b];
      }
      images := images + [image];
      if outcome == SendError {
        return;
      }
    }
  }

  /** The messages so far were answered in full: what was sent, and the library's history. */
  ghost predicate InService(lib: Library, h0: seq<Call>, images: seq<Image>, before: seq<byte>, sent: seq<byte>,
      history: seq<Call>)
    requires Lawful(lib)
  {
    && AllSound(images) && (forall b :: b in images ==> b[0] <= LIST_GROUPS)
    && history == Run(lib, h0, images).1
    && sent == before + Flatten(Run(lib, h0, images).0)
  }

  lemma StartOfService(lib: Library, history: seq<Call>, sent: seq<byte>)
    requires Lawful(lib)
    ensures InService(lib, history, [], sent, sent, history) && Frames([], [], [])
  {
    assert sent + [] == sent;
  }

  /** One message more, answered in full or cut. */
  lemma AnsweredNext(lib: Library, h0: seq<Call>, images: seq<Image>, before: seq<byte>,
                     sent: seq<byte>, history: seq<Call>, b: Image, sent': seq<byte>)
    requires Lawful(lib) && InService(lib, h0, images, before, sent, history) && Sound(b) && b[0] <= LIST_GROUPS
    ensures var (y, history') := Serve(lib, history, b);
            Length(y) <= MAX_LEN && AllSound(images + [b]) &&
            var (replies, after) := Run(lib, h0, images + [b]);
            && (forall q :: q in images + [b] ==> q[0] <= LIST_GROUPS)
            && after == history'
            && (sent' == sent + Frame(y) ==> InService(lib, h0, images + [b], before, sent', history'))
            && (forall k :: 0 <= k < Length(y) && sent' == sent + Frame(y)[..k] ==> CutInLast(before, replies, sent'))
  {
    hide Serve, Sound, AllSound, Length, Run, Flatten;
    RunMore(lib, h0, images, b);
    var replies := Run(lib, h0, images).0;
    var y := Serve(lib, history, b).0;
    FlattenAppend(replies, Frame(y));
    assert (before + Flatten(replies)) + Frame(y) == before + (Flatten(replies) + Frame(y));
    assert (replies + [Frame(y)])[..|replies|] == replies;
    forall k | 0 <= k < Length(y) && sent' == sent + Frame(y)[..k]
      ensures CutInLast(before, replies + [Frame(y)], sent')
    {
      assert k < |(replies + [Frame(y)])[|replies|]|;
    }
  }

  lemma FrameMore(requests: seq<seq<byte>>, buffers: seq<Image>, images: seq<Image>, f: seq<byte>, b: Image,
      image: Image)
    requires Frames(requests, buffers, images) && |f| <= MAX_LEN && image == Received(b, f)
    ensures Frames(requests + [f], buffers + [b], images + [image])
  {
    hide Received;
  }

  /** What one uninterrupted step of the loop says about the stream s, of which `rest` was left before it. */
  lemma Ended(outcome: Outcome, requests: seq<seq<byte>>, rest: seq<byte>, after: seq<byte>, s: seq<byte>, failed: bool,
              b: Image, image: Image)
    requires ParseAll(s) == (requests + ParseAll(rest).0, ParseAll(rest).1)
    requires Got(outcome) <==> ParseOne(rest).Message? && !failed
    requires Got(outcome) ==>
             |ParseOne(rest).frame| <= MAX_LEN && image == Received(b, ParseOne(rest).frame)
                 && after == ParseOne(rest).rest
    requires outcome == Closed ==> ParseOne(rest) == Eof
    requires outcome == RecvError && !failed ==> ParseOne(rest) == Broken
    requires outcome == Overrun ==> !Sound(image)
    requires outcome == UnknownType ==> image[0] > LIST_GROUPS
    ensures !Handled(outcome) ==> EndsAs(outcome, requests, ParseAll(s).0, ParseAll(s).1, failed)
    ensures Handled(outcome) ==>
              var more := requests + [ParseOne(rest).frame];
              && ParseAll(s) == (more + ParseAll(after).0, ParseAll(after).1)
              && (outcome == SendError ==> EndsAs(outcome, more, ParseAll(s).0, ParseAll(s).1, failed))
  {
    StreamHead(rest);
    hide ParseAll, Sound;
    if Got(outcome) {
      var f := ParseOne(rest).frame;
      assert requests + ([f] + ParseAll(after).0) == (requests + [f]) + ParseAll(after).0;
      assert image[0..|f|] == f;
    } else {
      assert requests + [] == requests;
    }
  }

  lemma StreamHead(s: seq<byte>)
    ensures match ParseOne(s)
            case Message(f, rest) => ParseAll(s) == ([f] + ParseAll(rest).0, ParseAll(rest).1) && |f| >= HEADER
            case Eof => ParseAll(s) == ([], AtEof)
            case Broken => ParseAll(s) == ([], Unfinished)
  {
  }
}
