/** What the two delivery theorems mean for an application, call by call, and where the proxy departs from them. */
module Fidelity {
  import opened Bytes
  import opened Message
  import opened Pcsc
  import opened Client
  import opened Server
  import opened RequestDelivery
  import opened AnswerDelivery
  import opened Framing
  import opened Exchange
  import opened Handles
  import opened Proxy
  import opened Refinement

  /** What the caller gets when the server's buffer held `stale` and the answer is received over `over`. */
  ghost function ResultOver(lib: Library, history: seq<Call>, c: Call, h: int, stale: Image, over: Image): (r: Reply)
    requires Lawful(lib) && Admitted(c)
  {
    RequestDelivered(c, h, stale);
    var q := Received(stale, Frame(Marshal(c, h)));
    var y := Serve(lib, history, q).0;
    if Length(y) <= MAX_LEN then Unmarshal(c, Received(over, Frame(y))) else Code(INTERNAL_ERROR)
  }

  lemma ResultFaithful(lib: Library, history: seq<Call>, c: Call, h: int, stale: Image, over: Image)
    requires Lawful(lib) && Admitted(c) && !c.SetTimeout?
    ensures var f := Forwarded(c, h);
            var a := lib(history + [f]);
            Answers(f, a) && Faithful(c, h, a, ResultOver(lib, history, c, h, stale, over))
  {
    RequestDelivered(c, h, stale);
    var b := Marshal(c, h);
    var q := Received(stale, Frame(b));
    if c.ReleaseContext? {
      ReleaseField(h, stale);
    }
    hide Marshal, Received, Frame, Answer, Unmarshal, RequestIn, Seen, Sound, Fits, Forwarded, Answers,
      Faithful, Serve, RequestEnd;
    ServeAsked(lib, history, q, Forwarded(c, h));
    var a := lib(history + [Forwarded(c, h)]);
    AnswerEnds(c, h, a);
    Answered(c, h, a, q, over);
  }

  /** A timeout is not forwarded: its request comes back, whatever either buffer held. */
  lemma TimeoutResult(lib: Library, history: seq<Call>, c: Call, h: int, stale: Image, over: Image)
    requires Lawful(lib) && c.SetTimeout?
    ensures ResultOver(lib, history, c, h, stale, over) == Code(SUCCESS)
  {
    hide Put, Put32, LE32, U32, S32, Signed32, Zeros, StrNCpy, Received, Frame;
    ZeroField();
    RequestDelivered(c, h, stale);
    var b := Marshal(c, h);
    ReceivedSlices(stale, b);
    ReceivedSlices(over, Received(stale, Frame(b)));
  }

  /** Neither the server's uninitialised buffer nor the client's reused one shows in a successful result. */
  lemma NoStaleBytes(lib: Library, history: seq<Call>, c: Call, h: int, stale1: Image, over1: Image, stale2: Image,
      over2: Image)
    requires Lawful(lib) && Admitted(c)
    requires lib(history + [Forwarded(c, h)]).rv == SUCCESS || Exact(c)
    ensures ResultOver(lib, history, c, h, stale1, over1) == ResultOver(lib, history, c, h, stale2, over2)
  {
    hide ResultOver, Forwarded, Answers, Seen;
    if c.SetTimeout? {
      TimeoutResult(lib, history, c, h, stale1, over1);
      TimeoutResult(lib, history, c, h, stale2, over2);
    } else {
      ResultFaithful(lib, history, c, h, stale1, over1);
      ResultFaithful(lib, history, c, h, stale2, over2);
    }
  }

  /** The library's code reaches the caller exactly when the client accepts the lengths, or would report the same. */
  lemma CodeSurvives(lib: Library, history: seq<Call>, c: Call, h: int, stale: Image, over: Image)
    requires Lawful(lib) && Admitted(c) && !c.SetTimeout? && !c.ReleaseContext?
    ensures var a := lib(history + [Forwarded(c, h)]);
            ResultOver(lib, history, c, h, stale, over).rv == a.rv <==> CodeKept(c, a) || a.rv == INTERNAL_ERROR
  {
    hide ResultOver, Forwarded, Answers, Seen;
    ResultFaithful(lib, history, c, h, stale, over);
  }

  /**
   * A transmit without enough room, whose library reports the size it needs: the caller is told of an internal
   * error.
   */
  lemma NeededSizeLost(lib: Library, history: seq<Call>, c: Call, h: int, stale: Image, over: Image)
    requires Lawful(lib) && Admitted(c) && c.Transmit?
    requires var a := lib(history + [Forwarded(c, h)]);
             a.rv == INSUFFICIENT_BUFFER && a.Response? && a.length == c.room + 1
    ensures ResultOver(lib, history, c, h, stale, over).rv == INTERNAL_ERROR
  {
    hide ResultOver, Forwarded, Answers, Seen;
    ResultFaithful(lib, history, c, h, stale, over);
  }

  // ---- frame lengths

  /** A request gets through the receiving loop exactly when it ends before the last byte of the buffer. */
  lemma RequestAccepted(c: Call, h: int, rest: seq<byte>)
    requires Admitted(c)
    ensures var b := Marshal(c, h);
            && Length(b) == RequestEnd(c) <= MAX_LEN
            && (ParseOne(Frame(b) + rest) == Message(Frame(b), rest) <==> RequestEnd(c) < MAX_LEN)
            && (RequestEnd(c) == MAX_LEN ==> ParseOne(Frame(b) + rest) == Broken)
  {
    hide Marshal, RequestIn, Forwarded, Sound, Received, RequestEnd;
    RequestDelivered(c, h, Zeros(MAX_LEN));
    FrameAccepted(Marshal(c, h), rest);
  }

  lemma FrameAccepted(b: Image, rest: seq<byte>)
    requires HEADER <= Length(b) <= MAX_LEN
    ensures ParseOne(Frame(b) + rest) == if Length(b) < MAX_LEN then Message(Frame(b), rest) else Broken
  {
    HeadOfFrame(b);
    if Length(b) < MAX_LEN {
      FrameFirst(Frame(b), rest);
    } else {
      var s := Frame(b) + rest;
      assert s[1..5] == Frame(b)[1..5];
    }
  }

  /** The longest command that is received has 66522 bytes, although the guard lets 66523 through. */
  lemma LongestCommand(c: Call, h: int, rest: seq<byte>)
    requires c.Transmit? && Admitted(c)
    ensures 4 <= |c.send| <= 66523 && Length(Marshal(c, h)) <= MAX_LEN
    ensures ParseOne(Frame(Marshal(c, h)) + rest) == Message(Frame(Marshal(c, h)), rest) <==> |c.send| <= 66522
  {
    hide Marshal, ParseOne;
    RequestAccepted(c, h, rest);
  }

  /** The same for answers: accepted exactly when the data leave one byte of the buffer free. */
  lemma AnswerAccepted(c: Call, h: int, a: Reply, stale: Image, rest: seq<byte>)
    requires Admitted(c) && !c.SetTimeout? && Answers(Forwarded(c, h), a) && RequestEnd(c) < MAX_LEN
    ensures Fits(Forwarded(c, h)) && ReplyEnd(c, a) <= MAX_LEN && Length(Marshal(c, h)) <= MAX_LEN
    ensures var y := Answer(Received(stale, Frame(Marshal(c, h))), Forwarded(c, h), a);
            Length(y) == ReplyEnd(c, a) &&
            ParseOne(Frame(y) + rest) == if ReplyEnd(c, a) < MAX_LEN then Message(Frame(y), rest) else Broken
  {
    hide Marshal, Received, Frame, Answer, Unmarshal, RequestIn, Seen, Sound, Fits, Forwarded, Answers,
      Faithful, RequestEnd, ReplyEnd, ParseOne, Length;
    AnswerDelivered(c, h, a, stale);
    FrameAccepted(Answer(Received(stale, Frame(Marshal(c, h))), Forwarded(c, h), a), rest);
  }

  /** n bytes of output data lie inside the message buffer. */
  predicate InMessage(c: Call, n: nat)
  {
    (if c.Control? then CONTROL_RECV else ATTRIB_DATA) + n <= MAX_LEN
  }

  /**
   * SCardControl copies as many bytes as the library reports, and SCardGetAttrib cuts them to a count it has
   * just overwritten with the library's: the copy stays in the caller's buffer exactly if the report does.
   */
  lemma CopyWithinRoom(lib: Library, history: seq<Call>, c: Call, h: int, stale: Image, over: Image)
    requires Lawful(lib) && Admitted(c) && (c.Control? || c.GetAttrib?)
    requires var a := lib(history + [Forwarded(c, h)]);
             (a.Controlled? || a.Attribute?) && InMessage(c, a.length)
    ensures var a := lib(history + [Forwarded(c, h)]);
            var r := ResultOver(lib, history, c, h, stale, over);
            && (if c.Control? then r.Controlled? else r.Attribute?)
            && r.rv == a.rv && r.length == a.length == |r.data|
            && (|r.data| <= c.room <==> a.length <= c.room)
  {
    hide Marshal, Received, Frame, Answer, RequestIn, Seen, Sound, Fits, Answers, Serve, Put, Put32, LE32, Lawful;
    RequestDelivered(c, h, stale);
    var f := Forwarded(c, h);
    var q := Received(stale, Frame(Marshal(c, h)));
    ServeAsked(lib, history, q, f);
    ReportedLength(c, h, lib(history + [f]), q, over);
  }

  lemma ReportedLength(c: Call, h: int, a: Reply, q: Image, over: Image)
    requires Admitted(c) && (c.Control? || c.GetAttrib?) && Answers(Forwarded(c, h), a) && Fits(Forwarded(c, h))
    requires (a.Controlled? || a.Attribute?) && InMessage(c, a.length) && Length(q) == RequestEnd(c)
    ensures Length(Answer(q, Forwarded(c, h), a)) == RequestEnd(c)
    ensures var r := Unmarshal(c, Received(over, Frame(Answer(q, Forwarded(c, h), a))));
            && (if c.Control? then r.Controlled? else r.Attribute?)
            && r.rv == a.rv && r.length == a.length == |r.data|
  {
    hide Put, Put32, LE32, U32, Signed32, Zeros, Received, Frame;
    ReceivedSlices(over, Answer(q, Forwarded(c, h), a));
  }

  /** A library that fails and reports one byte more than there was room for: the client writes behind the buffer. */
  lemma CopyOverrun(lib: Library, history: seq<Call>, c: Call, h: int, stale: Image, over: Image)
    requires Lawful(lib) && Admitted(c) && (c.Control? || c.GetAttrib?) && InMessage(c, c.room + 1)
    requires var a := lib(history + [Forwarded(c, h)]);
             (a.Controlled? || a.Attribute?) && a.rv == INSUFFICIENT_BUFFER && a.length == c.room + 1
    ensures var r := ResultOver(lib, history, c, h, stale, over);
            (r.Controlled? || r.Attribute?) && r.rv == INSUFFICIENT_BUFFER && |r.data| == c.room + 1
  {
    hide ResultOver, Lawful;
    CopyWithinRoom(lib, history, c, h, stale, over);
  }

  /** Every struct of n reader states lies inside the message buffer. */
  predicate StructsFit(n: nat)
  {
    forall i :: 0 <= i < n ==> ReaderAt(i) + READER_SIZE <= MAX_LEN
  }

  /** The check SCardGetStatusChange makes before its loop, once, with the length of the fixed part. */
  predicate RoomChecked(n: nat)
  {
    n > 0 ==> CHANGE_READERS + READER_SIZE <= MAX_LEN
  }

  /** The check passes for any number of reader states; they fit up to 384, and the 385th does not. */
  lemma ReaderRoom(n: nat)
    ensures RoomChecked(n)
    ensures StructsFit(n) <==> n <= MAX_READERS
    ensures RoomChecked(385) && !StructsFit(385)
  {
    assert ReaderAt(384) + READER_SIZE > MAX_LEN;
    if n > MAX_READERS {
      assert ReaderAt(MAX_READERS) + READER_SIZE > MAX_LEN;
    }
  }

  // ---- handles

  /** A connect through context slot i, which has a connection, whose library answers with success. */
  ghost predicate Connects(libs: Libraries, w: World, c: Call, i: nat)
    requires AllLawful(libs)
  {
    && c.Connect? && Sendable(c) && i < SLOTS && LowestFree(CardIds(w.cards)) < SLOTS
    && w.contexts[i].session.Some? && w.contexts[i].session.value < |w.servers|
    && ConnectAnswer(libs, w, c, i).rv == SUCCESS
  }

  ghost function ConnectAnswer(libs: Libraries, w: World, c: Call, i: nat): (a: Reply)
    requires AllLawful(libs) && c.Connect? && Sendable(c) && i < SLOTS
    requires w.contexts[i].session.Some? && w.contexts[i].session.value < |w.servers|
    ensures a.Connected?
  {
    var k := w.contexts[i].session.value;
    assert Lawful(libs(k));
    var f := Forwarded(c, w.contexts[i].handle);
    assert Answers(f, libs(k)(w.servers[k] + [f]));
    libs(k)(w.servers[k] + [f])
  }

  lemma Ranges(h: int)
    ensures Signed32(h) == h <==> -TWO_31 <= h < TWO_31
    ensures Wrap32(h) == h <==> 0 <= h < TWO_32
  {
  }

  /** What the table keeps of a card handle: its last 32 bits. */
  lemma CardHandleStored(libs: Libraries, w: World, c: Call, i: nat, e: Chance)
    requires AllLawful(libs) && Connects(libs, w, c, i)
    ensures var j := LowestFree(CardIds(w.cards));
            ConnectCard(libs, w, c, i, e).0.cards[j]
                == Card(CARD_MAGIC + j, Wrap32(ConnectAnswer(libs, w, c, i).handle), i)
  {
    hide AllLawful, Answers, LowestFree, CardIds, Wire, Lawful, Short;
    var x := w.contexts[i];
    var k := x.session.value;
    assert Lawful(libs(k)) by {
      AnyLawful(libs, k);
    }
    WireReports(libs(k), w.servers[k], c, x.handle, e.stale);
    ConnectShort(c, ConnectAnswer(libs, w, c, i));
    SignedAgain(ConnectAnswer(libs, w, c, i).handle);
    hide Wrap32, Signed32;
  }

  lemma AnyLawful(libs: Libraries, k: nat)
    requires AllLawful(libs)
    ensures Lawful(libs(k))
  {
  }

  lemma ConnectShort(c: Call, a: Reply)
    requires (c.Connect? || c.EstablishContext?) && Admitted(c)
    ensures Short(c, a)
  {
  }

  lemma SignedAgain(h: int)
    ensures Signed32(Wrap32(h)) == Signed32(Signed32(h)) == Signed32(h)
    ensures Wrap32(Wrap32(h)) == Wrap32(Signed32(h)) == Wrap32(h)
  {
  }

  /** The handle a call is about, if any. */
  function HandleOf(c: Call): (h: int)
  {
    if c.EstablishContext? then 0 else c.handle
  }

  lemma ForwardedHandle(c: Call, x: int)
    requires Admitted(c) && !c.EstablishContext?
    ensures HandleOf(Forwarded(c, x)) == WireHandle(c, x)
  {
  }

  /** The handle that the card call `next` gives the library after the connect c. */
  ghost function CardHandleUsed(libs: Libraries, w: World, c: Call, i: nat, e: Chance, next: Call): (h: int)
    requires AllLawful(libs) && Connects(libs, w, c, i) && Admitted(next)
  {
    var w' := ConnectCard(libs, w, c, i, e).0;
    HandleOf(Forwarded(next, w'.cards[LowestFree(CardIds(w.cards))].handle))
  }

  lemma CardHandleWire(libs: Libraries, w: World, c: Call, i: nat, e: Chance, next: Call)
    requires AllLawful(libs) && Connects(libs, w, c, i)
    requires OnCard(next) && !next.Cancel? && Admitted(next)
    ensures CardHandleUsed(libs, w, c, i, e, next) == Signed32(ConnectAnswer(libs, w, c, i).handle)
  {
    hide ConnectCard, ConnectAnswer, AllLawful, Forwarded, Wrap32, Signed32;
    CardHandleStored(libs, w, c, i, e);
    SignedAgain(ConnectAnswer(libs, w, c, i).handle);
    ForwardedHandle(next, Wrap32(ConnectAnswer(libs, w, c, i).handle));
  }

  /**
   * The handle of a new card reaches the library again in the card's calls exactly when it is a signed
   * 32-bit number, as every handle is where the server's LONG has 32 bits.
   */
  lemma CardHandleWidth(libs: Libraries, w: World, c: Call, i: nat, e: Chance, next: Call)
    requires AllLawful(libs) && Connects(libs, w, c, i)
    requires OnCard(next) && !next.Cancel? && Admitted(next)
    ensures var h := ConnectAnswer(libs, w, c, i).handle;
            CardHandleUsed(libs, w, c, i, e, next) == h <==> -TWO_31 <= h < TWO_31
  {
    CardHandleWire(libs, w, c, i, e, next);
    var h := ConnectAnswer(libs, w, c, i).handle;
    hide *;
    Ranges(h);
  }

  /** An establish in slot i, on a connection that is there or can be made, whose library answers with success. */
  ghost predicate Establishes(libs: Libraries, w: World, c: Call, i: nat, k: nat, e: Chance)
    requires AllLawful(libs)
  {
    && c.EstablishContext? && i == LowestFree(ContextIds(w.contexts)) < SLOTS
    && (if w.contexts[i].session.Some? then k == w.contexts[i].session.value < |w.servers|
        else k == |w.servers| && e.reachable)
    && EstablishAnswer(libs, w, c, k).rv == SUCCESS
  }

  ghost function EstablishAnswer(libs: Libraries, w: World, c: Call, k: nat): (a: Reply)
    requires AllLawful(libs) && c.EstablishContext?
    ensures a.Opened?
  {
    var history := if k < |w.servers| then w.servers[k] else [];
    var f := Forwarded(c, 0);
    assert Lawful(libs(k));
    assert Answers(f, libs(k)(history + [f]));
    libs(k)(history + [f])
  }

  lemma ContextHandleStored(libs: Libraries, w: World, c: Call, i: nat, k: nat, e: Chance)
    requires AllLawful(libs) && Establishes(libs, w, c, i, k, e)
    ensures Establish(libs, w, c, e).0.contexts[i]
            == Context(CONTEXT_MAGIC + i, Wrap32(EstablishAnswer(libs, w, c, k).handle), Some(k))
  {
    hide AllLawful, Answers, LowestFree, ContextIds, Wire, Lawful, Short, Wrap32;
    assert Lawful(libs(k)) by {
      AnyLawful(libs, k);
    }
    AnyEstablish(c);
    WireReports(libs(k), if k < |w.servers| then w.servers[k] else [], c, 0, e.stale);
    ConnectShort(c, EstablishAnswer(libs, w, c, k));
  }

  /** The handle that the context call `next` gives the library after the establish c. */
  ghost function ContextHandleUsed(libs: Libraries, w: World, c: Call, i: nat, k: nat, e: Chance, next: Call): (h: int)
    requires AllLawful(libs) && Establishes(libs, w, c, i, k, e) && Admitted(next)
  {
    HandleOf(Forwarded(next, Establish(libs, w, c, e).0.contexts[i].handle))
  }

  lemma ContextHandleWire(libs: Libraries, w: World, c: Call, i: nat, k: nat, e: Chance, next: Call)
    requires AllLawful(libs) && Establishes(libs, w, c, i, k, e)
    requires OnContext(next) && Admitted(next)
    ensures var h := EstablishAnswer(libs, w, c, k).handle;
            ContextHandleUsed(libs, w, c, i, k, e, next)
              == if next.ListReaders? || next.ListReaderGroups? then Signed32(h) else Wrap32(h)
  {
    hide Establish, EstablishAnswer, AllLawful, Forwarded, Wrap32, Signed32;
    ContextHandleStored(libs, w, c, i, k, e);
    SignedAgain(EstablishAnswer(libs, w, c, k).handle);
    ForwardedHandle(next, Wrap32(EstablishAnswer(libs, w, c, k).handle));
  }

  /**
   * Likewise for a new context: unsigned where the struct has a uint32_t, signed in the two list messages.
   * Where the server's LONG has 32 bits the handle arrives in every case.
   */
  lemma ContextHandleWidth(libs: Libraries, w: World, c: Call, i: nat, k: nat, e: Chance, next: Call)
    requires AllLawful(libs) && Establishes(libs, w, c, i, k, e)
    requires OnContext(next) && Admitted(next)
    ensures var h := EstablishAnswer(libs, w, c, k).handle;
            var used := ContextHandleUsed(libs, w, c, i, k, e, next);
            && (used == h <==> if next.ListReaders? || next.ListReaderGroups? then -TWO_31 <= h < TWO_31
                else 0 <= h < TWO_32)
            && (-TWO_31 <= h < TWO_31 ==> Signed32(used) == h)
  {
    ContextHandleWire(libs, w, c, i, k, e, next);
    var h := EstablishAnswer(libs, w, c, k).handle;
    hide *;
    SignedAgain(h);
    Ranges(h);
  }

  // ---- SCardCancel

  /**
   * An id that is no card's, every context's included, is refused, and no library is asked. (CARD_MAGIC + 64 is
   * looked up behind the array.)
   */
  lemma CancelNeedsACard(libs: Libraries, w: World, id: int, e: Chance)
    requires AllLawful(libs) && Proper(CardIds(w.cards), CARD_MAGIC) && Wrap32(id) != CARD_MAGIC + SLOTS
    requires (forall j :: 0 <= j < SLOTS && w.cards[j].id != 0 ==> w.cards[j].id != Wrap32(id))
             || CONTEXT_MAGIC <= Wrap32(id) < CONTEXT_MAGIC + SLOTS
    ensures Invoke(libs, w, Cancel(id), e) == (w, Code(INVALID_VALUE))
  {
    FindExact(CardIds(w.cards), CARD_MAGIC, id);
  }

  /**
   * For the id of the card in slot j, on a context with a connection, the server's library is asked to cancel
   * that id, and this is the handle behind the id exactly when the two numbers are equal.
   */
  lemma CancelSendsItsId(libs: Libraries, w: World, id: int, j: nat, k: nat, e: Chance)
    requires AllLawful(libs) && Find(CardIds(w.cards), CARD_MAGIC, id) == At(j)
    requires w.contexts[w.cards[j].context].session == Some(k) && k < |w.servers|
    ensures var f := Cancel(Wrap32(id));
            var a := libs(k)(w.servers[k] + [f]);
            && Invoke(libs, w, Cancel(id), e) == (w.(servers := w.servers[k := w.servers[k] + [f]]), a)
            && (forall h :: CardHandle(h) && w.cards[j].handle == Wrap32(h) ==>
                  (f == Narrowed(Cancel(id), h) <==> h == Wrap32(id)))
  {
    var c := Cancel(id);
    assert Wrap32(id) == CARD_MAGIC + j && Forwarded(c, w.cards[j].handle) == Cancel(Wrap32(id));
    AnyLawful(libs, k);
    hide AllLawful, Lawful, Wire, Find;
    WireReports(libs(k), w.servers[k], c, w.cards[j].handle, e.stale);
  }

  // ---- codes that are not the library's

  lemma ChangeHeadZero(h: int, timeout: nat, n: nat)
    ensures ChangeHeader(h, timeout, n)[CHANGE_RV..CHANGE_RV + 4] == Zeros(4)
  {
    hide Put, Put32, LE32, Zeros;
  }

  lemma ChangeResultZero(h: int, timeout: nat, rs: seq<ReaderState>)
    requires |rs| <= MAX_READERS
    ensures Get32(ChangeRequest(h, timeout, rs), CHANGE_RV) == 0
  {
    hide Put, Put32, LE32, U32, Zeros, PutReaders, ChangeHeader, Holding, Length;
    ZeroField();
    var b0 := ChangeHeader(h, timeout, |rs|);
    ChangeHead(h, timeout, |rs|);
    ChangeHeadZero(h, timeout, |rs|);
    ReadersStored(b0, rs);
    var b := ChangeRequest(h, timeout, rs);
    SliceOfSlice(b, HEADER, CHANGE_READERS, 8, 12);
    SliceOfSlice(b0, HEADER, CHANGE_READERS, 8, 12);
  }

  lemma ChangeUnanswered(c: Call, h: int)
    requires c.GetStatusChange? && Admitted(c)
    ensures Unmarshal(c, Marshal(c, h)).rv == SUCCESS
  {
    hide ChangeRequest, TakeReaders, U32;
    ChangeResultZero(h, c.timeout, c.readers);
  }

  lemma StatusUnanswered(c: Call, h: int)
    requires c.Status? && Admitted(c)
    ensures Unmarshal(c, Marshal(c, h)).rv == SUCCESS
  {
    hide Put, Put32, LE32, U32, Zeros;
    ZeroField();
    var b := Marshal(c, h);
    assert b[STATUS_RV..STATUS_RV + 4] == Zeros(4);
    assert Get32(b, STATUS_NAME_LEN) == Wrap32(Min(Wrap32(c.nameRoom), NAME)) <= NAME;
    assert Get32(b, STATUS_ATR_LEN) == Wrap32(Min(Wrap32(c.atrRoom), ATR)) <= ATR;
  }

  lemma ListRoomBelow(room: nat)
    ensures Wrap32(ListRoom(room)) <= room
  {
  }

  lemma ListUnanswered(c: Call, h: int)
    requires (c.ListReaders? || c.ListReaderGroups?) && Admitted(c)
    ensures Unmarshal(c, Marshal(c, h)).rv == SUCCESS
  {
    hide Put, Put32, LE32, U32, Zeros, ListRoom;
    ZeroField();
    ListRoomBelow(c.room);
    var b := Marshal(c, h);
    assert b[LIST_RV..LIST_RV + 4] == Zeros(4);
    assert Get32(b, LIST_LEN) == Wrap32(ListRoom(c.room));
  }

  lemma TransmitUnanswered(c: Call, h: int)
    requires c.Transmit? && Admitted(c)
    ensures Unmarshal(c, Marshal(c, h)).rv == if |c.send| > c.room then INTERNAL_ERROR else SUCCESS
  {
    hide Put, Put32, LE32, U32, S32, Signed32, Zeros;
    ZeroField();
  }

  lemma DataUnanswered(c: Call, h: int)
    requires (c.Control? || c.GetAttrib? || c.SetAttrib?) && Admitted(c)
    ensures Unmarshal(c, Marshal(c, h)).rv == SUCCESS
  {
    hide Put, Put32, LE32, U32, S32, Signed32, Zeros;
    ZeroField();
  }

  lemma FixedUnanswered(c: Call, h: int)
    requires OnContext(c) ==> c.ReleaseContext? || c.IsValidContext? || c.Connect?
    requires OnCard(c) ==> !(c.Status? || c.Control? || c.Transmit? || c.GetAttrib? || c.SetAttrib?)
    requires Admitted(c)
    ensures Unmarshal(c, Marshal(c, h)).rv == SUCCESS
  {
    hide Put, Put32, LE32, U32, S32, Signed32, Zeros, StrNCpy;
    ZeroField();
  }

  /**
   * When the server process is gone the client finds its own request in the buffer, whose result field is
   * zero: every call then succeeds, except a transmit that sends more than it has room to receive.
   */
  lemma UnansweredSucceeds(c: Call, h: int)
    requires Admitted(c)
    ensures Unmarshal(c, Marshal(c, h)).rv == if c.Transmit? && |c.send| > c.room then INTERNAL_ERROR else SUCCESS
  {
    hide Unmarshal, Marshal, Admitted;
    match c {
      case GetStatusChange(_, _, _) => ChangeUnanswered(c, h);
      case Status(_, _, _) => StatusUnanswered(c, h);
      case ListReaders(_, _, _) => ListUnanswered(c, h);
      case ListReaderGroups(_, _, _) => ListUnanswered(c, h);
      case Transmit(_, _, _, _, _) => TransmitUnanswered(c, h);
      case Control(_, _, _, _) => DataUnanswered(c, h);
      case GetAttrib(_, _, _) => DataUnanswered(c, h);
      case SetAttrib(_, _, _) => DataUnanswered(c, h);
      case _ => FixedUnanswered(c, h);
    }
  }

  /** SCardSetTimeout comes back as it was sent: success, and no library is asked. */
  lemma TimeoutEchoed(lib: Library, history: seq<Call>, c: Call, h: int, stale: Image)
    requires Lawful(lib) && c.SetTimeout?
    ensures Wire(lib, history, c, h, stale) == (Some(Code(SUCCESS)), history)
  {
    hide Put, Put32, LE32, U32, S32, Signed32, Zeros, StrNCpy, Received, Frame;
    ZeroField();
    RequestDelivered(c, h, stale);
    var b := Marshal(c, h);
    var q := Received(stale, Frame(b));
    ReceivedSlices(stale, b);
    ReceivedSlices(b, q);
  }

  /** SCardCancelTransaction is carried out as SCardCancel. */
  lemma TransactionCancelled(id: int, h: int, stale: Image)
    ensures Length(Marshal(CancelTransaction(id), h)) <= MAX_LEN
    ensures var q := Received(stale, Frame(Marshal(CancelTransaction(id), h)));
            Sound(q) && RequestIn(q) == Ask(Cancel(Signed32(h))) != Ask(CancelTransaction(Signed32(h)))
  {
    RequestDelivered(CancelTransaction(id), h, stale);
  }

  /** A filled list leaves the caller's count as it was: the library's exactly when the list fills the buffer. */
  lemma CountLeft(lib: Library, history: seq<Call>, c: Call, h: int, stale: Image, over: Image)
    requires Lawful(lib) && Admitted(c) && (c.ListReaders? || c.ListReaderGroups?) && !c.query
    requires lib(history + [Forwarded(c, h)]).rv == SUCCESS
    ensures var a := lib(history + [Forwarded(c, h)]);
            var r := ResultOver(lib, history, c, h, stale, over);
            a.Names? && r == Names(SUCCESS, a.data, c.room) && (r == a <==> |a.data| == c.room)
  {
    hide ResultOver, Lawful, ForwardedRoom;
    ResultFaithful(lib, history, c, h, stale, over);
    var a := lib(history + [Forwarded(c, h)]);
    assert a.length == |a.data|;
  }

  /** A release reports success whatever the library says: the library's code exactly when that is success. */
  lemma ReleaseSucceeds(lib: Library, history: seq<Call>, c: Call, h: int, stale: Image)
    requires Lawful(lib) && c.ReleaseContext?
    ensures var a := lib(history + [ReleaseContext(Wrap32(h))]);
            && Wire(lib, history, c, h, stale) == (Some(Code(SUCCESS)), history + [ReleaseContext(Wrap32(h))])
            && (Code(SUCCESS) == a <==> a.rv == SUCCESS)
  {
    hide Serve, Marshal, Unmarshal;
    var f := ReleaseContext(Wrap32(h));
    assert Forwarded(c, h) == f;
    hide Forwarded;
    RequestDelivered(c, h, stale);
    var b := Marshal(c, h);
    var q := Received(stale, Frame(b));
    ServeAsked(lib, history, q, f);
    AnswerDelivered(c, h, lib(history + [f]), stale);
  }
}
