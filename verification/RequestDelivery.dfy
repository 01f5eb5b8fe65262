/** What arrives: a request read by the server is the call made, an answer read by the client is the library's. */
module RequestDelivery {
  import opened Bytes
  import opened Message
  import opened Pcsc
  import opened Client
  import opened Server

  /** An ATR length in 32 bits, and no more than an ATR can have. */
  function AtrTold(cbAtr: nat): (n: nat)
    ensures n <= ATR
  {
    if cbAtr % TWO_32 <= ATR then cbAtr % TWO_32 else ATR
  }

  function ForwardedReader(r: ReaderState): (f: ReaderState)
  {
    var n := AtrTold(r.cbAtr);
    var name := if r.name.Some? then r.name.value[..Min(|r.name.value|, NAME - 1)] else [];
    ReaderState(if name == [] then None else Some(name), 0, Wrap32(r.current), Wrap32(r.event),
                n, r.rgbAtr[..n] + Zeros(ATR - n))
  }

  function ForwardedReaders(rs: seq<ReaderState>): (fs: seq<ReaderState>)
    ensures |fs| == |rs| && forall i :: 0 <= i < |rs| ==> fs[i] == ForwardedReader(rs[i])
  {
    seq(|rs|, i requires 0 <= i < |rs| => ForwardedReader(rs[i]))
  }

  /**
   * The call c on the library's handle k, as far as a message can express it: numbers modulo 2^32,
   * buffers cut to the room the message has, names to 127 bytes. SCardCancelTransaction becomes
   * SCardCancel at the server, and the response PCI is always given.
   */
  function Narrowed(c: Call, k: int): (f: Call)
    requires Admitted(c)
  {
    match c
    case EstablishContext(scope) => EstablishContext(Wrap32(scope))
    case ReleaseContext(_) => ReleaseContext(k)
    case IsValidContext(_) => IsValidContext(k)
    case SetTimeout(_, timeout) => SetTimeout(k, timeout)
    case Connect(_, reader, share, protocols) => Connect(k, reader, Wrap32(share), Wrap32(protocols))
    case Reconnect(_, share, protocols, init) => Reconnect(k, Wrap32(share), Wrap32(protocols), Wrap32(init))
    case Disconnect(_, disposition) => Disconnect(k, Wrap32(disposition))
    case BeginTransaction(_) => BeginTransaction(k)
    case EndTransaction(_, disposition) => EndTransaction(k, Wrap32(disposition))
    case CancelTransaction(_) => Cancel(k)
    case Cancel(id) => Cancel(k)
    case Status(_, nameRoom, atrRoom) => Status(k, Min(Wrap32(nameRoom), NAME), Min(Wrap32(atrRoom), ATR))
    case GetStatusChange(_, timeout, readers) => GetStatusChange(k, Wrap32(timeout), ForwardedReaders(readers))
    case Control(_, code, send, room) => Control(k, Wrap32(code), send, Min(room, BUFFER))
    case Transmit(_, sendPci, send, recvPci, room) =>
      Transmit(k, Pci(Wrap32(sendPci.protocol), Wrap32(sendPci.length)), send,
               Some(if recvPci.Some? then Pci(Wrap32(recvPci.value.protocol), Wrap32(recvPci.value.length))
                   else Pci(0, 0)),
               Min(Wrap32(room), MAX_TRANSMIT))
    case GetAttrib(_, attribute, room) => GetAttrib(k, Wrap32(attribute), Min(room, BUFFER))
    case SetAttrib(_, attribute, value) => SetAttrib(k, Wrap32(attribute), value)
    case ListReaders(_, query, room) => ListReaders(k, query, ForwardedRoom(query, room))
    case ListReaderGroups(_, query, room) => ListReaderGroups(k, query, ForwardedRoom(query, room))
  }

  /** How the handle travels: unsigned in four messages, signed in the others; SCardCancel sends its own id. */
  function WireHandle(c: Call, h: int): (k: int)
  {
    if c.ReleaseContext? || c.IsValidContext? || c.Connect? || c.GetStatusChange? then Wrap32(h)
    else if c.Cancel? then Signed32(c.handle)
    else Signed32(h)
  }

  /** The call the library sees for the client's call c when the client's table holds h for its handle. */
  function Forwarded(c: Call, h: int): (f: Call)
    requires Admitted(c)
  {
    Narrowed(c, WireHandle(c, h))
  }

  function ForwardedRoom(query: bool, room: nat): (n: nat)
  {
    var n := room % TWO_32;
    // from 2^31 on the room is negative to the client: a query passes it on, a fetch is given all there is
    if n < TWO_31 then Min(n, MAX_LIST) else if query then n else MAX_LIST
  }

  /** Where the request of a call ends: PP_MSG_SIZE of its struct, or behind its last byte of data. */
  function RequestEnd(c: Call): (n: nat)
    requires Admitted(c)
  {
    match c
    case EstablishContext(_) => ESTABLISH_END
    case SetTimeout(_, _) => WORD_END
    case Connect(_, _, _, _) => CONNECT_END
    case Reconnect(_, _, _, _) => RECONNECT_END
    case Disconnect(_, _) => WORD_END
    case EndTransaction(_, _) => WORD_END
    case Status(_, _, _) => STATUS_END
    case GetStatusChange(_, _, readers) => CHANGE_READERS + 173 * |readers|
    case Control(_, _, _, _) => CONTROL_END
    case Transmit(_, _, send, _, _) => TRANSMIT_DATA + |send|
    case GetAttrib(_, _, _) => ATTRIB_END
    case SetAttrib(_, _, _) => ATTRIB_END
    case ListReaders(_, _, _) => LIST_DATA
    case ListReaderGroups(_, _, _) => LIST_DATA
    case _ => SHORT_END
  }

  /** The fields the dispatcher reads for the kind of call c hold the call f. */
  ghost predicate Readable(c: Call, f: Call, q: Image)
  {
    match c
    case EstablishContext(_) => q[0] == ESTABLISH_CONTEXT && f == EstablishContext(Get32(q, ESTABLISH_SCOPE))
    case ReleaseContext(_) => q[0] == RELEASE_CONTEXT && f == ReleaseContext(Get32(q, HANDLE))
    case IsValidContext(_) => q[0] == IS_VALID_CONTEXT && f == IsValidContext(Get32(q, HANDLE))
    case SetTimeout(_, _) => q[0] == SET_TIMEOUT
    case Connect(_, _, _, _) => q[0] == CONNECT && 0 in q[CONNECT_READER..CONNECT_SHARE] && f == ConnectIn(q)
    case Reconnect(_, _, _, _) => q[0] == RECONNECT && f == ReconnectIn(q)
    case Disconnect(_, _) => q[0] == DISCONNECT && f == Disconnect(GetS32(q, HANDLE), Get32(q, WORD_ARG))
    case BeginTransaction(_) => q[0] == BEGIN_TRANSACTION && f == BeginTransaction(GetS32(q, HANDLE))
    case EndTransaction(_, _) => q[0] == END_TRANSACTION && f == EndTransaction(GetS32(q, HANDLE), Get32(q, WORD_ARG))
    case CancelTransaction(_) => q[0] == CANCEL_TRANSACTION && f == Cancel(GetS32(q, HANDLE))
    case Cancel(_) => q[0] == CANCEL && f == Cancel(GetS32(q, HANDLE))
    case Status(_, _, _) => q[0] == STATUS && f == StatusIn(q)
    case GetStatusChange(_, _, _) =>
      && q[0] == GET_STATUS_CHANGE && Get32(q, CHANGE_COUNT) <= MAX_READERS && NamesEnd(q, Get32(q, CHANGE_COUNT))
      && f == ChangeIn(q)
    case Control(_, _, _, _) =>
      q[0] == CONTROL && Get32(q, CONTROL_SEND_LEN) <= BUFFER && Get32(q, CONTROL_RECV_LEN) <= BUFFER
          && f == ControlIn(q)
    case Transmit(_, _, _, _, _) => q[0] == TRANSMIT && Get32(q, TRANSMIT_LEN) <= MAX_TRANSMIT && f == TransmitIn(q)
    case GetAttrib(_, _, _) =>
      q[0] == GET_ATTRIB && Get32(q, ATTRIB_LEN) <= BUFFER
      && f == GetAttrib(GetS32(q, HANDLE), Get32(q, ATTRIB_ID), Get32(q, ATTRIB_LEN))
    case SetAttrib(_, _, _) => q[0] == SET_ATTRIB && Get32(q, ATTRIB_LEN) <= BUFFER && f == SetAttribIn(q)
    case ListReaders(_, query, _) =>
      q[0] == LIST_READERS && f == ListReaders(GetS32(q, HANDLE), Get32(q, LIST_QUERY) != 0, ListRoomIn(q))
    case ListReaderGroups(_, query, _) =>
      q[0] == LIST_GROUPS && f == ListReaderGroups(GetS32(q, HANDLE), Get32(q, LIST_QUERY) != 0, ListRoomIn(q))
  }

  ghost predicate Arrives(c: Call, h: int, stale: Image)
    requires Admitted(c)
  {
    var b := Marshal(c, h);
    HEADER <= Length(b) == RequestEnd(c) <= MAX_LEN &&
    Readable(c, Forwarded(c, h), Received(stale, Frame(b)))
  }

  /** A request in full: its length, and what the server finds in its own buffer. */
  lemma ConnectDelivered(c: Call, h: int, stale: Image)
    requires c.Connect? && Admitted(c)
    ensures Arrives(c, h, stale)
  {
    hide Put, Put32, LE32, U32, S32, Signed32, Zeros, StrNCpy, CString, Received, Frame;
    var b := ConnectRequest(h, c.reader, c.shareMode, c.protocols);
    ReceivedSlices(stale, b);
    var field := b[CONNECT_READER..CONNECT_SHARE];
    assert field == b[CONNECT_READER..CONNECT_READER + NAME - 1] + b[CONNECT_READER + NAME - 1..CONNECT_SHARE];
    assert b[CONNECT_READER + NAME - 1..CONNECT_SHARE] == [0];
    assert b[CONNECT_READER..CONNECT_READER + NAME - 1] == StrNCpy(c.reader, NAME - 1);
    StrNCpyRoundTrip(c.reader, NAME - 1);
    assert field[NAME - 1] == 0;
  }

  lemma TransmitRead(h: int, sendPci: Pci, send: seq<byte>, recvPci: Option<Pci>, room: nat, stale: Image)
    requires |send| <= MAX_TRANSMIT
    ensures var b := TransmitRequest(h, sendPci, send, recvPci, room);
            b[0] == TRANSMIT && Length(b) == TRANSMIT_DATA + |send| &&
            var q := Received(stale, Frame(b));
            q[0] == TRANSMIT && Get32(q, TRANSMIT_LEN) == |send| &&
            TransmitIn(q) == Transmit(Signed32(h), Pci(Wrap32(sendPci.protocol), Wrap32(sendPci.length)), send,
               Some(if recvPci.Some? then Pci(Wrap32(recvPci.value.protocol), Wrap32(recvPci.value.length))
                   else Pci(0, 0)),
               Min(Wrap32(room), MAX_TRANSMIT))
  {
    ZeroField();
    hide Put, Put32, LE32, U32, S32, Signed32, Zeros, Received, Frame;
    ReceivedSlices(stale, TransmitRequest(h, sendPci, send, recvPci, room));
  }

  lemma TransmitDelivered(c: Call, h: int, stale: Image)
    requires c.Transmit? && Admitted(c)
    ensures Arrives(c, h, stale)
  {
    hide Put, Put32, LE32, U32, S32, Signed32, Zeros, TransmitRequest, TransmitIn, Received, Frame;
    TransmitRead(h, c.sendPci, c.send, c.recvPci, c.room, stale);
  }

  lemma FixedDelivered(c: Call, h: int, stale: Image)
    requires c.Reconnect? || c.Status?
    requires Admitted(c)
    ensures Arrives(c, h, stale)
  {
    hide Put, Put32, LE32, U32, S32, Signed32, Zeros, Received, Frame;
    ReceivedSlices(stale, Marshal(c, h));
  }

  lemma GetAttribDelivered(c: Call, h: int, stale: Image)
    requires c.GetAttrib? && Admitted(c)
    ensures Arrives(c, h, stale)
  {
    hide Put, Put32, LE32, U32, S32, Signed32, Zeros, Received, Frame;
    ReceivedSlices(stale, Marshal(c, h));
  }

  lemma ControlDelivered(c: Call, h: int, stale: Image)
    requires c.Control? && Admitted(c)
    ensures Arrives(c, h, stale)
  {
    hide Put, Put32, LE32, U32, S32, Signed32, Zeros, Received, Frame;
    var b := ControlRequest(h, c.code, c.send, c.room);
    ReceivedSlices(stale, b);
    assert Get32(b, CONTROL_SEND_LEN) == |c.send|;
  }

  lemma SetAttribDelivered(c: Call, h: int, stale: Image)
    requires c.SetAttrib? && Admitted(c)
    ensures Arrives(c, h, stale)
  {
    ZeroField();
    hide Put, Put32, LE32, U32, S32, Signed32, Zeros, Received, Frame;
    ReceivedSlices(stale, Marshal(c, h));
  }

  /** The room a list call puts in its message, as the server takes it out. */
  lemma RoomSent(query: bool, room: nat)
    ensures ForwardedRoom(query, room)
            == if query then Wrap32(ListRoom(room)) else Min(Wrap32(ListRoom(room)), MAX_LIST)
  {
  }

  lemma ListDelivered(c: Call, h: int, stale: Image)
    requires c.ListReaders? || c.ListReaderGroups?
    requires Admitted(c)
    ensures Arrives(c, h, stale)
  {
    RoomSent(c.query, c.room);
    ListSent(if c.ListReaders? then LIST_READERS else LIST_GROUPS, h, c.query, c.room, stale);
    hide ForwardedRoom, ListRoom, ListRequest, Wrap32, Put, Put32, U32, Signed32, Received, Frame;
  }

  lemma ListSent(kind: byte, h: int, query: bool, room: nat, stale: Image)
    ensures var b := ListRequest(kind, h, query, room);
            && Length(b) == LIST_DATA
            && var q := Received(stale, Frame(b));
               && q[0] == b[0] == kind && Length(q) == LIST_DATA && GetS32(q, HANDLE) == Signed32(h)
               && Get32(q, LIST_LEN) == Wrap32(ListRoom(room)) && Get32(q, LIST_QUERY) == if query then 1 else 0
  {
    hide Put, Put32, LE32, U32, S32, Signed32, Zeros, Received, Frame, ListRoom;
    ReceivedSlices(stale, ListRequest(kind, h, query, room));
  }

  lemma HandleOnlyDelivered(c: Call, h: int, stale: Image)
    requires c.ReleaseContext? || c.IsValidContext? || c.BeginTransaction? || c.CancelTransaction? || c.Cancel?
    ensures Arrives(c, h, stale)
  {
    hide Put, Put32, LE32, U32, S32, Signed32, Zeros, Received, Frame;
    ReceivedSlices(stale, Marshal(c, h));
  }

  lemma WordDelivered(c: Call, h: int, stale: Image)
    requires c.EstablishContext? || c.SetTimeout? || c.Disconnect? || c.EndTransaction?
    ensures Arrives(c, h, stale)
  {
    hide Put, Put32, LE32, U32, S32, Signed32, Zeros, Received, Frame;
    ReceivedSlices(stale, Marshal(c, h));
  }

  // ---- reader states, one struct at a time

  lemma NameStored(r: ReaderState)
    ensures 0 in StoreReader(Zeros(READER_SIZE), r)[..NAME]
    ensures CString(StoreReader(Zeros(READER_SIZE), r)[..NAME])
              == if r.name.Some? then r.name.value[..Min(|r.name.value|, NAME - 1)] else []
  {
    var z: ReaderBlock := Zeros(READER_SIZE);
    var field := StoreReader(z, r)[0..NAME];
    assert StoreReader(z, r)[..NAME] == field;
    if r.name.Some? {
      var s1 := Put(z, 0, StrNCpy(r.name.value, NAME - 1));
      hide Put, Put32, LE32, U32, S32, Signed32, StrNCpy, CString, Received, Frame;
      assert s1[NAME - 1..NAME] == z[NAME - 1..NAME] == [0];
      assert s1[0..NAME] == s1[0..NAME - 1] + s1[NAME - 1..NAME];
      assert field == s1[0..NAME];
      assert field[NAME - 1] == 0;
      StrNCpyRoundTrip(r.name.value, NAME - 1);
    } else {
      assert z[0..NAME] == Zeros(NAME);
      assert field == Zeros(NAME) && field[0] == 0;
    }
  }

  lemma ReaderStored(r: ReaderState)
    ensures ReaderOf(StoreReader(Zeros(READER_SIZE), r)) == ForwardedReader(r)
    ensures 0 in StoreReader(Zeros(READER_SIZE), r)[..NAME]
  {
    hide Put, Put32, LE32, U32, S32, Signed32, Zeros, StrNCpy, CString, Received, Frame;
    NameStored(r);
  }

  lemma ReaderPut(b: Image, n: nat, r: ReaderState)
    requires n < MAX_READERS && Length(b) + READER_SIZE < TWO_32
    ensures var b' := PutReader(b, n, r);
            && b'[0] == b[0]
            && Length(b') == Length(b) + READER_SIZE
            && b'[HEADER..CHANGE_READERS] == b[HEADER..CHANGE_READERS]
            && Block(b', n) == StoreReader(Block(b, n), r)
            && forall i :: 0 <= i < MAX_READERS && i != n ==> Block(b', i) == Block(b, i)
  {
    hide Put, Put32, LE32, U32, Zeros, StoreReader, PutBlock, Received, Frame;
  }

  ghost predicate Holding(b: Image, rs: seq<ReaderState>)
    requires |rs| <= MAX_READERS
  {
    && (forall i :: 0 <= i < |rs| ==> ReaderOf(Block(b, i)) == ForwardedReader(rs[i]) && 0 in Block(b, i)[..NAME])
    && (forall i :: |rs| <= i < MAX_READERS ==> Block(b, i) == Zeros(READER_SIZE))
  }

  lemma HoldingOneMore(b1: Image, b2: Image, rs: seq<ReaderState>, r: ReaderState)
    requires |rs| < MAX_READERS && Holding(b1, rs)
    requires Block(b2, |rs|) == StoreReader(Block(b1, |rs|), r)
    requires forall i :: 0 <= i < MAX_READERS && i != |rs| ==> Block(b2, i) == Block(b1, i)
    ensures Holding(b2, rs + [r])
  {
    ReaderStored(r);
    hide StoreReader, ReaderOf, ForwardedReader, Block, Zeros;
    assert Block(b1, |rs|) == Zeros(READER_SIZE);
  }

  /** The marshalling loop: every struct written reads back, the rest of the buffer keeps its bytes. */
  lemma {:induction false} ReadersStored(b: Image, rs: seq<ReaderState>)
    requires |rs| <= MAX_READERS
    requires Holding(b, [])
    requires Length(b) == CHANGE_READERS
    ensures var b' := PutReaders(b, rs);
            && b'[0] == b[0]
            && Length(b') == CHANGE_READERS + 173 * |rs|
            && b'[HEADER..CHANGE_READERS] == b[HEADER..CHANGE_READERS]
            && Holding(b', rs)
  {
    hide Holding, PutReader, PutBlock, Put32, StoreReader, Received, Frame;
    if rs != [] {
      var n := |rs| - 1;
      ReadersStored(b, rs[..n]);
      var b1 := PutReaders(b, rs[..n]);
      ReaderPut(b1, n, rs[n]);
      HoldingOneMore(b1, PutReader(b1, n, rs[n]), rs[..n], rs[n]);
      assert rs == rs[..n] + [rs[n]];
    }
  }

  lemma ChangeRead(h: int, timeout: nat, rs: seq<ReaderState>, stale: Image)
    requires |rs| <= MAX_READERS
    ensures var b := ChangeRequest(h, timeout, rs);
            b[0] == GET_STATUS_CHANGE && Length(b) == CHANGE_READERS + 173 * |rs| &&
            var q := Received(stale, Frame(b));
            q[0] == GET_STATUS_CHANGE && Get32(q, CHANGE_COUNT) == |rs| && NamesEnd(q, |rs|) &&
            ChangeIn(q) == GetStatusChange(Wrap32(h), Wrap32(timeout), ForwardedReaders(rs))
  {
    var b0 := ChangeHeader(h, timeout, |rs|);
    hide PutReaders, ChangeHeader, Length;
    ChangeHead(h, timeout, |rs|);
    ReadersStored(b0, rs);
    var b := PutReaders(b0, rs);
    FixedPart(b0, b, stale);
    ReadersReceived(b, rs, stale);
  }

  lemma ChangeDelivered(c: Call, h: int, stale: Image)
    requires c.GetStatusChange? && Admitted(c)
    ensures Arrives(c, h, stale)
  {
    hide ChangeRequest, ChangeIn, Received, Frame, ForwardedReaders, ReadersIn, Head, PutReaders, ChangeHeader,
      U32, Zeros;
    ChangeRead(h, c.timeout, c.readers, stale);
  }

  lemma ReadersReceived(b: Image, rs: seq<ReaderState>, stale: Image)
    requires |rs| <= MAX_READERS && Length(b) == CHANGE_READERS + 173 * |rs|
    requires Holding(b, rs)
    ensures ReadersIn(Received(stale, Frame(b)), |rs|) == ForwardedReaders(rs)
    ensures NamesEnd(Received(stale, Frame(b)), |rs|)
  {
    var q := Received(stale, Frame(b));
    hide Received, Frame, Length, ForwardedReader, ReaderOf, Block;
    forall i | 0 <= i < |rs|
      ensures ReaderOf(Block(q, i)) == ForwardedReader(rs[i]) && 0 in Block(q, i)[..NAME]
    {
      BlockReceived(b, stale, i);
    }
  }

  lemma ChangeHead(h: int, timeout: nat, n: nat)
    requires n <= MAX_READERS
    ensures var b := ChangeHeader(h, timeout, n);
            && b[0] == GET_STATUS_CHANGE && Length(b) == CHANGE_READERS && Holding(b, [])
            && Get32(b, HANDLE) == Wrap32(h) && Get32(b, CHANGE_TIMEOUT) == Wrap32(timeout)
                && Get32(b, CHANGE_COUNT) == n
  {
    hide Put, Put32, LE32, U32, S32, Signed32, Zeros, Received, Frame;
  }

  lemma FixedPart(b0: Image, b: Image, stale: Image)
    requires b[HEADER..CHANGE_READERS] == b0[HEADER..CHANGE_READERS]
    requires CHANGE_READERS <= Length(b) <= MAX_LEN
    ensures var q := Received(stale, Frame(b));
            && q[0] == b[0]
            && Get32(q, HANDLE) == Get32(b0, HANDLE)
            && Get32(q, CHANGE_TIMEOUT) == Get32(b0, CHANGE_TIMEOUT)
            && Get32(q, CHANGE_COUNT) == Get32(b0, CHANGE_COUNT)
  {
    var q := Received(stale, Frame(b));
    ReceivedSlices(stale, b);
    hide Put, U32, Received, Frame;
    var x, y := b0[HEADER..CHANGE_READERS], b[HEADER..CHANGE_READERS];
    assert b0[HANDLE..HANDLE + 4] == x[..4] && b[HANDLE..HANDLE + 4] == y[..4];
    assert b0[CHANGE_TIMEOUT..CHANGE_TIMEOUT + 4] == x[4..8] && b[CHANGE_TIMEOUT..CHANGE_TIMEOUT + 4] == y[4..8];
    assert b0[CHANGE_COUNT..CHANGE_COUNT + 4] == x[12..16] && b[CHANGE_COUNT..CHANGE_COUNT + 4] == y[12..16];
  }

  lemma BlockReceived(b: Image, stale: Image, i: nat)
    requires i < MAX_READERS && ReaderAt(i) + READER_SIZE <= Length(b) <= MAX_LEN
    ensures Block(Received(stale, Frame(b)), i) == Block(b, i)
  {
    ReceivedSlices(stale, b);
  }

  lemma HeadReceived(b: Image, stale: Image)
    requires HEADER <= Length(b) <= MAX_LEN
    ensures var q := Received(stale, Frame(b)); q[0] == b[0] && Length(q) == Length(b)
  {
    ReceivedSlices(stale, b);
  }

  lemma Dispatched(c: Call, f: Call, q: Image)
    requires Readable(c, f, q) && Length(q) <= MAX_LEN
    ensures Sound(q) && RequestIn(q) == if c.SetTimeout? then Echo else Ask(f)
  {
    hide Get32, GetS32, ConnectIn, ReconnectIn, StatusIn, ControlIn, ChangeIn, TransmitIn, SetAttribIn, ListRoomIn;
  }

  lemma EachDelivered(c: Call, h: int, stale: Image)
    requires Admitted(c)
    ensures Arrives(c, h, stale)
  {
    hide Marshal, Received, Frame, RequestIn, Forwarded, Sound, Readable, Arrives;
    match c {
      case EstablishContext(_) => WordDelivered(c, h, stale);
      case SetTimeout(_, _) => WordDelivered(c, h, stale);
      case Disconnect(_, _) => WordDelivered(c, h, stale);
      case EndTransaction(_, _) => WordDelivered(c, h, stale);
      case Connect(_, _, _, _) => ConnectDelivered(c, h, stale);
      case GetStatusChange(_, _, _) => ChangeDelivered(c, h, stale);
      case Transmit(_, _, _, _, _) => TransmitDelivered(c, h, stale);
      case SetAttrib(_, _, _) => SetAttribDelivered(c, h, stale);
      case ListReaders(_, _, _) => ListDelivered(c, h, stale);
      case ListReaderGroups(_, _, _) => ListDelivered(c, h, stale);
      case Reconnect(_, _, _, _) => FixedDelivered(c, h, stale);
      case Status(_, _, _) => FixedDelivered(c, h, stale);
      case Control(_, _, _, _) => ControlDelivered(c, h, stale);
      case GetAttrib(_, _, _) => GetAttribDelivered(c, h, stale);
      case _ => HandleOnlyDelivered(c, h, stale);
    }
  }

  /**
   * Whatever the server's buffer held before, it reads every client-built request as the call made. The
   * frame is the whole struct, or for requests of variable size ends with the last byte of their data.
   */
  lemma RequestDelivered(c: Call, h: int, stale: Image)
    requires Admitted(c)
    ensures var b := Marshal(c, h);
            HEADER <= Length(b) == RequestEnd(c) <= MAX_LEN &&
            var q := Received(stale, Frame(b));
            Sound(q) && q[0] == b[0] && Length(q) == Length(b) &&
            RequestIn(q) == if c.SetTimeout? then Echo else Ask(Forwarded(c, h))
  {
    hide Marshal, Received, Frame, RequestIn, Forwarded, Sound, Readable;
    EachDelivered(c, h, stale);
    HeadReceived(Marshal(c, h), stale);
    Dispatched(c, Forwarded(c, h), Received(stale, Frame(Marshal(c, h))));
  }

  /** The type byte and the length of each request, as numbers. */
  function HeaderOf(c: Call): (kindAndLength: (int, nat))
  {
    match c
    case EstablishContext(_) => (0, 17)
    case ReleaseContext(_) => (1, 13)
    case IsValidContext(_) => (2, 13)
    case SetTimeout(_, _) => (3, 17)
    case Connect(_, _, _, _) => (4, 157)
    case Reconnect(_, _, _, _) => (5, 29)
    case Disconnect(_, _) => (6, 17)
    case BeginTransaction(_) => (7, 13)
    case EndTransaction(_, _) => (8, 17)
    case CancelTransaction(_) => (9, 13)
    case Status(_, _, _) => (10, 190)
    case GetStatusChange(_, _, readers) => (11, 21 + 173 * |readers|)
    case Transmit(_, _, send, _, _) => (12, 37 + |send|)
    case Control(_, _, _, _) => (13, 8221)
    case Cancel(_) => (14, 13)
    case GetAttrib(_, _, _) => (15, 4117)
    case SetAttrib(_, _, _) => (16, 4117)
    case ListReaders(_, _, _) => (17, 21)
    case ListReaderGroups(_, _, _) => (18, 21)
  }

  /** The header of every request. */
  lemma RequestHeader(c: Call, h: int)
    requires Admitted(c)
    ensures var b := Marshal(c, h); b[0] == HeaderOf(c).0 && Length(b) == HeaderOf(c).1
  {
    var stale: Image := Zeros(MAX_LEN);
    EachDelivered(c, h, stale);
    HeadReceived(Marshal(c, h), stale);
    hide Marshal, Received, Frame, Forwarded, Get32, Zeros, NamesEnd, ConnectIn, ReconnectIn, StatusIn, ChangeIn,
      ControlIn, TransmitIn, SetAttribIn, ListRoomIn;
  }
}
