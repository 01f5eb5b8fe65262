/** src/client/client.c: what each SCard* call puts in its message and takes out of the answer. */
module Client {
  import opened Bytes
  import opened Message
  import opened Pcsc

  /** The checks a call makes on its arguments before it sends anything; SUCCESS when all pass. */
  function ArgumentError(c: Call): (rv: int)
  {
    match c
    case Connect(_, reader, _, _) => if |reader| >= NAME then INVALID_VALUE else SUCCESS
    case Status(_, nameRoom, atrRoom) =>
      if nameRoom == AUTOALLOCATE || atrRoom == AUTOALLOCATE then INTERNAL_ERROR else SUCCESS
    case Control(_, _, send, _) => if |send| > BUFFER then INVALID_VALUE else SUCCESS
    case Transmit(_, _, send, _, _) =>
      if |send| > MAX_TRANSMIT || |send| < 4 then INVALID_VALUE else SUCCESS
    case GetAttrib(_, _, room) => if room == AUTOALLOCATE then INTERNAL_ERROR else SUCCESS
    case SetAttrib(_, _, value) => if |value| > BUFFER then INVALID_VALUE else SUCCESS
    case ListReaders(_, _, room) => if room == AUTOALLOCATE then INTERNAL_ERROR else SUCCESS
    case ListReaderGroups(_, _, room) => if room == AUTOALLOCATE then INTERNAL_ERROR else SUCCESS
    case _ => SUCCESS
  }

  /** Arguments that pass the checks, with no more reader states than the message buffer holds. */
  predicate Admitted(c: Call)
  {
    && ArgumentError(c) == SUCCESS
    && (c.GetStatusChange? ==> |c.readers| <= MAX_READERS)
  }

  function Head(kind: byte, length: nat): (b: Image)
    ensures b[0] == kind && b[1..5] == LE32(length)
    ensures forall lo, hi {:trigger b[lo..hi]} :: HEADER <= lo <= hi <= MAX_LEN ==> b[lo..hi] == Zeros(hi - lo)
  {
    Put32(Put(Zeros(MAX_LEN), 0, [kind]), 1, length)
  }

  function HandleOnly(kind: byte, h: int): (b: Image)
  {
    Put32(Head(kind, SHORT_END), HANDLE, h)
  }

  function HandleAndWord(kind: byte, h: int, w: nat): (b: Image)
  {
    Put32(Put32(Head(kind, WORD_END), HANDLE, h), WORD_ARG, w)
  }

  function CutAtr(cbAtr: nat): (n: nat)
    ensures n <= ATR
  {
    Min(Wrap32(cbAtr), ATR)
  }

  /** The struct that SCardGetStatusChange fills in place for one reader state. */
  function StoreReader(s: ReaderBlock, r: ReaderState): (s': ReaderBlock)
  {
    var s1 := if r.name.Some? then Put(s, 0, StrNCpy(r.name.value, NAME - 1)) else s;
    WithState(s1, r.current, r.event, CutAtr(r.cbAtr), r.rgbAtr)
  }

  /** One turn of the marshalling loop: the struct, and the message length that grows by it. */
  function PutReader(b: Image, i: nat, r: ReaderState): (b': Image)
    requires i < MAX_READERS
  {
    var b1 := PutBlock(b, i, StoreReader(Block(b, i), r));
    Put32(b1, 1, Length(b1) + READER_SIZE)
  }

  function PutReaders(b: Image, rs: seq<ReaderState>): (b': Image)
    requires |rs| <= MAX_READERS
  {
    if rs == [] then b else PutReader(PutReaders(b, rs[..|rs| - 1]), |rs| - 1, rs[|rs| - 1])
  }

  function ChangeHeader(h: int, timeout: nat, n: nat): (b: Image)
  {
    Put32(Put32(Put32(Head(GET_STATUS_CHANGE, CHANGE_READERS), HANDLE, h), CHANGE_TIMEOUT, timeout), CHANGE_COUNT, n)
  }

  function ChangeRequest(h: int, timeout: nat, rs: seq<ReaderState>): (b: Image)
    requires |rs| <= MAX_READERS
  {
    PutReaders(ChangeHeader(h, timeout, |rs|), rs)
  }

  function ListRoom(room: nat): (n: int)
  {
    Min(Signed32(room), MAX_LIST)
  }

  function ListRequest(kind: byte, h: int, query: bool, room: nat): (b: Image)
  {
    Put32(Put32(Put32(Head(kind, LIST_DATA), HANDLE, h), LIST_LEN, ListRoom(room)),
          LIST_QUERY, if query then 1 else 0)
  }

  function ConnectRequest(h: int, reader: CStr, share: nat, protocols: nat): (b: Image)
  {
    var b := Put(Put32(Head(CONNECT, CONNECT_END), HANDLE, h), CONNECT_READER, StrNCpy(reader, NAME - 1));
    Put32(Put32(Put(b, CONNECT_READER + NAME - 1, [0]), CONNECT_SHARE, share), CONNECT_PREFERRED, protocols)
  }

  function ControlRequest(h: int, code: nat, send: seq<byte>, room: nat): (b: Image)
    requires |send| <= BUFFER
  {
    var b := Put32(Put32(Head(CONTROL, CONTROL_END), HANDLE, h), CONTROL_CODE, code);
    Put(Put32(Put32(b, CONTROL_SEND_LEN, |send|), CONTROL_RECV_LEN, Min(room, BUFFER)), CONTROL_SEND, send)
  }

  function TransmitRequest(h: int, sendPci: Pci, send: seq<byte>, recvPci: Option<Pci>, room: nat): (b: Image)
    requires |send| <= MAX_TRANSMIT
  {
    var b := Put32(Put32(Put32(Head(TRANSMIT, TRANSMIT_DATA + |send|), HANDLE, h),
      SEND_PROTOCOL, sendPci.protocol), SEND_PCI_LEN, sendPci.length);
    var b1 := Put(Put32(b, TRANSMIT_LEN, |send|), TRANSMIT_DATA, send);
    var b2 := if recvPci.Some?
      then Put32(Put32(b1, RECV_PROTOCOL, recvPci.value.protocol), RECV_PCI_LEN, recvPci.value.length)
      else b1;
    Put32(b2, TRANSMIT_ROOM, room)
  }

  function ReconnectRequest(h: int, share: nat, protocols: nat, init: nat): (b: Image)
  {
    Put32(Put32(Put32(Put32(Head(RECONNECT, RECONNECT_END), HANDLE, h),
      RECONNECT_SHARE, share), RECONNECT_PREFERRED, protocols), RECONNECT_INIT, init)
  }

  function StatusRequest(h: int, nameRoom: nat, atrRoom: nat): (b: Image)
  {
    Put32(Put32(Put32(Head(STATUS, STATUS_END), HANDLE, h),
      STATUS_NAME_LEN, Min(Wrap32(nameRoom), NAME)), STATUS_ATR_LEN, Min(Wrap32(atrRoom), ATR))
  }

  function SetAttribRequest(h: int, attribute: nat, value: seq<byte>): (b: Image)
    requires |value| <= BUFFER
  {
    var b := Put32(Put32(Head(SET_ATTRIB, ATTRIB_END), HANDLE, h), ATTRIB_ID, attribute);
    if value == [] then b else Put(Put32(b, ATTRIB_LEN, |value|), ATTRIB_DATA, value)
  }

  /** The request for an admitted call; h is what the client's table holds for the call's handle. */
  function Marshal(c: Call, h: int): (b: Image)
    requires Admitted(c)
  {
    match c
    case EstablishContext(scope) => Put32(Head(ESTABLISH_CONTEXT, ESTABLISH_END), ESTABLISH_SCOPE, scope)
    case ReleaseContext(_) => HandleOnly(RELEASE_CONTEXT, h)
    case IsValidContext(_) => HandleOnly(IS_VALID_CONTEXT, h)
    case SetTimeout(_, timeout) => HandleAndWord(SET_TIMEOUT, h, timeout)
    case Connect(_, reader, share, protocols) => ConnectRequest(h, reader, share, protocols)
    case Reconnect(_, share, protocols, init) => ReconnectRequest(h, share, protocols, init)
    case Disconnect(_, disposition) => HandleAndWord(DISCONNECT, h, disposition)
    case BeginTransaction(_) => HandleOnly(BEGIN_TRANSACTION, h)
    case EndTransaction(_, disposition) => HandleAndWord(END_TRANSACTION, h, disposition)
    case CancelTransaction(_) => HandleOnly(CANCEL_TRANSACTION, h)
    // SCardCancel sends the id it was given, not what the table holds for it
    case Cancel(id) => HandleOnly(CANCEL, id)
    case Status(_, nameRoom, atrRoom) => StatusRequest(h, nameRoom, atrRoom)
    case GetStatusChange(_, timeout, readers) => ChangeRequest(h, timeout, readers)
    case Control(_, code, send, room) => ControlRequest(h, code, send, room)
    case Transmit(_, sendPci, send, recvPci, room) => TransmitRequest(h, sendPci, send, recvPci, room)
    case GetAttrib(_, attribute, room) =>
      Put32(Put32(Put32(Head(GET_ATTRIB, ATTRIB_END), HANDLE, h), ATTRIB_ID, attribute), ATTRIB_LEN, Min(room, BUFFER))
    case SetAttrib(_, attribute, value) => SetAttribRequest(h, attribute, value)
    case ListReaders(_, query, room) => ListRequest(LIST_READERS, h, query, room)
    case ListReaderGroups(_, query, room) => ListRequest(LIST_GROUPS, h, query, room)
  }

  /** The caller's reader state after one turn of the second loop of SCardGetStatusChange. */
  function LoadReader(s: ReaderBlock, r: ReaderState): (r': ReaderState)
  {
    var n := Min(Get32(s, READER_ATR_LEN), ATR);
    r.(current := Get32(s, READER_CURRENT), event := Get32(s, READER_EVENT),
       cbAtr := n, rgbAtr := s[READER_ATR..READER_ATR + n] + r.rgbAtr[n..])
  }

  function TakeReaders(b: Image, rs: seq<ReaderState>): (rs': seq<ReaderState>)
    requires |rs| <= MAX_READERS
    ensures |rs'| == |rs|
  {
    seq(|rs|, i requires 0 <= i < |rs| => LoadReader(Block(b, i), rs[i]))
  }

  /** `length` bytes that are copied out of the message, or none. */
  function Copied(b: Image, o: nat, length: nat, when: bool): (d: seq<byte>)
    requires o <= MAX_LEN
  {
    if when && o + length <= MAX_LEN then b[o..o + length] else []
  }

  function TakeStatus(b: Image, nameRoom: nat, atrRoom: nat): (r: Reply)
  {
    var n, a := Get32(b, STATUS_NAME_LEN), Get32(b, STATUS_ATR_LEN);
    if n > NAME || a > ATR then Code(INTERNAL_ERROR)
    else CardStatus(Get32(b, STATUS_RV), Copied(b, STATUS_NAME, n, n <= nameRoom), n,
                    Get32(b, STATUS_STATE), Get32(b, STATUS_PROTOCOL),
                    Copied(b, STATUS_ATR, a, a <= atrRoom), a)
  }

  function TakeResponse(b: Image, withPci: bool, room: nat): (r: Reply)
  {
    var n := Get32(b, TRANSMIT_LEN);
    if n > MAX_TRANSMIT || n > room then Code(INTERNAL_ERROR)
    else Response(Get32(b, TRANSMIT_RV),
                  if withPci then Some(Pci(Get32(b, RECV_PROTOCOL), Get32(b, RECV_PCI_LEN))) else None,
                  Copied(b, TRANSMIT_DATA, n, true), n)
  }

  /** What an admitted call gives its caller from the message buffer after a completed exchange. */
  function Unmarshal(c: Call, b: Image): (r: Reply)
    requires Admitted(c)
  {
    match c
    case EstablishContext(_) => Opened(Get32(b, ESTABLISH_RV), Get32(b, ESTABLISH_HANDLE))
    case Connect(_, _, _, _) =>
      Connected(Get32(b, CONNECT_RV), GetS32(b, CONNECT_CARD), Get32(b, CONNECT_ACTIVE))
    case Reconnect(_, _, _, _) => Reconnected(Get32(b, RECONNECT_RV), Get32(b, RECONNECT_ACTIVE))
    case SetTimeout(_, _) => Code(Get32(b, WORD_RV))
    case Disconnect(_, _) => Code(Get32(b, WORD_RV))
    case EndTransaction(_, _) => Code(Get32(b, WORD_RV))
    case Status(_, nameRoom, atrRoom) => TakeStatus(b, nameRoom, atrRoom)
    case GetStatusChange(_, _, readers) => Readers(Get32(b, CHANGE_RV), TakeReaders(b, readers))
    case Control(_, _, _, _) =>
      var n := Get32(b, CONTROL_RETURNED);
      Controlled(Get32(b, CONTROL_RV), Copied(b, CONTROL_RECV, n, true), n)
    case Transmit(_, _, _, recvPci, room) => TakeResponse(b, recvPci.Some?, room)
    case GetAttrib(_, _, _) =>
      var n := Get32(b, ATTRIB_LEN);
      Attribute(Get32(b, ATTRIB_RV), Copied(b, ATTRIB_DATA, n, true), n)
    case SetAttrib(_, _, _) => Code(Get32(b, ATTRIB_RV))
    case ListReaders(_, query, room) => TakeNames(b, query, room)
    case ListReaderGroups(_, query, room) => TakeNames(b, query, room)
    // release, isvalid, begin, and both cancels read their code at the same place
    case _ => Code(Get32(b, SHORT_RV))
  }

  /** With a buffer the caller's count is only compared, never written back. */
  function TakeNames(b: Image, query: bool, room: nat): (r: Reply)
  {
    var n := Get32(b, LIST_LEN);
    if query then Names(Get32(b, LIST_RV), [], n)
    else if n > room then Code(INTERNAL_ERROR)
    else Names(Get32(b, LIST_RV), Copied(b, LIST_DATA, n, true), room)
  }

  /** memset, and the header every call stores first. */
  method Begin(m: array<byte>, kind: byte, length: nat)
    requires m.Length == MAX_LEN
    modifies m
    ensures m[..] == Head(kind, length)
  {
    forall i | 0 <= i < m.Length {
      m[i] := 0;
    }
    assert m[..] == Zeros(MAX_LEN);
    Store(m, 0, [kind]);
    Store32(m, 1, length);
  }

  /** Field by field, one struct s_readerstate inside the message. */
  method FillStruct(m: array<byte>, i: nat, r: ReaderState)
    requires m.Length == MAX_LEN && i < MAX_READERS
    modifies m
    ensures m[..] == PutBlock(old(m[..]), i, StoreReader(Block(old(m[..]), i), r))
  {
    hide PutBlock, Put, Put32, Block, LE32, StrNCpy, CutAtr, WithState;
    ghost var b: Image := m[..];
    ghost var s := Block(b, i);
    SameBlock(b, i);
    if r.name.Some? {
      Store(m, ReaderAt(i), StrNCpy(r.name.value, NAME - 1));
      PutWithin(b, i, s, 0, StrNCpy(r.name.value, NAME - 1));
      s := Put(s, 0, StrNCpy(r.name.value, NAME - 1));
    }
    StoreState(m, i, r.current, r.event, CutAtr(r.cbAtr), r.rgbAtr);
    PutBlockTwice(b, i, s, WithState(s, r.current, r.event, CutAtr(r.cbAtr), r.rgbAtr));
  }

  method FillReader(m: array<byte>, i: nat, r: ReaderState)
    requires m.Length == MAX_LEN && i < MAX_READERS
    modifies m
    ensures m[..] == PutReader(old(m[..]), i, r)
  {
    hide PutBlock, StoreReader, Put32;
    FillStruct(m, i, r);
    Store32(m, 1, Get32(m[..], 1) + READER_SIZE);
  }

  /** SCardGetStatusChange up to the exchange: the structs are filled and the length grows with each. */
  method BuildChange(m: array<byte>, h: int, timeout: nat, readers: array<ReaderState>)
    requires m.Length == MAX_LEN && readers.Length <= MAX_READERS
    modifies m
    ensures m[..] == ChangeRequest(h, timeout, readers[..])
  {
    hide PutReader, Put32, Head;
    Begin(m, GET_STATUS_CHANGE, CHANGE_READERS);
    Store32(m, HANDLE, h);
    Store32(m, CHANGE_TIMEOUT, timeout);
    Store32(m, CHANGE_COUNT, readers.Length);
    ghost var b: Image := m[..];
    for i := 0 to readers.Length
      invariant m[..] == PutReaders(b, readers[..i])
    {
      FillReader(m, i, readers[i]);
      assert readers[..i + 1][..i] == readers[..i];
    }
    assert readers[..readers.Length] == readers[..];
  }

  /** The second loop of SCardGetStatusChange: the caller's array, updated in place. */
  method TakeChange(m: array<byte>, readers: array<ReaderState>)
    requires m.Length == MAX_LEN && readers.Length <= MAX_READERS
    modifies readers
    ensures readers[..] == TakeReaders(m[..], old(readers[..]))
  {
    ghost var was := readers[..];
    for i := 0 to readers.Length
      invariant forall j :: 0 <= j < i ==> readers[j] == LoadReader(Block(m[..], j), was[j])
      invariant forall j :: i <= j < readers.Length ==> readers[j] == was[j]
    {
      readers[i] := LoadReader(Block(m[..], i), readers[i]);
    }
  }

  method BuildTransmit(m: array<byte>, h: int, sendPci: Pci, send: seq<byte>, recvPci: Option<Pci>, room: nat)
    requires m.Length == MAX_LEN && |send| <= MAX_TRANSMIT
    modifies m
    ensures m[..] == TransmitRequest(h, sendPci, send, recvPci, room)
  {
    hide Put32, Put, Head;
    Begin(m, TRANSMIT, TRANSMIT_DATA + |send|);
    Store32(m, HANDLE, h);
    Store32(m, SEND_PROTOCOL, sendPci.protocol);
    Store32(m, SEND_PCI_LEN, sendPci.length);
    Store32(m, TRANSMIT_LEN, |send|);
    Store(m, TRANSMIT_DATA, send);
    if recvPci.Some? {
      Store32(m, RECV_PROTOCOL, recvPci.value.protocol);
      Store32(m, RECV_PCI_LEN, recvPci.value.length);
    }
    Store32(m, TRANSMIT_ROOM, room);
  }

  method BuildHandle(m: array<byte>, kind: byte, length: nat, h: int)
    requires m.Length == MAX_LEN
    modifies m
    ensures m[..] == Put32(Head(kind, length), HANDLE, h)
  {
    Begin(m, kind, length);
    Store32(m, HANDLE, h);
  }

  method BuildConnect(m: array<byte>, h: int, reader: CStr, share: nat, protocols: nat)
    requires m.Length == MAX_LEN
    modifies m
    ensures m[..] == ConnectRequest(h, reader, share, protocols)
  {
    hide Put32, Put, Head, StrNCpy;
    BuildHandle(m, CONNECT, CONNECT_END, h);
    Store(m, CONNECT_READER, StrNCpy(reader, NAME - 1));
    Store(m, CONNECT_READER + NAME - 1, [0]);
    Store32(m, CONNECT_SHARE, share);
    Store32(m, CONNECT_PREFERRED, protocols);
  }

  method BuildControl(m: array<byte>, h: int, code: nat, send: seq<byte>, room: nat)
    requires m.Length == MAX_LEN && |send| <= BUFFER
    modifies m
    ensures m[..] == ControlRequest(h, code, send, room)
  {
    hide Put32, Put, Head;
    BuildHandle(m, CONTROL, CONTROL_END, h);
    Store32(m, CONTROL_CODE, code);
    Store32(m, CONTROL_SEND_LEN, |send|);
    Store32(m, CONTROL_RECV_LEN, Min(room, BUFFER));
    Store(m, CONTROL_SEND, send);
  }

  method BuildList(m: array<byte>, kind: byte, h: int, query: bool, room: nat)
    requires m.Length == MAX_LEN
    modifies m
    ensures m[..] == ListRequest(kind, h, query, room)
  {
    hide Put32, Put, Head;
    BuildHandle(m, kind, LIST_DATA, h);
    Store32(m, LIST_LEN, ListRoom(room));
    Store32(m, LIST_QUERY, if query then 1 else 0);
  }

  method BuildReconnect(m: array<byte>, h: int, share: nat, protocols: nat, init: nat)
    requires m.Length == MAX_LEN
    modifies m
    ensures m[..] == ReconnectRequest(h, share, protocols, init)
  {
    hide Put32, Put, Head;
    BuildHandle(m, RECONNECT, RECONNECT_END, h);
    Store32(m, RECONNECT_SHARE, share);
    Store32(m, RECONNECT_PREFERRED, protocols);
    Store32(m, RECONNECT_INIT, init);
  }

  method BuildStatus(m: array<byte>, h: int, nameRoom: nat, atrRoom: nat)
    requires m.Length == MAX_LEN
    modifies m
    ensures m[..] == StatusRequest(h, nameRoom, atrRoom)
  {
    hide Put32, Put, Head;
    BuildHandle(m, STATUS, STATUS_END, h);
    Store32(m, STATUS_NAME_LEN, Min(Wrap32(nameRoom), NAME));
    Store32(m, STATUS_ATR_LEN, Min(Wrap32(atrRoom), ATR));
  }

  method BuildSetAttrib(m: array<byte>, h: int, attribute: nat, value: seq<byte>)
    requires m.Length == MAX_LEN && |value| <= BUFFER
    modifies m
    ensures m[..] == SetAttribRequest(h, attribute, value)
  {
    hide Put32, Put, Head;
    BuildHandle(m, SET_ATTRIB, ATTRIB_END, h);
    Store32(m, ATTRIB_ID, attribute);
    if value != [] {
      Store32(m, ATTRIB_LEN, |value|);
      Store(m, ATTRIB_DATA, value);
    }
  }

  /** The request of any admitted call, built in place in the message buffer. */
  method BuildRequest(m: array<byte>, c: Call, h: int)
    requires m.Length == MAX_LEN && Admitted(c)
    modifies m
    ensures m[..] == Marshal(c, h)
  {
    hide Put32, Put, Head, TransmitRequest, ChangeRequest, ConnectRequest, ControlRequest, ListRequest,
      ReconnectRequest, StatusRequest, SetAttribRequest;
    match c {
      case EstablishContext(scope) =>
        Begin(m, ESTABLISH_CONTEXT, ESTABLISH_END);
        Store32(m, ESTABLISH_SCOPE, scope);
      case ReleaseContext(_) => BuildHandle(m, RELEASE_CONTEXT, SHORT_END, h);
      case IsValidContext(_) => BuildHandle(m, IS_VALID_CONTEXT, SHORT_END, h);
      case SetTimeout(_, timeout) =>
        BuildHandle(m, SET_TIMEOUT, WORD_END, h);
        Store32(m, WORD_ARG, timeout);
      case Connect(_, reader, share, protocols) => BuildConnect(m, h, reader, share, protocols);
      case Reconnect(_, share, protocols, init) => BuildReconnect(m, h, share, protocols, init);
      case Disconnect(_, disposition) =>
        BuildHandle(m, DISCONNECT, WORD_END, h);
        Store32(m, WORD_ARG, disposition);
      case BeginTransaction(_) => BuildHandle(m, BEGIN_TRANSACTION, SHORT_END, h);
      case EndTransaction(_, disposition) =>
        BuildHandle(m, END_TRANSACTION, WORD_END, h);
        Store32(m, WORD_ARG, disposition);
      case CancelTransaction(_) => BuildHandle(m, CANCEL_TRANSACTION, SHORT_END, h);
      case Cancel(id) => BuildHandle(m, CANCEL, SHORT_END, id);
      case Status(_, nameRoom, atrRoom) => BuildStatus(m, h, nameRoom, atrRoom);
      case GetStatusChange(_, timeout, readers) =>
        var states := new ReaderState[|readers|](i requires 0 <= i < |readers| => readers[i]);
        assert states[..] == readers;
        BuildChange(m, h, timeout, states);
      case Control(_, code, send, room) => BuildControl(m, h, code, send, room);
      case Transmit(_, sendPci, send, recvPci, room) => BuildTransmit(m, h, sendPci, send, recvPci, room);
      case GetAttrib(_, attribute, room) =>
        BuildHandle(m, GET_ATTRIB, ATTRIB_END, h);
        Store32(m, ATTRIB_ID, attribute);
        Store32(m, ATTRIB_LEN, Min(room, BUFFER));
      case SetAttrib(_, attribute, value) => BuildSetAttrib(m, h, attribute, value);
      case ListReaders(_, query, room) => BuildList(m, LIST_READERS, h, query, room);
      case ListReaderGroups(_, query, room) => BuildList(m, LIST_GROUPS, h, query, room);
    }
  }
}
