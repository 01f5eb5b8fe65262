/** src/server/server.c: how a request is read, forwarded and overwritten with its answer. */
module Server {
  import opened Bytes
  import opened Message
  import opened Pcsc

  datatype Request = Ask(call: Call) | Echo | Refuse | Unknown

  /** NULL for an empty name; the ATR is cut to the size of the buffer and zero behind its length. */
  function ReaderOf(s: ReaderBlock): (r: ReaderState)
  {
    var n := Min(Get32(s, READER_ATR_LEN), ATR);
    var name := CString(s[..NAME]);
    ReaderState(if name == [] then None else Some(name), 0,
                Get32(s, READER_CURRENT), Get32(s, READER_EVENT), n, s[READER_ATR..READER_ATR + n] + Zeros(ATR - n))
  }

  function ReadersIn(b: Image, count: nat): (rs: seq<ReaderState>)
    requires count <= MAX_READERS
    ensures |rs| == count
  {
    seq(count, i requires 0 <= i < count => ReaderOf(Block(b, i)))
  }

  /** The reader names of a status-change request end inside their fields. */
  predicate NamesEnd(b: Image, count: nat)
    requires count <= MAX_READERS
  {
    forall i :: 0 <= i < count ==> 0 in Block(b, i)[..NAME]
  }

  /** Counts and names that the handlers use unchecked stay within their buffers. */
  predicate Sound(b: Image)
  {
    && Length(b) <= MAX_LEN
    && (b[0] == CONNECT ==> 0 in b[CONNECT_READER..CONNECT_SHARE])
    && (b[0] == GET_STATUS_CHANGE ==> Get32(b, CHANGE_COUNT) <= MAX_READERS && NamesEnd(b, Get32(b, CHANGE_COUNT)))
    && (b[0] == CONTROL ==> Get32(b, CONTROL_SEND_LEN) <= BUFFER && Get32(b, CONTROL_RECV_LEN) <= BUFFER)
    && (b[0] == GET_ATTRIB || b[0] == SET_ATTRIB ==> Get32(b, ATTRIB_LEN) <= BUFFER)
  }

  function ConnectIn(b: Image): (c: Call)
  {
    Connect(Get32(b, HANDLE), CString(b[CONNECT_READER..CONNECT_SHARE]),
            Get32(b, CONNECT_SHARE), Get32(b, CONNECT_PREFERRED))
  }

  function ReconnectIn(b: Image): (c: Call)
  {
    Reconnect(GetS32(b, HANDLE), Get32(b, RECONNECT_SHARE), Get32(b, RECONNECT_PREFERRED), Get32(b, RECONNECT_INIT))
  }

  function StatusIn(b: Image): (c: Call)
  {
    Status(GetS32(b, HANDLE), Min(Get32(b, STATUS_NAME_LEN), NAME), Min(Get32(b, STATUS_ATR_LEN), ATR))
  }

  function ChangeIn(b: Image): (c: Call)
    requires Get32(b, CHANGE_COUNT) <= MAX_READERS
  {
    GetStatusChange(Get32(b, HANDLE), Get32(b, CHANGE_TIMEOUT), ReadersIn(b, Get32(b, CHANGE_COUNT)))
  }

  function ControlIn(b: Image): (c: Call)
    requires Get32(b, CONTROL_SEND_LEN) <= BUFFER
  {
    Control(GetS32(b, HANDLE), Get32(b, CONTROL_CODE),
            b[CONTROL_SEND..CONTROL_SEND + Get32(b, CONTROL_SEND_LEN)], Get32(b, CONTROL_RECV_LEN))
  }

  function TransmitIn(b: Image): (c: Call)
    requires Get32(b, TRANSMIT_LEN) <= MAX_TRANSMIT
  {
    Transmit(GetS32(b, HANDLE), Pci(Get32(b, SEND_PROTOCOL), Get32(b, SEND_PCI_LEN)),
             b[TRANSMIT_DATA..TRANSMIT_DATA + Get32(b, TRANSMIT_LEN)],
             Some(Pci(Get32(b, RECV_PROTOCOL), Get32(b, RECV_PCI_LEN))),
             Min(Get32(b, TRANSMIT_ROOM), MAX_TRANSMIT))
  }

  function SetAttribIn(b: Image): (c: Call)
    requires Get32(b, ATTRIB_LEN) <= BUFFER
  {
    SetAttrib(GetS32(b, HANDLE), Get32(b, ATTRIB_ID), b[ATTRIB_DATA..ATTRIB_DATA + Get32(b, ATTRIB_LEN)])
  }

  /** The library call a request asks for, by the type byte of its header. */
  function RequestIn(b: Image): (q: Request)
    requires Sound(b)
  {
    var kind := b[0];
    if kind == ESTABLISH_CONTEXT then Ask(EstablishContext(Get32(b, ESTABLISH_SCOPE)))
    else if kind == RELEASE_CONTEXT then Ask(ReleaseContext(Get32(b, HANDLE)))
    else if kind == IS_VALID_CONTEXT then Ask(IsValidContext(Get32(b, HANDLE)))
    else if kind == SET_TIMEOUT then Echo
    else if kind == CONNECT then Ask(ConnectIn(b))
    else if kind == RECONNECT then Ask(ReconnectIn(b))
    else if kind == DISCONNECT then Ask(Disconnect(GetS32(b, HANDLE), Get32(b, WORD_ARG)))
    else if kind == BEGIN_TRANSACTION then Ask(BeginTransaction(GetS32(b, HANDLE)))
    else if kind == END_TRANSACTION then Ask(EndTransaction(GetS32(b, HANDLE), Get32(b, WORD_ARG)))
    else if kind == CANCEL_TRANSACTION || kind == CANCEL then Ask(Cancel(GetS32(b, HANDLE)))
    else if kind == STATUS then Ask(StatusIn(b))
    else if kind == GET_STATUS_CHANGE then Ask(ChangeIn(b))
    else if kind == CONTROL then Ask(ControlIn(b))
    else if kind == TRANSMIT then
      if Get32(b, TRANSMIT_LEN) > MAX_TRANSMIT then Refuse else Ask(TransmitIn(b))
    else if kind == GET_ATTRIB then Ask(GetAttrib(GetS32(b, HANDLE), Get32(b, ATTRIB_ID), Get32(b, ATTRIB_LEN)))
    else if kind == SET_ATTRIB then Ask(SetAttribIn(b))
    else if kind == LIST_READERS then
      Ask(ListReaders(GetS32(b, HANDLE), Get32(b, LIST_QUERY) != 0, ListRoomIn(b)))
    else if kind == LIST_GROUPS then
      Ask(ListReaderGroups(GetS32(b, HANDLE), Get32(b, LIST_QUERY) != 0, ListRoomIn(b)))
    else Unknown
  }

  function ListRoomIn(b: Image): (n: nat)
  {
    var n := Get32(b, LIST_LEN);
    if Get32(b, LIST_QUERY) != 0 then n else Min(n, MAX_LIST)
  }

  /** The struct that handleGetStatusChange updates in place; the name is not touched. */
  function StoreUpdate(s: ReaderBlock, u: Update): (s': ReaderBlock)
    ensures s'[..NAME] == s[..NAME]
  {
    WithState(s, u.current, u.event, Min(Wrap32(u.cbAtr), ATR), u.rgbAtr)
  }

  function PutUpdate(b: Image, i: nat, u: Update): (b': Image)
    requires i < MAX_READERS
    ensures b'[0] == b[0] && b'[1..5] == b[1..5]
  {
    PutBlock(b, i, StoreUpdate(Block(b, i), u))
  }

  function PutUpdates(b: Image, us: seq<Update>): (b': Image)
    requires |us| <= MAX_READERS
    ensures b'[0] == b[0] && b'[1..5] == b[1..5]
  {
    if us == [] then b else PutUpdate(PutUpdates(b, us[..|us| - 1]), |us| - 1, us[|us| - 1])
  }

  function PutNames(b: Image, query: bool, r: Reply): (b': Image)
    requires r.Names? && |r.data| <= MAX_LIST
    ensures b'[0] == b[0]
  {
    if query then Put32(Put32(b, LIST_LEN, r.length), LIST_RV, r.rv)
    else
      var b1 := Put32(Put(b, LIST_DATA, r.data), LIST_LEN, r.length);
      Put32(Put32(b1, 1, LIST_DATA + r.length), LIST_RV, r.rv)
  }

  function PutStatus(b: Image, r: Reply): (b': Image)
    requires r.CardStatus? && |r.name| <= NAME && |r.atr| <= ATR
    ensures b'[0] == b[0]
  {
    var b1 := Put(Put(b, STATUS_NAME, r.name), STATUS_ATR, r.atr);
    var b2 := Put32(Put32(b1, STATUS_NAME_LEN, r.nameLen), STATUS_STATE, r.state);
    Put32(Put32(Put32(b2, STATUS_PROTOCOL, r.protocol), STATUS_ATR_LEN, r.atrLen), STATUS_RV, r.rv)
  }

  function PutPci(b: Image, pci: Pci): (b': Image)
    ensures b'[0] == b[0]
  {
    Put32(Put32(b, RECV_PROTOCOL, pci.protocol), RECV_PCI_LEN, pci.length)
  }

  /** The response takes the place of the command; the header length follows it. */
  function PutResponse(b: Image, r: Reply): (b': Image)
    requires r.Response? && r.recvPci.Some? && |r.data| <= MAX_TRANSMIT
    ensures b'[0] == b[0]
  {
    var b1 := Put32(Put(b, TRANSMIT_DATA, r.data), TRANSMIT_LEN, r.length);
    var b2 := PutPci(b1, r.recvPci.value);
    Put32(Put32(b2, 1, TRANSMIT_DATA + r.length), TRANSMIT_RV, r.rv)
  }

  /** A call whose buffers lie inside the message, as RequestIn produces them. */
  predicate Fits(c: Call)
  {
    match c
    case Status(_, nameRoom, atrRoom) => nameRoom <= NAME && atrRoom <= ATR
    case GetStatusChange(_, _, readers) => |readers| <= MAX_READERS
    case Control(_, _, _, room) => room <= BUFFER
    case Transmit(_, _, _, _, room) => room <= MAX_TRANSMIT
    case GetAttrib(_, _, room) => room <= BUFFER
    case ListReaders(_, query, room) => query || room <= MAX_LIST
    case ListReaderGroups(_, query, room) => query || room <= MAX_LIST
    case _ => true
  }

  /** The message after the handler has stored the library's answer r to the call c over the request. */
  function Answer(b: Image, c: Call, r: Reply): (b': Image)
    requires Fits(c) && Answers(c, r)
    ensures b'[0] == b[0]
  {
    match c
    case EstablishContext(_) => Put32(Put32(b, ESTABLISH_HANDLE, r.handle), ESTABLISH_RV, r.rv)
    // the result is stored through establishStruct
    case ReleaseContext(_) => Put32(b, ESTABLISH_RV, r.rv)
    case Connect(_, _, _, _) =>
      Put32(Put32(Put32(b, CONNECT_CARD, r.handle), CONNECT_ACTIVE, r.protocol), CONNECT_RV, r.rv)
    case Reconnect(_, _, _, _) => Put32(Put32(b, RECONNECT_ACTIVE, r.protocol), RECONNECT_RV, r.rv)
    case Disconnect(_, _) => Put32(b, WORD_RV, r.rv)
    case EndTransaction(_, _) => Put32(b, WORD_RV, r.rv)
    case SetTimeout(_, _) => Put32(b, WORD_RV, r.rv)
    case Status(_, _, _) => PutStatus(b, r)
    case GetStatusChange(_, _, _) => Put32(PutUpdates(b, r.updates), CHANGE_RV, r.rv)
    case Control(_, _, _, _) =>
      Put32(Put32(Put(b, CONTROL_RECV, r.data), CONTROL_RETURNED, r.length), CONTROL_RV, r.rv)
    case Transmit(_, _, _, _, _) => PutResponse(b, r)
    case GetAttrib(_, _, _) =>
      Put32(Put32(Put(b, ATTRIB_DATA, r.data), ATTRIB_LEN, r.length), ATTRIB_RV, r.rv)
    case SetAttrib(_, _, _) => Put32(b, ATTRIB_RV, r.rv)
    case ListReaders(_, query, _) => PutNames(b, query, r)
    case ListReaderGroups(_, query, _) => PutNames(b, query, r)
    case _ => Put32(b, SHORT_RV, r.rv)
  }

  lemma RequestFits(b: Image)
    requires Sound(b) && RequestIn(b).Ask?
    ensures Fits(RequestIn(b).call)
  {
  }

  /** Whatever room a message claims, the library is told of what it claims, and of no more than its struct has. */
  lemma RoomsCut(b: Image)
    requires Sound(b)
    ensures b[0] == STATUS ==>
              var c, n, a := RequestIn(b).call, Get32(b, STATUS_NAME_LEN), Get32(b, STATUS_ATR_LEN);
              c.Status? && c.nameRoom == (if n > 128 then 128 else n) && c.atrRoom == (if a > 33 then 33 else a)
    ensures b[0] == TRANSMIT && RequestIn(b) != Refuse ==>
              var c, n := RequestIn(b).call, Get32(b, TRANSMIT_ROOM);
              c.Transmit? && c.room == (if n > 66523 then 66523 else n)
    ensures b[0] == LIST_READERS || b[0] == LIST_GROUPS ==>
              var c, n := RequestIn(b).call, Get32(b, LIST_LEN);
              && (c.ListReaders? || c.ListReaderGroups?)
              && c.room == if !c.query && n > MAX_LIST then MAX_LIST else n
  {
  }

  lemma ResponseLength(b: Image, r: Reply)
    requires r.Response? && r.recvPci.Some? && |r.data| <= MAX_TRANSMIT && r.length <= MAX_TRANSMIT
    ensures Length(PutResponse(b, r)) == TRANSMIT_DATA + r.length
  {
    hide Put, Put32, LE32, U32, Signed32;
  }

  lemma NamesLength(b: Image, query: bool, r: Reply)
    requires r.Names? && |r.data| <= MAX_LIST && (query || r.length <= MAX_LIST)
    ensures Length(PutNames(b, query, r)) == if query then Length(b) else LIST_DATA + r.length
  {
    hide Put, Put32, LE32, U32, Signed32;
  }

  lemma StatusLength(b: Image, r: Reply)
    requires r.CardStatus? && |r.name| <= NAME && |r.atr| <= ATR
    ensures Length(PutStatus(b, r)) == Length(b)
  {
    hide Put, Put32, LE32, U32, Signed32;
  }

  /** Every answer fits the buffer it is built in. */
  lemma AnswerLength(b: Image, c: Call, r: Reply)
    requires Fits(c) && Answers(c, r) && Length(b) <= MAX_LEN
    ensures Length(Answer(b, c, r)) <= MAX_LEN
    ensures HEADER <= Length(b) ==> HEADER <= Length(Answer(b, c, r))
  {
    hide Put, Put32, PutUpdates, LE32, U32, Signed32, PutResponse, PutNames, PutStatus;
    if c.Transmit? {
      ResponseLength(b, r);
    } else if c.ListReaders? || c.ListReaderGroups? {
      NamesLength(b, c.query, r);
    } else if c.Status? {
      StatusLength(b, r);
    }
  }

  /** One request served: the message sent back, and the library's history after it. */
  ghost function Serve(lib: Library, history: seq<Call>, b: Image): (r: (Image, seq<Call>))
    requires Lawful(lib) && Sound(b)
    ensures r.0[0] == b[0]
  {
    match RequestIn(b)
    case Ask(c) =>
      RequestFits(b);
      assert Answers(c, lib(history + [c]));
      (Answer(b, c, lib(history + [c])), history + [c])
    case Refuse => (Put32(Put32(b, 1, TRANSMIT_DATA), TRANSMIT_RV, INTERNAL_ERROR), history)
    case _ => (b, history)
  }

  /** The PC/SC library loaded into one server process. */
  class Process {
    const library: Library
    var history: seq<Call>

    constructor (library: Library)
      ensures this.library == library && history == []
    {
      this.library := library;
      history := [];
    }

    method Perform(c: Call) returns (r: Reply)
      requires Lawful(library)
      modifies this
      ensures history == old(history) + [c] && r == library(history) && Answers(c, r)
    {
      history := history + [c];
      r := library(history);
    }
  }

  /** The handlers that forward a call and store nothing but its return code, each at its own place. */
  method HandleCode(m: array<byte>, process: Process, c: Call, at: nat)
    requires m.Length == MAX_LEN && at + 4 <= MAX_LEN && Lawful(process.library)
    modifies m, process
    ensures process.history == old(process.history) + [c]
    ensures m[..] == Put32(old(m[..]), at, process.library(process.history).rv)
  {
    var r := process.Perform(c);
    Store32(m, at, r.rv);
  }

  method HandleEstablishContext(m: array<byte>, process: Process)
    requires m.Length == MAX_LEN && Lawful(process.library)
    modifies m, process
    ensures var c := EstablishContext(Get32(old(m[..]), ESTABLISH_SCOPE));
            && process.history == old(process.history) + [c]
            && m[..] == Answer(old(m[..]), c, process.library(process.history))
  {
    var r := process.Perform(EstablishContext(Get32(m[..], ESTABLISH_SCOPE)));
    Store32(m, ESTABLISH_HANDLE, r.handle);
    Store32(m, ESTABLISH_RV, r.rv);
  }

  method HandleConnect(m: array<byte>, process: Process)
    requires m.Length == MAX_LEN && Lawful(process.library)
    modifies m, process
    ensures var c := ConnectIn(old(m[..]));
            && process.history == old(process.history) + [c]
            && m[..] == Answer(old(m[..]), c, process.library(process.history))
  {
    var r := process.Perform(ConnectIn(m[..]));
    Store32(m, CONNECT_CARD, r.handle);
    Store32(m, CONNECT_ACTIVE, r.protocol);
    Store32(m, CONNECT_RV, r.rv);
  }

  method HandleReconnect(m: array<byte>, process: Process)
    requires m.Length == MAX_LEN && Lawful(process.library)
    modifies m, process
    ensures var c := ReconnectIn(old(m[..]));
            && process.history == old(process.history) + [c]
            && m[..] == Answer(old(m[..]), c, process.library(process.history))
  {
    var r := process.Perform(ReconnectIn(m[..]));
    Store32(m, RECONNECT_ACTIVE, r.protocol);
    Store32(m, RECONNECT_RV, r.rv);
  }

  /** The library writes the reader name and the ATR straight into the message. */
  method HandleStatus(m: array<byte>, process: Process)
    requires m.Length == MAX_LEN && Lawful(process.library)
    modifies m, process
    ensures var c := StatusIn(old(m[..]));
            && process.history == old(process.history) + [c]
            && m[..] == Answer(old(m[..]), c, process.library(process.history))
  {
    var r := process.Perform(StatusIn(m[..]));
    Store(m, STATUS_NAME, r.name);
    Store(m, STATUS_ATR, r.atr);
    Store32(m, STATUS_NAME_LEN, r.nameLen);
    Store32(m, STATUS_STATE, r.state);
    Store32(m, STATUS_PROTOCOL, r.protocol);
    Store32(m, STATUS_ATR_LEN, r.atrLen);
    Store32(m, STATUS_RV, r.rv);
  }

  method HandleControl(m: array<byte>, process: Process)
    requires m.Length == MAX_LEN && Lawful(process.library)
    requires Get32(m[..], CONTROL_SEND_LEN) <= BUFFER && Get32(m[..], CONTROL_RECV_LEN) <= BUFFER
    modifies m, process
    ensures var c := ControlIn(old(m[..]));
            && process.history == old(process.history) + [c]
            && m[..] == Answer(old(m[..]), c, process.library(process.history))
  {
    var r := process.Perform(ControlIn(m[..]));
    Store(m, CONTROL_RECV, r.data);
    Store32(m, CONTROL_RETURNED, r.length);
    Store32(m, CONTROL_RV, r.rv);
  }

  method HandleGetAttrib(m: array<byte>, process: Process)
    requires m.Length == MAX_LEN && Lawful(process.library) && Get32(m[..], ATTRIB_LEN) <= BUFFER
    modifies m, process
    ensures var b: Image := old(m[..]);
            var c := GetAttrib(GetS32(b, HANDLE), Get32(b, ATTRIB_ID), Get32(b, ATTRIB_LEN));
            && process.history == old(process.history) + [c]
            && m[..] == Answer(b, c, process.library(process.history))
  {
    var r := process.Perform(GetAttrib(GetS32(m[..], HANDLE), Get32(m[..], ATTRIB_ID), Get32(m[..], ATTRIB_LEN)));
    Store(m, ATTRIB_DATA, r.data);
    Store32(m, ATTRIB_LEN, r.length);
    Store32(m, ATTRIB_RV, r.rv);
  }

  /** Without a buffer only the size is stored; with one the frame grows to the end of the list. */
  method HandleList(m: array<byte>, process: Process, c: Call)
    requires m.Length == MAX_LEN && Lawful(process.library)
    requires (c.ListReaders? || c.ListReaderGroups?) && Fits(c)
    modifies m, process
    ensures process.history == old(process.history) + [c]
    ensures m[..] == Answer(old(m[..]), c, process.library(process.history))
  {
    hide Put, Put32;
    var r := process.Perform(c);
    if c.query {
      Store32(m, LIST_LEN, r.length);
    } else {
      Store(m, LIST_DATA, r.data);
      Store32(m, LIST_LEN, r.length);
      Store32(m, 1, LIST_DATA + r.length);
    }
    Store32(m, LIST_RV, r.rv);
  }

  method StorePci(m: array<byte>, pci: Pci)
    requires m.Length == MAX_LEN
    modifies m
    ensures m[..] == PutPci(old(m[..]), pci)
  {
    hide Put, Put32;
    Store32(m, RECV_PROTOCOL, pci.protocol);
    Store32(m, RECV_PCI_LEN, pci.length);
  }

  method StoreResponse(m: array<byte>, r: Reply)
    requires m.Length == MAX_LEN && r.Response? && r.recvPci.Some? && |r.data| <= MAX_TRANSMIT
    modifies m
    ensures m[..] == PutResponse(old(m[..]), r)
  {
    hide Put, Put32, PutPci;
    Store(m, TRANSMIT_DATA, r.data);
    Store32(m, TRANSMIT_LEN, r.length);
    StorePci(m, r.recvPci.value);
    Store32(m, 1, TRANSMIT_DATA + r.length);
    Store32(m, TRANSMIT_RV, r.rv);
  }

  /**
   * The command is copied out first, so that the response can be written over it: the library sees the
   * original bytes.
   */
  method HandleTransmit(m: array<byte>, process: Process)
    requires m.Length == MAX_LEN && Lawful(process.library) && m[0] == TRANSMIT && Length(m[..]) <= MAX_LEN
    modifies m, process
    ensures (m[..], process.history) == Serve(process.library, old(process.history), old(m[..]))
  {
    hide PutResponse, Put, Put32;
    var n := Get32(m[..], TRANSMIT_LEN);
    if n > MAX_TRANSMIT {
      Store32(m, 1, TRANSMIT_DATA);
      Store32(m, TRANSMIT_RV, INTERNAL_ERROR);
      return;
    }
    var room := Min(Get32(m[..], TRANSMIT_ROOM), MAX_TRANSMIT);
    var recvPci := Pci(Get32(m[..], RECV_PROTOCOL), Get32(m[..], RECV_PCI_LEN));
    var sendPci := Pci(Get32(m[..], SEND_PROTOCOL), Get32(m[..], SEND_PCI_LEN));
    var sendBuffer := new byte[MAX_LEN];
    Store(sendBuffer, 0, m[TRANSMIT_DATA..TRANSMIT_DATA + n]);
    assert sendBuffer[..n] == sendBuffer[..][0..n] == m[TRANSMIT_DATA..TRANSMIT_DATA + n];
    var r := process.Perform(Transmit(GetS32(m[..], HANDLE), sendPci, sendBuffer[..n], Some(recvPci), room));
    StoreResponse(m, r);
  }

  method UpdateReader(m: array<byte>, i: nat, u: Update)
    requires m.Length == MAX_LEN && i < MAX_READERS
    modifies m
    ensures m[..] == PutUpdate(old(m[..]), i, u)
  {
    StoreState(m, i, u.current, u.event, Min(Wrap32(u.cbAtr), ATR), u.rgbAtr);
  }

  /** The array of reader states handed to the library is built before, and copied back after the call. */
  method HandleGetStatusChange(m: array<byte>, process: Process)
    requires m.Length == MAX_LEN && Lawful(process.library) && Get32(m[..], CHANGE_COUNT) <= MAX_READERS
    modifies m, process
    ensures var c := ChangeIn(old(m[..]));
            && process.history == old(process.history) + [c]
            && m[..] == Answer(old(m[..]), c, process.library(process.history))
  {
    hide ReaderOf, Block, Put32, PutUpdate;
    var count := Get32(m[..], CHANGE_COUNT);
    var states := new ReaderState[count](_ => ReaderState(None, 0, 0, 0, 0, Zeros(ATR)));
    ghost var b: Image := m[..];
    for i := 0 to count
      invariant m[..] == b && process.history == old(process.history)
      invariant forall j :: 0 <= j < i ==> states[j] == ReaderOf(Block(b, j))
    {
      states[i] := ReaderOf(Block(m[..], i));
    }
    assert states[..] == ReadersIn(b, count);
    var r := process.Perform(GetStatusChange(Get32(m[..], HANDLE), Get32(m[..], CHANGE_TIMEOUT), states[..]));
    for i := 0 to count
      invariant process.history == old(process.history) + [ChangeIn(b)]
      invariant m[..] == PutUpdates(b, r.updates[..i])
    {
      UpdateReader(m, i, r.updates[i]);
      assert r.updates[..i + 1][..i] == r.updates[..i];
    }
    assert r.updates[..count] == r.updates;
    Store32(m, CHANGE_RV, r.rv);
  }
}
