/** The PC/SC calls, and the real library as a function from its call history to its last answer. */
module Pcsc {
  import opened Bytes
  import opened Message

  datatype Option<+T> = None | Some(value: T)

  type CStr = s: seq<byte> | 0 !in s

  const SUCCESS := 0
  const INTERNAL_ERROR := 0x8010_0001
  const INVALID_VALUE := 0x8010_0011
  const INSUFFICIENT_BUFFER := 0x8010_0008
  // (DWORD) -1 where DWORD is a 64-bit unsigned long
  const AUTOALLOCATE: nat := 0xFFFF_FFFF_FFFF_FFFF

  datatype Pci = Pci(protocol: nat, length: nat)

  type AtrBuffer = a: seq<byte> | |a| == ATR witness Zeros(ATR)

  /** SCARD_READERSTATE */
  datatype ReaderState = ReaderState(
    name: Option<CStr>, userData: int, current: nat, event: nat, cbAtr: nat, rgbAtr: AtrBuffer)

  /** What a status-change call may alter in one SCARD_READERSTATE. */
  datatype Update = Update(current: nat, event: nat, cbAtr: nat, rgbAtr: AtrBuffer)

  /** One call: its handle is the proxy's id at the client and the library's handle at the server. */
  datatype Call =
    | EstablishContext(scope: nat)
    | ReleaseContext(handle: int)
    | IsValidContext(handle: int)
    | SetTimeout(handle: int, timeout: nat)
    | Connect(handle: int, reader: CStr, shareMode: nat, protocols: nat)
    | Reconnect(handle: int, shareMode: nat, protocols: nat, initialization: nat)
    | Disconnect(handle: int, disposition: nat)
    | BeginTransaction(handle: int)
    | EndTransaction(handle: int, disposition: nat)
    | CancelTransaction(handle: int)
    | Cancel(handle: int)
    | Status(handle: int, nameRoom: nat, atrRoom: nat)
    | GetStatusChange(handle: int, timeout: nat, readers: seq<ReaderState>)
    | Control(handle: int, code: nat, send: seq<byte>, room: nat)
    | Transmit(handle: int, sendPci: Pci, send: seq<byte>, recvPci: Option<Pci>, room: nat)
    | GetAttrib(handle: int, attribute: nat, room: nat)
    | SetAttrib(handle: int, attribute: nat, value: seq<byte>)
    | ListReaders(handle: int, query: bool, room: nat)
    | ListReaderGroups(handle: int, query: bool, room: nat)

  /** What a call gives back: return code, out-parameters, and the bytes written to the buffers. */
  datatype Reply =
    | Code(rv: int)
    | Opened(rv: int, handle: int)
    | Connected(rv: int, handle: int, protocol: nat)
    | Reconnected(rv: int, protocol: nat)
    | CardStatus(rv: int, name: seq<byte>, nameLen: nat, state: nat, protocol: nat, atr: seq<byte>, atrLen: nat)
    | Changed(rv: int, updates: seq<Update>)
    | Readers(rv: int, readers: seq<ReaderState>)
    | Controlled(rv: int, data: seq<byte>, length: nat)
    | Response(rv: int, recvPci: Option<Pci>, data: seq<byte>, length: nat)
    | Attribute(rv: int, data: seq<byte>, length: nat)
    | Names(rv: int, data: seq<byte>, length: nat)

  type Library = seq<Call> -> Reply

  predicate Dword(v: int) { 0 <= v < TWO_32 }

  /** Bytes written stay inside the buffer given; success means that as many were written as reported. */
  predicate Filled(rv: int, data: seq<byte>, length: nat, room: nat)
  {
    && |data| <= room
    && Dword(length)
    && (rv == SUCCESS ==> length == |data|)
  }

  /**
   * The contract of the real library: the kind of answer each call has, numbers that fit 32 bits,
   * buffers never overrun, and no length reported, even after a failure, beyond what a message can
   * carry. After a failure the out-parameters hold anything.
   */
  predicate Answers(c: Call, r: Reply)
  {
    && Dword(r.rv)
    && match c
       case EstablishContext(_) => r.Opened?
       case Connect(_, _, _, _) => r.Connected? && Dword(r.protocol)
       case Reconnect(_, _, _, _) => r.Reconnected? && Dword(r.protocol)
       case Status(_, nameRoom, atrRoom) =>
         && r.CardStatus? && Dword(r.state) && Dword(r.protocol)
         && Filled(r.rv, r.name, r.nameLen, nameRoom)
         && Filled(r.rv, r.atr, r.atrLen, atrRoom)
       case GetStatusChange(_, _, readers) =>
         && r.Changed? && |r.updates| == |readers|
         && forall u <- r.updates :: Dword(u.current) && Dword(u.event) && Dword(u.cbAtr)
       case Control(_, _, _, room) => r.Controlled? && Filled(r.rv, r.data, r.length, room)
       case Transmit(_, _, _, _, room) =>
         && r.Response? && r.recvPci.Some? && Dword(r.recvPci.value.protocol) && Dword(r.recvPci.value.length)
         && Filled(r.rv, r.data, r.length, room) && r.length <= MAX_TRANSMIT
       case GetAttrib(_, _, room) => r.Attribute? && Filled(r.rv, r.data, r.length, room)
       case ListReaders(_, query, room) => r.Names? && Listed(r, query, room)
       case ListReaderGroups(_, query, room) => r.Names? && Listed(r, query, room)
       case _ => r.Code?
  }

  predicate Listed(r: Reply, query: bool, room: nat)
    requires r.Names?
  {
    if query then r.data == [] && Dword(r.length) else Filled(r.rv, r.data, r.length, room) && r.length <= MAX_LIST
  }

  ghost predicate Lawful(lib: Library)
  {
    forall history: seq<Call>, c: Call :: Answers(c, lib(history + [c]))
  }

  /** A library with one card, where every call succeeds; its only handle is 1, and a card answers 90 00. */
  function OneCard(history: seq<Call>): (r: Reply)
  {
    if history == [] then Code(INTERNAL_ERROR)
    else match history[|history| - 1]
         case EstablishContext(_) => Opened(SUCCESS, 1)
         case Connect(_, _, _, _) => Connected(SUCCESS, 1, 1)
         case Reconnect(_, _, _, _) => Reconnected(SUCCESS, 1)
         case Status(_, _, _) => CardStatus(SUCCESS, [], 0, 0, 1, [], 0)
         case GetStatusChange(_, _, readers) => Changed(SUCCESS, seq(|readers|, _ => Update(0, 0, 0, Zeros(ATR))))
         case Control(_, _, _, _) => Controlled(SUCCESS, [], 0)
         case Transmit(_, _, _, _, room) =>
           if room >= 2 then Response(SUCCESS, Some(Pci(1, 8)), [0x90, 0], 2)
               else Response(SUCCESS, Some(Pci(1, 8)), [], 0)
         case GetAttrib(_, _, _) => Attribute(SUCCESS, [], 0)
         case ListReaders(_, _, _) => Names(SUCCESS, [], 0)
         case ListReaderGroups(_, _, _) => Names(SUCCESS, [], 0)
         case _ => Code(SUCCESS)
  }

  /** The contract can be kept. */
  lemma SomeLawful()
    ensures Lawful(OneCard)
  {
    forall history: seq<Call>, c: Call
      ensures Answers(c, OneCard(history + [c]))
    {
      assert (history + [c])[|history|] == c;
    }
  }
}
