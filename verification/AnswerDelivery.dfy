/** What comes back: the answer the client unmarshals is the library's, whatever either buffer held. */
module AnswerDelivery {
  import opened Bytes
  import opened Message
  import opened Pcsc
  import opened Client
  import opened Server
  import opened RequestDelivery

  function Merge(r: ReaderState, u: Update): (r': ReaderState)
  {
    var n := Min(Wrap32(u.cbAtr), ATR);
    r.(current := u.current, event := u.event, cbAtr := n, rgbAtr := u.rgbAtr[..n] + r.rgbAtr[n..])
  }

  function Merged(rs: seq<ReaderState>, us: seq<Update>): (rs': seq<ReaderState>)
    requires |us| == |rs|
    ensures |rs'| == |rs| && forall i :: 0 <= i < |rs| ==> rs'[i] == Merge(rs[i], us[i])
  {
    seq(|rs|, i requires 0 <= i < |rs| => Merge(rs[i], us[i]))
  }

  /**
   * The caller's view of the library's answer: handles narrowed to 32 bits, reader states updated in
   * place, the count of a filled list left as it was, and always success for a release.
   */
  function Seen(c: Call, f: Call, r: Reply): (s: Reply)
    requires Answers(f, r)
    requires c.EstablishContext? == f.EstablishContext? && c.Connect? == f.Connect?
    requires c.GetStatusChange? == f.GetStatusChange? && (c.GetStatusChange? ==> |c.readers| == |f.readers|)
    requires c.Transmit? == f.Transmit? && c.ListReaders? == f.ListReaders?
             && c.ListReaderGroups? == f.ListReaderGroups?
  {
    match c
    case EstablishContext(_) => Opened(r.rv, Wrap32(r.handle))
    case ReleaseContext(_) => Code(SUCCESS)
    case Connect(_, _, _, _) => Connected(r.rv, Signed32(r.handle), r.protocol)
    case GetStatusChange(_, _, readers) => Readers(r.rv, Merged(readers, r.updates))
    case Transmit(_, _, _, recvPci, _) => r.(recvPci := if recvPci.Some? then r.recvPci else None)
    case ListReaders(_, query, room) => if query then r else r.(length := room)
    case ListReaderGroups(_, query, room) => if query then r else r.(length := room)
    case _ => r
  }

  /** Calls whose result is the library's even when the library fails. */
  predicate Exact(c: Call)
  {
    && !c.Status? && !c.Control? && !c.Transmit? && !c.GetAttrib?
    && (c.ListReaders? || c.ListReaderGroups? ==> c.query)
  }

  /**
   * The client returns the library's code unless it first finds a length it does not accept: behind its
   * struct for a status, beyond the caller's room for a transmit or a list.
   */
  predicate CodeKept(c: Call, r: Reply)
  {
    match c
    case Status(_, _, _) => r.CardStatus? && r.nameLen <= NAME && r.atrLen <= ATR
    case Transmit(_, _, _, _, room) => r.Response? && r.length <= room
    case ListReaders(_, query, room) => query || (r.Names? && r.length <= room)
    case ListReaderGroups(_, query, room) => query || (r.Names? && r.length <= room)
    case _ => true
  }

  /** n bytes of a buffer, which are the library's as far as it wrote any. */
  predicate CutFrom(d: seq<byte>, n: nat, written: seq<byte>)
  {
    |d| == n && forall i :: 0 <= i < n && i < |written| ==> d[i] == written[i]
  }

  /**
   * After a failed call with output buffers: every number the library gave, a needed length included, and
   * its bytes as far as it wrote them. (Control and GetAttrib copy from behind the message when the length
   * they are given leads there.)
   */
  predicate Reports(c: Call, r: Reply, s: Reply)
  {
    && s.rv == r.rv
    && match c
       case Status(_, nameRoom, atrRoom) =>
         && r.CardStatus? && s.CardStatus?
         && s.nameLen == r.nameLen && s.atrLen == r.atrLen && s.state == r.state && s.protocol == r.protocol
         && CutFrom(s.name, if r.nameLen <= nameRoom then r.nameLen else 0, r.name)
         && CutFrom(s.atr, if r.atrLen <= atrRoom then r.atrLen else 0, r.atr)
       case Control(_, _, _, _) =>
         && r.Controlled? && s.Controlled? && s.length == r.length
         && (CONTROL_RECV + r.length <= MAX_LEN ==> CutFrom(s.data, r.length, r.data))
       case GetAttrib(_, _, _) =>
         && r.Attribute? && s.Attribute? && s.length == r.length
         && (ATTRIB_DATA + r.length <= MAX_LEN ==> CutFrom(s.data, r.length, r.data))
       case Transmit(_, _, _, recvPci, _) =>
         && r.Response? && s.Response? && s.length == r.length
         && s.recvPci == (if recvPci.Some? then r.recvPci else None)
         && CutFrom(s.data, r.length, r.data)
       case ListReaders(_, _, room) =>
         r.Names? && s.Names? && s.length == room && CutFrom(s.data, r.length, r.data)
       case ListReaderGroups(_, _, room) =>
         r.Names? && s.Names? && s.length == room && CutFrom(s.data, r.length, r.data)
       case _ => true
  }

  /**
   * The proxied result s against the library's answer r: equal on success; after a failure all that the
   * library reported, unless the client refuses a length.
   */
  predicate Faithful(c: Call, h: int, r: Reply, s: Reply)
    requires Admitted(c) && !c.SetTimeout? && Answers(Forwarded(c, h), r)
  {
    && (r.rv == SUCCESS || Exact(c) ==> s == Seen(c, Forwarded(c, h), r))
    && (!c.ReleaseContext? ==> s.rv == if CodeKept(c, r) then r.rv else INTERNAL_ERROR)
    && (r.rv != SUCCESS && !Exact(c) ==> if CodeKept(c, r) then Reports(c, r, s) else s == Code(INTERNAL_ERROR))
  }

  /** Where the answer ends: at the end of the request's struct, or behind the last byte of data. */
  function ReplyEnd(c: Call, r: Reply): (n: nat)
    requires Admitted(c)
    requires c.Transmit? ==> r.Response?
    requires c.ListReaders? || c.ListReaderGroups? ==> r.Names?
  {
    match c
    case Transmit(_, _, _, _, _) => TRANSMIT_DATA + r.length
    case ListReaders(_, query, _) => if query then LIST_DATA else LIST_DATA + r.length
    case ListReaderGroups(_, query, _) => if query then LIST_DATA else LIST_DATA + r.length
    case _ => RequestEnd(c)
  }

  /** The library's answer r to the forwarded call travels from the server's image q to the client's b. */
  ghost predicate Returns(c: Call, h: int, r: Reply, q: Image, b: Image)
    requires Admitted(c) && !c.SetTimeout? && Answers(Forwarded(c, h), r) && ReplyEnd(c, r) <= MAX_LEN
    requires Fits(Forwarded(c, h))
  {
    var y := Answer(q, Forwarded(c, h), r);
    && HEADER <= Length(y) == ReplyEnd(c, r)
    && Faithful(c, h, r, Unmarshal(c, Received(b, Frame(y))))
  }

  lemma StatusPut(r: Reply, q: Image)
    requires r.CardStatus? && |r.name| <= NAME && |r.atr| <= ATR
    requires Dword(r.rv) && Dword(r.nameLen) && Dword(r.atrLen) && Dword(r.state) && Dword(r.protocol)
    ensures var y := PutStatus(q, r);
            && Length(y) == Length(q)
            && y[STATUS_NAME..STATUS_NAME + |r.name|] == r.name && Get32(y, STATUS_NAME_LEN) == r.nameLen
            && y[STATUS_ATR..STATUS_ATR + |r.atr|] == r.atr && Get32(y, STATUS_ATR_LEN) == r.atrLen
            && Get32(y, STATUS_STATE) == r.state && Get32(y, STATUS_PROTOCOL) == r.protocol
            && Get32(y, STATUS_RV) == r.rv
  {
    hide Put, Put32, LE32, U32, Zeros;
  }

  lemma StatusTaken(r: Reply, q: Image, b: Image, nameRoom: nat, atrRoom: nat)
    requires r.CardStatus? && |r.name| <= NAME && |r.atr| <= ATR && Length(q) == STATUS_END
    requires Dword(r.rv) && Dword(r.nameLen) && Dword(r.atrLen) && Dword(r.state) && Dword(r.protocol)
    ensures var y := PutStatus(q, r);
            Length(y) == STATUS_END &&
            var s := TakeStatus(Received(b, Frame(y)), nameRoom, atrRoom);
            && s.rv == (if r.nameLen <= NAME && r.atrLen <= ATR then r.rv else INTERNAL_ERROR)
            && (if r.nameLen <= NAME && r.atrLen <= ATR then Reports(Status(0, nameRoom, atrRoom), r, s)
                else s == Code(INTERNAL_ERROR))
            && (r.nameLen == |r.name| <= nameRoom && r.atrLen == |r.atr| <= atrRoom ==> s == r)
  {
    hide PutStatus, U32, Received, Frame;
    StatusPut(r, q);
    ReceivedSlices(b, PutStatus(q, r));
  }

  lemma ResponsePut(r: Reply, q: Image)
    requires r.Response? && r.recvPci.Some? && |r.data| <= MAX_TRANSMIT
    requires Dword(r.rv) && r.length <= MAX_TRANSMIT && Dword(r.recvPci.value.protocol) && Dword(r.recvPci.value.length)
    ensures var y := PutResponse(q, r);
            && Length(y) == TRANSMIT_DATA + r.length
            && y[TRANSMIT_DATA..TRANSMIT_DATA + |r.data|] == r.data && Get32(y, TRANSMIT_LEN) == r.length
            && Get32(y, RECV_PROTOCOL) == r.recvPci.value.protocol && Get32(y, RECV_PCI_LEN) == r.recvPci.value.length
            && Get32(y, TRANSMIT_RV) == r.rv
  {
    hide Put, Put32, LE32, U32, Zeros;
  }

  lemma ResponseTaken(r: Reply, q: Image, b: Image, withPci: bool, room: nat)
    requires r.Response? && r.recvPci.Some? && |r.data| <= MAX_TRANSMIT
    requires Dword(r.rv) && r.length <= MAX_TRANSMIT && Dword(r.recvPci.value.protocol) && Dword(r.recvPci.value.length)
    ensures var y := PutResponse(q, r);
            Length(y) == TRANSMIT_DATA + r.length &&
            var s := TakeResponse(Received(b, Frame(y)), withPci, room);
            && s.rv == (if r.length <= room then r.rv else INTERNAL_ERROR)
            && (if r.length <= room then
                  && s.Response? && s.length == r.length && s.recvPci == (if withPci then r.recvPci else None)
                  && CutFrom(s.data, r.length, r.data)
                else s == Code(INTERNAL_ERROR))
            && (r.length == |r.data| <= room ==> s == r.(recvPci := if withPci then r.recvPci else None))
  {
    hide PutResponse, U32, Received, Frame;
    ResponsePut(r, q);
    ReceivedSlices(b, PutResponse(q, r));
  }

  lemma NamesPut(r: Reply, q: Image, query: bool)
    requires r.Names? && |r.data| <= MAX_LIST && Dword(r.rv) && Dword(r.length)
    requires if query then Length(q) == LIST_DATA else r.length <= MAX_LIST
    ensures var y := PutNames(q, query, r);
            && Length(y) == (if query then LIST_DATA else LIST_DATA + r.length)
            && Get32(y, LIST_LEN) == r.length && Get32(y, LIST_RV) == r.rv
            && (!query ==> y[LIST_DATA..LIST_DATA + |r.data|] == r.data)
  {
    hide Put, Put32, LE32, U32, Zeros;
  }

  lemma NamesTaken(r: Reply, q: Image, b: Image, query: bool, room: nat)
    requires r.Names? && |r.data| <= MAX_LIST && Dword(r.rv) && Dword(r.length)
    requires if query then Length(q) == LIST_DATA && r.data == [] else r.length <= MAX_LIST
    ensures var y := PutNames(q, query, r);
            Length(y) == (if query then LIST_DATA else LIST_DATA + r.length) &&
            var s := TakeNames(Received(b, Frame(y)), query, room);
            && s.rv == (if query || r.length <= room then r.rv else INTERNAL_ERROR)
            && (query ==> s == r)
            && (!query ==>
                  if r.length <= room then s.Names? && s.length == room && CutFrom(s.data, r.length, r.data)
                  else s == Code(INTERNAL_ERROR))
            && (!query && r.length == |r.data| <= room ==> s == r.(length := room))
  {
    hide PutNames, U32, Received, Frame;
    NamesPut(r, q, query);
    ReceivedSlices(b, PutNames(q, query, r));
  }

  lemma StatusReturns(c: Call, h: int, r: Reply, q: Image, b: Image)
    requires c.Status? && Admitted(c) && Answers(Forwarded(c, h), r) && Length(q) == STATUS_END
    ensures Fits(Forwarded(c, h)) && Returns(c, h, r, q, b)
  {
    hide PutStatus, TakeStatus, Received, Frame;
    StatusTaken(r, q, b, c.nameRoom, c.atrRoom);
  }

  lemma TransmitReturns(c: Call, h: int, r: Reply, q: Image, b: Image)
    requires c.Transmit? && Admitted(c) && Answers(Forwarded(c, h), r) && ReplyEnd(c, r) <= MAX_LEN
    ensures Fits(Forwarded(c, h)) && Returns(c, h, r, q, b)
  {
    hide PutResponse, TakeResponse, Received, Frame;
    ResponseTaken(r, q, b, c.recvPci.Some?, c.room);
  }

  /** The room the library is told of is never more than the caller's. */
  lemma ListRoomCut(room: nat)
    ensures ForwardedRoom(false, room) <= Min(room, MAX_LIST)
  {
  }

  lemma ReaderListReturns(c: Call, h: int, r: Reply, q: Image, b: Image)
    requires c.ListReaders?
    requires Admitted(c) && Answers(Forwarded(c, h), r) && ReplyEnd(c, r) <= MAX_LEN && Length(q) == LIST_DATA
    ensures Fits(Forwarded(c, h)) && Returns(c, h, r, q, b)
  {
    ListRoomCut(c.room);
    hide PutNames, TakeNames, Received, Frame, ForwardedRoom, Signed32, Wrap32, U32;
    NamesTaken(r, q, b, c.query, c.room);
  }

  lemma GroupListReturns(c: Call, h: int, r: Reply, q: Image, b: Image)
    requires c.ListReaderGroups?
    requires Admitted(c) && Answers(Forwarded(c, h), r) && ReplyEnd(c, r) <= MAX_LEN && Length(q) == LIST_DATA
    ensures Fits(Forwarded(c, h)) && Returns(c, h, r, q, b)
  {
    ListRoomCut(c.room);
    hide PutNames, TakeNames, Received, Frame, ForwardedRoom, Signed32, Wrap32, U32;
    NamesTaken(r, q, b, c.query, c.room);
  }

  lemma CutAt(z: Image, o: nat, n: nat, d: seq<byte>)
    requires o + |d| <= MAX_LEN && z[o..o + |d|] == d && o + n <= MAX_LEN
    ensures CutFrom(z[o..o + n], n, d)
  {
    forall i | 0 <= i < n && i < |d|
      ensures z[o..o + n][i] == d[i]
    {
      assert z[o..o + |d|][i] == d[i];
    }
  }

  lemma ControlTaken(c: Call, h: int, r: Reply, z: Image)
    requires c.Control? && Admitted(c) && Answers(Forwarded(c, h), r)
    requires Get32(z, CONTROL_RETURNED) == r.length && Get32(z, CONTROL_RV) == r.rv
    requires z[CONTROL_RECV..CONTROL_RECV + |r.data|] == r.data
    ensures Faithful(c, h, r, Unmarshal(c, z))
  {
    hide U32, Wrap32, Signed32;
    if CONTROL_RECV + r.length <= MAX_LEN {
      CutAt(z, CONTROL_RECV, r.length, r.data);
    }
    hide CutFrom;
  }

  lemma ControlReturns(c: Call, h: int, r: Reply, q: Image, b: Image)
    requires c.Control? && Admitted(c) && Answers(Forwarded(c, h), r) && Length(q) == CONTROL_END
    ensures Fits(Forwarded(c, h)) && Returns(c, h, r, q, b)
  {
    hide Put, Put32, LE32, U32, S32, Signed32, Zeros, Received, Frame, Faithful, Unmarshal;
    var y := Answer(q, Forwarded(c, h), r);
    ReceivedSlices(b, y);
    assert y[CONTROL_RECV..CONTROL_RECV + |r.data|] == r.data;
    ControlTaken(c, h, r, Received(b, Frame(y)));
  }

  lemma GetAttribTaken(c: Call, h: int, r: Reply, z: Image)
    requires c.GetAttrib? && Admitted(c) && Answers(Forwarded(c, h), r)
    requires Get32(z, ATTRIB_LEN) == r.length && Get32(z, ATTRIB_RV) == r.rv
    requires z[ATTRIB_DATA..ATTRIB_DATA + |r.data|] == r.data
    ensures Faithful(c, h, r, Unmarshal(c, z))
  {
    hide U32, Wrap32, Signed32;
    if ATTRIB_DATA + r.length <= MAX_LEN {
      CutAt(z, ATTRIB_DATA, r.length, r.data);
    }
    hide CutFrom;
  }

  lemma GetAttribReturns(c: Call, h: int, r: Reply, q: Image, b: Image)
    requires c.GetAttrib? && Admitted(c) && Answers(Forwarded(c, h), r) && Length(q) == ATTRIB_END
    ensures Fits(Forwarded(c, h)) && Returns(c, h, r, q, b)
  {
    hide Put, Put32, LE32, U32, Signed32, Zeros, Received, Frame, Faithful, Unmarshal;
    var y := Answer(q, Forwarded(c, h), r);
    ReceivedSlices(b, y);
    assert y[ATTRIB_DATA..ATTRIB_DATA + |r.data|] == r.data;
    GetAttribTaken(c, h, r, Received(b, Frame(y)));
  }

  // The calls that return nothing but a code, by the field it is stored in.

  lemma ShortCodeReturns(c: Call, h: int, r: Reply, q: Image, b: Image)
    requires c.IsValidContext? || c.BeginTransaction? || c.CancelTransaction? || c.Cancel?
    requires Admitted(c) && Answers(Forwarded(c, h), r) && Length(q) == RequestEnd(c)
    ensures Fits(Forwarded(c, h)) && Returns(c, h, r, q, b)
  {
    hide Put, Put32, LE32, U32, Signed32, Zeros, Received, Frame;
    ReceivedSlices(b, Answer(q, Forwarded(c, h), r));
  }

  lemma WordCodeReturns(c: Call, h: int, r: Reply, q: Image, b: Image)
    requires c.Disconnect? || c.EndTransaction?
    requires Admitted(c) && Answers(Forwarded(c, h), r) && Length(q) == RequestEnd(c)
    ensures Fits(Forwarded(c, h)) && Returns(c, h, r, q, b)
  {
    hide Put, Put32, LE32, U32, Signed32, Zeros, Received, Frame;
    ReceivedSlices(b, Answer(q, Forwarded(c, h), r));
  }

  lemma SetAttribReturns(c: Call, h: int, r: Reply, q: Image, b: Image)
    requires c.SetAttrib?
    requires Admitted(c) && Answers(Forwarded(c, h), r) && Length(q) == RequestEnd(c)
    ensures Fits(Forwarded(c, h)) && Returns(c, h, r, q, b)
  {
    hide Put, Put32, LE32, U32, Signed32, Zeros, Received, Frame;
    ReceivedSlices(b, Answer(q, Forwarded(c, h), r));
  }

  lemma HandleReturns(c: Call, h: int, r: Reply, q: Image, b: Image)
    requires c.EstablishContext? || c.Connect? || c.Reconnect?
    requires Admitted(c) && Answers(Forwarded(c, h), r) && Length(q) == RequestEnd(c)
    ensures Fits(Forwarded(c, h)) && Returns(c, h, r, q, b)
  {
    hide Put, Put32, LE32, U32, Signed32, Zeros, Received, Frame;
    ReceivedSlices(b, Answer(q, Forwarded(c, h), r));
  }

  /** The release code is stored behind the frame: the zero of the request comes back. */
  lemma ReleaseReturns(c: Call, h: int, r: Reply, q: Image, b: Image)
    requires c.ReleaseContext? && Answers(Forwarded(c, h), r)
    requires Length(q) == SHORT_END && Get32(q, SHORT_RV) == 0
    ensures Fits(Forwarded(c, h)) && Returns(c, h, r, q, b)
  {
    hide Put, Put32, LE32, U32, Signed32, Zeros, Received, Frame;
    ReceivedSlices(b, Answer(q, Forwarded(c, h), r));
  }

  // ---- reader states on the way back

  lemma UpdateLoaded(s: ReaderBlock, u: Update, r: ReaderState)
    requires Dword(u.current) && Dword(u.event) && Dword(u.cbAtr)
    ensures LoadReader(StoreUpdate(s, u), r) == Merge(r, u)
  {
    hide Put, Put32, LE32, U32, Zeros, Received, Frame;
  }

  lemma {:induction false} UpdatesStored(b: Image, us: seq<Update>)
    requires |us| <= MAX_READERS
    ensures var b' := PutUpdates(b, us);
            && b'[1..5] == b[1..5]
            && (forall i :: 0 <= i < |us| ==> Block(b', i) == StoreUpdate(Block(b, i), us[i]))
            && (forall i :: |us| <= i < MAX_READERS ==> Block(b', i) == Block(b, i))
  {
    hide PutBlock, StoreUpdate, Put32, Received, Frame;
    if us != [] {
      var n := |us| - 1;
      UpdatesStored(b, us[..n]);
      var b1 := PutUpdates(b, us[..n]);
      assert PutUpdates(b, us) == PutBlock(b1, n, StoreUpdate(Block(b1, n), us[n]));
      hide PutUpdates;
    }
  }

  lemma ChangeAnswered(q: Image, b: Image, us: seq<Update>, rv: int)
    requires |us| <= MAX_READERS && Dword(rv) && Length(q) == CHANGE_READERS + 173 * |us|
    ensures var y := Put32(PutUpdates(q, us), CHANGE_RV, rv);
            Length(y) == Length(q) &&
            var z := Received(b, Frame(y));
            && Get32(z, CHANGE_RV) == rv
            && forall i :: 0 <= i < |us| ==> Block(z, i) == StoreUpdate(Block(q, i), us[i])
  {
    hide Put32, PutUpdates, LE32, U32, StoreUpdate, Zeros, Received, Frame;
    UpdatesStored(q, us);
    var y := Put32(PutUpdates(q, us), CHANGE_RV, rv);
    ReceivedSlices(b, y);
  }

  lemma ChangeReturns(c: Call, h: int, r: Reply, q: Image, b: Image)
    requires c.GetStatusChange? && Admitted(c) && Answers(Forwarded(c, h), r) && Length(q) == RequestEnd(c)
    ensures Fits(Forwarded(c, h)) && Returns(c, h, r, q, b)
  {
    hide Put32, PutUpdates, LE32, U32, StoreUpdate, Zeros, LoadReader, Merge, Received, Frame, Block;
    ChangeAnswered(q, b, r.updates, r.rv);
    var z := Received(b, Frame(Put32(PutUpdates(q, r.updates), CHANGE_RV, r.rv)));
    forall i | 0 <= i < |c.readers|
      ensures LoadReader(Block(z, i), c.readers[i]) == Merge(c.readers[i], r.updates[i])
    {
      assert r.updates[i] in r.updates;
      UpdateLoaded(Block(q, i), r.updates[i], c.readers[i]);
    }
    assert TakeReaders(z, c.readers) == Merged(c.readers, r.updates);
  }

  lemma ReleaseField(h: int, stale: Image)
    ensures var b := HandleOnly(RELEASE_CONTEXT, h);
            Length(b) == SHORT_END && Get32(Received(stale, Frame(b)), SHORT_RV) == 0
  {
    ZeroField();
    hide Put, Put32, LE32, U32, Zeros, Received, Frame;
    ReceivedSlices(stale, HandleOnly(RELEASE_CONTEXT, h));
  }

  lemma AnswerEnds(c: Call, h: int, r: Reply)
    requires Admitted(c) && !c.SetTimeout? && Answers(Forwarded(c, h), r)
    ensures ReplyEnd(c, r) <= MAX_LEN
  {
  }

  lemma Answered(c: Call, h: int, r: Reply, q: Image, b: Image)
    requires Admitted(c) && !c.SetTimeout? && Answers(Forwarded(c, h), r) && ReplyEnd(c, r) <= MAX_LEN
    requires Length(q) == RequestEnd(c)
    requires c.ReleaseContext? ==> Get32(q, SHORT_RV) == 0
    ensures Fits(Forwarded(c, h)) && Returns(c, h, r, q, b)
  {
    hide Answers, Forwarded, Fits, Returns, Length, Get32;
    match c {
      case Status(_, _, _) => StatusReturns(c, h, r, q, b);
      case Control(_, _, _, _) => ControlReturns(c, h, r, q, b);
      case Transmit(_, _, _, _, _) => TransmitReturns(c, h, r, q, b);
      case GetAttrib(_, _, _) => GetAttribReturns(c, h, r, q, b);
      case ListReaders(_, _, _) => ReaderListReturns(c, h, r, q, b);
      case ListReaderGroups(_, _, _) => GroupListReturns(c, h, r, q, b);
      case GetStatusChange(_, _, _) => ChangeReturns(c, h, r, q, b);
      case ReleaseContext(_) => ReleaseReturns(c, h, r, q, b);
      case EstablishContext(_) => HandleReturns(c, h, r, q, b);
      case Connect(_, _, _, _) => HandleReturns(c, h, r, q, b);
      case Reconnect(_, _, _, _) => HandleReturns(c, h, r, q, b);
      case SetAttrib(_, _, _) => SetAttribReturns(c, h, r, q, b);
      case Disconnect(_, _) => WordCodeReturns(c, h, r, q, b);
      case EndTransaction(_, _) => WordCodeReturns(c, h, r, q, b);
      case _ => ShortCodeReturns(c, h, r, q, b);
    }
  }

  /**
   * Whatever both buffers held: the answer has the length of its struct, or ends with the last byte of its
   * data, and what the client takes out of it is the library's answer.
   */
  lemma AnswerDelivered(c: Call, h: int, r: Reply, stale: Image)
    requires Admitted(c) && !c.SetTimeout? && Answers(Forwarded(c, h), r)
    ensures ReplyEnd(c, r) <= MAX_LEN
    ensures var b := Marshal(c, h);
            var f := Forwarded(c, h);
            HEADER <= Length(b) <= MAX_LEN && Fits(f) &&
            var y := Answer(Received(stale, Frame(b)), f, r);
            y[0] == b[0] && HEADER <= Length(y) == ReplyEnd(c, r) &&
            Faithful(c, h, r, Unmarshal(c, Received(b, Frame(y))))
  {
    RequestDelivered(c, h, stale);
    AnswerEnds(c, h, r);
    var b := Marshal(c, h);
    if c.ReleaseContext? {
      ReleaseField(h, stale);
    }
    hide Marshal, Received, Frame, Answer, Unmarshal, RequestIn, Seen, Sound, Fits, Forwarded, Answers,
      Faithful, Length, RequestEnd;
    Answered(c, h, r, Received(stale, Frame(b)), b);
  }
}
