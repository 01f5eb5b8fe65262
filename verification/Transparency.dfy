/** Which calls the library sees exactly as they were made, and what becomes of status changes and commands. */
module Transparency {
  import opened Bytes
  import opened Message
  import opened Pcsc
  import opened Client
  import opened RequestDelivery
  import opened AnswerDelivery
  import opened Exchange
  import opened Fidelity
  import opened Handles
  import opened Proxy
  import opened DirectUse
  import opened Refinement
  import opened Runs

  function WithHandle(c: Call, k: int): (f: Call)
  {
    if c.EstablishContext? then c else c.(handle := k)
  }

  predicate PlainPci(p: Pci) { Dword(p.protocol) && Dword(p.length) }

  predicate PlainReader(r: ReaderState)
  {
    && (r.name.Some? ==> 0 < |r.name.value| < NAME)
    && r.userData == 0 && Dword(r.current) && Dword(r.event)
    && r.cbAtr <= ATR && forall i :: r.cbAtr <= i < ATR ==> r.rgbAtr[i] == 0
  }

  predicate PlainRoom(query: bool, room: nat)
  {
    room <= MAX_LIST || (query && TWO_31 <= room < TWO_32)
  }

  /** Every argument fits the field it travels in. */
  predicate Plain(c: Call)
  {
    match c
    case EstablishContext(scope) => Dword(scope)
    case Connect(_, _, share, protocols) => Dword(share) && Dword(protocols)
    case Reconnect(_, share, protocols, init) => Dword(share) && Dword(protocols) && Dword(init)
    case Disconnect(_, disposition) => Dword(disposition)
    case EndTransaction(_, disposition) => Dword(disposition)
    case CancelTransaction(_) => false
    case Status(_, nameRoom, atrRoom) => nameRoom <= NAME && atrRoom <= ATR
    case GetStatusChange(_, timeout, readers) => Dword(timeout) && forall i :: 0 <= i < |readers| ==>
        PlainReader(readers[i])
    case Control(_, code, _, room) => Dword(code) && room <= BUFFER
    case Transmit(_, sendPci, _, recvPci, room) =>
      PlainPci(sendPci) && recvPci.Some? && PlainPci(recvPci.value) && room <= MAX_TRANSMIT
    case GetAttrib(_, attribute, room) => Dword(attribute) && room <= BUFFER
    case SetAttrib(_, attribute, _) => Dword(attribute)
    case ListReaders(_, query, room) => PlainRoom(query, room)
    case ListReaderGroups(_, query, room) => PlainRoom(query, room)
    case _ => true
  }

  lemma PlainReaders(r: ReaderState)
    ensures ForwardedReader(r) == r <==> PlainReader(r)
  {
    var f := ForwardedReader(r);
    var n := AtrTold(r.cbAtr);
    assert r.rgbAtr == r.rgbAtr[..n] + r.rgbAtr[n..];
    if r.name.Some? && |r.name.value| < NAME {
      assert r.name.value[..|r.name.value|] == r.name.value;
    }
    assert f.rgbAtr[n..] == Zeros(ATR - n);
    assert f.rgbAtr == r.rgbAtr <==> r.rgbAtr[n..] == Zeros(ATR - n);
    assert r.rgbAtr[n..] == Zeros(ATR - n) <==> forall i :: n <= i < ATR ==> r.rgbAtr[i] == 0 by {
      if r.rgbAtr[n..] == Zeros(ATR - n) {
        forall i | n <= i < ATR
          ensures r.rgbAtr[i] == 0
        {
          assert r.rgbAtr[i] == r.rgbAtr[n..][i - n];
        }
      }
    }
  }

  lemma PlainRooms(query: bool, room: nat)
    ensures ForwardedRoom(query, room) == room <==> PlainRoom(query, room)
  {
  }

  /** The library sees a call as it was made, but for the handle, exactly when every argument fits. */
  lemma PlainCalls(c: Call, k: int)
    requires Admitted(c) && !c.SetTimeout?
    ensures Narrowed(c, k) == WithHandle(c, k) <==> Plain(c)
  {
    hide ForwardedReader, PlainReader, ForwardedRoom, PlainRoom, Admitted;
    match c {
      case GetStatusChange(_, timeout, readers) =>
        forall i | 0 <= i < |readers|
          ensures ForwardedReader(readers[i]) == readers[i] <==> PlainReader(readers[i])
        {
          PlainReaders(readers[i]);
        }
        SameReaders(readers);
      case ListReaders(_, query, room) => PlainRooms(query, room);
      case ListReaderGroups(_, query, room) => PlainRooms(query, room);
      case Transmit(_, _, _, _, _) => PlainTransmit(c, k);
      case Status(_, _, _) => PlainData(c, k);
      case Control(_, _, _, _) => PlainData(c, k);
      case GetAttrib(_, _, _) => PlainData(c, k);
      case SetAttrib(_, _, _) => PlainData(c, k);
      case _ => PlainWords(c, k);
    }
  }

  lemma PlainWords(c: Call, k: int)
    requires c.EstablishContext? || c.ReleaseContext? || c.IsValidContext? || c.Connect? || c.Reconnect?
             || c.Disconnect?
             || c.BeginTransaction? || c.EndTransaction? || c.CancelTransaction? || c.Cancel?
    requires Admitted(c)
    ensures Narrowed(c, k) == WithHandle(c, k) <==> Plain(c)
  {
  }

  lemma PlainData(c: Call, k: int)
    requires c.Status? || c.Control? || c.GetAttrib? || c.SetAttrib?
    requires Admitted(c)
    ensures Narrowed(c, k) == WithHandle(c, k) <==> Plain(c)
  {
  }

  lemma PlainTransmit(c: Call, k: int)
    requires Admitted(c) && c.Transmit?
    ensures Narrowed(c, k) == WithHandle(c, k) <==> Plain(c)
  {
  }

  lemma SameReaders(rs: seq<ReaderState>)
    ensures ForwardedReaders(rs) == rs <==> forall i :: 0 <= i < |rs| ==> ForwardedReader(rs[i]) == rs[i]
  {
    hide ForwardedReader;
    if ForwardedReaders(rs) == rs {
      forall i | 0 <= i < |rs|
        ensures ForwardedReader(rs[i]) == rs[i]
      {
        assert ForwardedReaders(rs)[i] == ForwardedReader(rs[i]);
      }
    }
  }

  /** The library's handle that the name in c stands for. */
  ghost function HandleBehind(d: Direct, c: Call): (h: int)
  {
    if c.EstablishContext? then 0
    else
      var id := Wrap32(c.handle);
      if OnContext(c) && id in d.contexts then d.contexts[id].handle
      else if OnCard(c) && id in d.cards then d.cards[id].handle
      else 0
  }

  /** A plain call made directly is the call itself, on the handle behind its name. */
  lemma PlainStep(libs: Libraries, d: Direct, c: Call, reachable: bool)
    requires AllLawful(libs) && Rooted(d) && Forwardable(c) && Plain(c)
    ensures var o := DirectStep(libs, d, c, reachable).1;
            o.Performed? ==> o.call == WithHandle(c, HandleBehind(d, c))
  {
    hide AllLawful, Narrowed, Plain, ArgumentError, NamesIn, LowestFree;
    if c.EstablishContext? || ArgumentError(c) == SUCCESS {
      PlainForwardable(c);
      PlainCalls(c, HandleBehind(d, c));
    }
  }

  lemma PlainForwardable(c: Call)
    requires Forwardable(c) && (c.EstablishContext? || ArgumentError(c) == SUCCESS)
    ensures Admitted(c) && !c.SetTimeout?
  {
  }

  lemma {:induction false} PlainCallAt(libs: Libraries, run: seq<Event>, k: nat)
    requires AllLawful(libs) && AllForwardable(run) && k < |run| && Plain(run[k].call)
    ensures var d := Directly(libs, run[..k]).0;
            var o := Directly(libs, run).1[k];
            o.Performed? ==> o.call == WithHandle(run[k].call, HandleBehind(d, run[k].call))
  {
    EachForwardable(run, k);
    OutcomeAt(libs, run, k);
    hide AllLawful, Forwardable, Directly, Plain, DirectStep, Rooted, HandleBehind, WithHandle;
    PlainStep(libs, Directly(libs, run[..k]).0, run[k].call, run[k].chance.reachable);
  }

  /**
   * In an orderly run a plain call is performed by the library as the application made it, on the handle
   * behind its id, and gives its caller what that call gave.
   */
  lemma {:induction false} PlainRuns(libs: Libraries, run: seq<Event>, k: nat)
    requires AllLawful(libs) && NarrowHandles(libs) && AllForwardable(run) && Orderly(libs, run)
    requires k < |run| && Plain(run[k].call)
    ensures var d := Directly(libs, run[..k]).0;
            var o := Directly(libs, run).1[k];
            && SameResult(run[k].call, o, Proxied(libs, run).1[k])
            && (o.Performed? ==> o.call == WithHandle(run[k].call, HandleBehind(d, run[k].call)))
  {
    PlainCallAt(libs, run, k);
    hide AllLawful, NarrowHandles, Orderly, SameResult, Proxied, Directly, Plain, Related, HandleBehind, WithHandle;
    RunRefines(libs, run);
  }

  lemma {:induction false} EachForwardable(run: seq<Event>, k: nat)
    requires AllForwardable(run) && k < |run|
    ensures Forwardable(run[k].call)
  {
  }

  lemma {:induction false} OutcomeAt(libs: Libraries, run: seq<Event>, k: nat)
    requires AllLawful(libs) && AllForwardable(run) && k < |run|
    ensures Forwardable(run[k].call)
    ensures Directly(libs, run).1[k]
            == DirectStep(libs, Directly(libs, run[..k]).0, run[k].call, run[k].chance.reachable).1
  {
    hide AllLawful, DirectStep, Forwardable;
    var n := |run| - 1;
    if k < n {
      OutcomeAt(libs, run[..n], k);
      assert run[..n][..k] == run[..k];
    }
  }

  /** What the library is shown of one reader state. */
  predicate ShownAs(r: ReaderState, f: ReaderState)
  {
    var n := Min(r.cbAtr % TWO_32, ATR);
    && (if r.name.None? || r.name.value == [] then f.name == None
        else if |r.name.value| < NAME then f.name == r.name else f.name == Some(r.name.value[..NAME - 1]))
    && f.current == Wrap32(r.current) && f.event == Wrap32(r.event)
    && f.cbAtr == n && f.rgbAtr[..n] == r.rgbAtr[..n] && f.rgbAtr[n..] == Zeros(ATR - n)
  }

  /** What the caller finds in it afterwards. */
  predicate UpdatedBy(r: ReaderState, u: Update, r': ReaderState)
  {
    var n := Min(u.cbAtr % TWO_32, ATR);
    && r'.name == r.name && r'.userData == r.userData
    && r'.current == u.current && r'.event == u.event
    && r'.cbAtr == n && r'.rgbAtr[..n] == u.rgbAtr[..n] && r'.rgbAtr[n..] == r.rgbAtr[n..]
  }

  lemma ReaderShown(r: ReaderState)
    ensures ShownAs(r, ForwardedReader(r))
  {
    assert r.name.Some? && |r.name.value| < NAME ==> r.name.value[..|r.name.value|] == r.name.value;
  }

  lemma ReaderUpdated(r: ReaderState, u: Update)
    ensures UpdatedBy(r, u, Merge(r, u))
  {
  }

  /** SCardGetStatusChange, element by element, for any number of readers the message buffer holds. */
  lemma StatusChangeTransparent(lib: Library, history: seq<Call>, c: Call, h: int, stale: Image, over: Image)
    requires Lawful(lib) && c.GetStatusChange? && |c.readers| <= MAX_READERS
    ensures var f := Forwarded(c, h);
            var a := lib(history + [f]);
            var r := ResultOver(lib, history, c, h, stale, over);
            && f.handle == Wrap32(h) && f.timeout == Wrap32(c.timeout) && |f.readers| == |c.readers|
            && a.Changed? && |a.updates| == |c.readers|
            && r.Readers? && r.rv == a.rv && |r.readers| == |c.readers|
            && forall i :: 0 <= i < |c.readers| ==>
                 ShownAs(c.readers[i], f.readers[i]) && UpdatedBy(c.readers[i], a.updates[i], r.readers[i])
  {
    hide ResultOver, ShownAs, UpdatedBy, ForwardedReader, Merge, Lawful;
    var f := Forwarded(c, h);
    ResultFaithful(lib, history, c, h, stale, over);
    var a := lib(history + [f]);
    forall i | 0 <= i < |c.readers|
      ensures ShownAs(c.readers[i], f.readers[i])
              && UpdatedBy(c.readers[i], a.updates[i], Merge(c.readers[i], a.updates[i]))
    {
      ReaderShown(c.readers[i]);
      ReaderUpdated(c.readers[i], a.updates[i]);
    }
  }

  /**
   * SCardTransmit: although the response is written over the command in the same message, the library
   * sees the whole command, and the caller receives exactly the response.
   */
  lemma TransmitInPlace(lib: Library, history: seq<Call>, c: Call, h: int, stale: Image)
    requires Lawful(lib) && c.Transmit? && 4 <= |c.send| <= 66522
    ensures var f := Forwarded(c, h);
            var a := lib(history + [f]);
            && Admitted(c) && Sendable(c) && f.Transmit? && f.send == c.send && f.room <= c.room
            && var (r, after) := Wire(lib, history, c, h, stale);
            && after == history + [f]
            && a.Response?
            && (r.Some? <==> a.length <= 66522)
            && (a.rv == SUCCESS && r.Some? ==>
                  && r.value.Response? && r.value.data == a.data && r.value.length == a.length == |a.data|
                  && (c.recvPci.Some? ==> r.value.recvPci == a.recvPci))
  {
    hide Wire, Lawful;
    WireReports(lib, history, c, h, stale);
    assert Answers(Forwarded(c, h), lib(history + [Forwarded(c, h)]));
  }
}
