/**
 * A whole client process: any number of contexts, each with its own connection to its own server
 * process, and every call an application makes on them.
 */
module Proxy {
  import opened Bytes
  import opened Message
  import opened Pcsc
  import opened Client
  import opened Exchange
  import opened Handles

  /** PP_CLIENT_CONTEXT; `session` is the server process at the other end of tlsSession. */
  datatype Context = Context(id: int, handle: int, session: Option<nat>)
  /** PP_CARD_CONTEXT; `context` is the slot that clientContext points to. */
  datatype Card = Card(id: int, handle: int, context: nat)

  type Contexts = s: seq<Context> | |s| == SLOTS witness seq(SLOTS, _ => Context(0, 0, None))
  type Cards = s: seq<Card> | |s| == SLOTS && forall i :: 0 <= i < SLOTS ==> s[i].context < SLOTS
    witness seq(SLOTS, _ => Card(0, 0, 0))

  /** The two tables, and what every server process forked so far has been asked. */
  datatype World = World(contexts: Contexts, cards: Cards, servers: seq<seq<Call>>)

  /** The library in each server process. */
  type Libraries = nat -> Library

  ghost predicate AllLawful(libs: Libraries)
  {
    forall k :: Lawful(libs(k))
  }

  /** Every connection is in step: no answer so far was as long as the message buffer. */
  ghost predicate AllInStep(libs: Libraries, servers: seq<seq<Call>>)
  {
    forall k :: 0 <= k < |servers| ==> InStep(libs(k), servers[k])
  }

  function ContextIds(s: Contexts): (ids: Ids)
    ensures forall i :: 0 <= i < SLOTS ==> ids[i] == s[i].id
  {
    seq(SLOTS, i requires 0 <= i < SLOTS => s[i].id)
  }

  function CardIds(s: Cards): (ids: Ids)
    ensures forall i :: 0 <= i < SLOTS ==> ids[i] == s[i].id
  {
    seq(SLOTS, i requires 0 <= i < SLOTS => s[i].id)
  }

  predicate OnCard(c: Call)
  {
    c.Reconnect? || c.Disconnect? || c.BeginTransaction? || c.EndTransaction? || c.CancelTransaction?
    || c.Cancel? || c.Status? || c.Control? || c.Transmit? || c.GetAttrib? || c.SetAttrib?
  }

  predicate OnContext(c: Call)
  {
    c.ReleaseContext? || c.IsValidContext? || c.Connect? || c.GetStatusChange? || c.ListReaders? || c.ListReaderGroups?
  }

  /** A forwarded call, with no more reader states than fit and no command one byte too long to be received. */
  predicate Forwardable(c: Call)
  {
    && (OnContext(c) || OnCard(c) || c.EstablishContext?)
    && (c.GetStatusChange? ==> |c.readers| <= MAX_READERS)
    && (c.Transmit? ==> TRANSMIT_DATA + |c.send| != MAX_LEN)
  }

  lemma AnyEstablish(c: Call)
    requires c.EstablishContext?
    ensures Sendable(c) && Admitted(c)
  {
  }

  lemma Allowed(c: Call)
    requires ArgumentError(c) == SUCCESS && Forwardable(c)
    ensures Sendable(c)
  {
  }

  /** pp_exchangeMsg on a context's session, when it has one. */
  ghost function Transact(libs: Libraries, servers: seq<seq<Call>>, session: Option<nat>, c: Call, h: int, stale: Image)
    : (r: (Option<Reply>, seq<seq<Call>>))
    requires AllLawful(libs) && Sendable(c)
    ensures |r.1| == |servers|
  {
    if session.Some? && session.value < |servers| then
      var (r, after) := Wire(libs(session.value), servers[session.value], c, h, stale);
      (r, servers[session.value := after])
    else (None, servers)
  }

  /** What lies outside the client's control in one call. */
  datatype Chance = Chance(reachable: bool, stale: Image)

  /** The end of SCardEstablishContext: the context in slot i keeps its new handle, or frees the slot. */
  function ContextOpened(w: World, i: nat, k: nat, r: Option<Reply>, servers: seq<seq<Call>>): (o: (World, Reply))
    requires i < SLOTS
  {
    if r.Some? && r.value.Opened? && r.value.rv == SUCCESS then
      var id := CONTEXT_MAGIC + i;
      (World(w.contexts[i := Context(id, r.value.handle, Some(k))], w.cards, servers), Opened(SUCCESS, id))
    else
      (World(w.contexts[i := Context(0, w.contexts[i].handle, Some(k))], w.cards, servers),
       Code(if r.Some? then r.value.rv else INTERNAL_ERROR))
  }

  ghost function Establish(libs: Libraries, w: World, c: Call, e: Chance): (r: (World, Reply))
    requires AllLawful(libs) && c.EstablishContext?
  {
    var i := LowestFree(ContextIds(w.contexts));
    if i == SLOTS then (w, Code(INTERNAL_ERROR))
    else
      var session := w.contexts[i].session;
      if session.None? && !e.reachable then (w, Code(INTERNAL_ERROR))
      else
        // a session left over from a failed establish in this slot is used again
        var k := if session.None? then |w.servers| else session.value;
        var servers := if session.None? then w.servers + [[]] else w.servers;
        var (r, servers') := Transact(libs, servers, Some(k), c, 0, e.stale);
        ContextOpened(w, i, k, r, servers')
  }

  /** The end of SCardConnect: the card in slot j keeps its new handle, or frees the slot. */
  function CardOpened(w: World, j: nat, i: nat, r: Option<Reply>, servers: seq<seq<Call>>): (o: (World, Reply))
    requires j < SLOTS && i < SLOTS
  {
    if r.Some? && r.value.Connected? && r.value.rv == SUCCESS then
      var id := CARD_MAGIC + j;
      (World(w.contexts, w.cards[j := Card(id, Wrap32(r.value.handle), i)], servers),
       Connected(SUCCESS, id, r.value.protocol))
    else
      (World(w.contexts, w.cards[j := Card(0, w.cards[j].handle, i)], servers),
       Code(if r.Some? then r.value.rv else INTERNAL_ERROR))
  }

  ghost function ConnectCard(libs: Libraries, w: World, c: Call, i: nat, e: Chance): (r: (World, Reply))
    requires AllLawful(libs) && c.Connect? && Sendable(c) && i < SLOTS
  {
    var j := LowestFree(CardIds(w.cards));
    if j == SLOTS then (w, Code(INTERNAL_ERROR))
    else
      var x := w.contexts[i];
      var (r, servers) := Transact(libs, w.servers, x.session, c, x.handle, e.stale);
      CardOpened(w, j, i, r, servers)
  }

  ghost function ContextCall(libs: Libraries, w: World, c: Call, i: nat, e: Chance): (r: (World, Reply))
    requires AllLawful(libs) && Sendable(c) && i < SLOTS
  {
    var x := w.contexts[i];
    var (r, servers) := Transact(libs, w.servers, x.session, c, x.handle, e.stale);
    // a release closes the connection and frees the slot, whatever came of the exchange
    var contexts := if c.ReleaseContext? then w.contexts[i := Context(0, x.handle, None)] else w.contexts;
    (World(contexts, w.cards, servers), if r.Some? then r.value else Code(INTERNAL_ERROR))
  }

  /** A card call goes out on the session its context's slot has now. */
  ghost function CardCall(libs: Libraries, w: World, c: Call, j: nat, e: Chance): (r: (World, Reply))
    requires AllLawful(libs) && Sendable(c) && j < SLOTS
  {
    var x := w.cards[j];
    var (r, servers) := Transact(libs, w.servers, w.contexts[x.context].session, c, x.handle, e.stale);
    (World(w.contexts, w.cards, servers), if r.Some? then r.value else Code(INTERNAL_ERROR))
  }

  /** One call of the application, with ids for handles. */
  ghost function Invoke(libs: Libraries, w: World, c: Call, e: Chance): (r: (World, Reply))
    requires AllLawful(libs) && Forwardable(c)
  {
    if c.EstablishContext? then Establish(libs, w, c, e)
    // SCardConnect looks at the name before it looks up the context
    else if c.Connect? && ArgumentError(c) != SUCCESS then (w, Code(ArgumentError(c)))
    else if OnContext(c) then
      var f := Find(ContextIds(w.contexts), CONTEXT_MAGIC, c.handle);
      if !f.At? then (w, Code(INTERNAL_ERROR))
      else if ArgumentError(c) != SUCCESS then (w, Code(ArgumentError(c)))
      else if c.Connect? then ConnectCard(libs, w, c, f.slot, e)
      else ContextCall(libs, w, c, f.slot, e)
    else
      var f := Find(CardIds(w.cards), CARD_MAGIC, c.handle);
      if !f.At? then (w, Code(INVALID_VALUE))
      else if ArgumentError(c) != SUCCESS then (w, Code(ArgumentError(c)))
      else CardCall(libs, w, c, f.slot, e)
  }
}
