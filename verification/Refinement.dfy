/** Session refinement: every run of the proxy is a run of the application that uses the library directly. */
module Refinement {
  import opened Bytes
  import opened Message
  import opened Pcsc
  import opened Client
  import opened RequestDelivery
  import opened AnswerDelivery
  import opened Exchange
  import opened Handles
  import opened Proxy
  import opened DirectUse

  // ---- the relation between ids and library handles

  predicate InRange(id: int, magic: int) { magic <= id < magic + SLOTS }

  predicate ContextHandle(h: int) { 0 <= h < TWO_31 }
  predicate CardHandle(h: int) { -TWO_31 <= h < TWO_31 }

  ghost predicate ContextsAgree(w: World, d: Direct)
  {
    && (forall id :: id in d.contexts ==> InRange(id, CONTEXT_MAGIC) && ContextHandle(d.contexts[id].handle))
    && (forall id :: id in d.spare ==> InRange(id, CONTEXT_MAGIC) && id !in d.contexts)
    && forall i :: 0 <= i < SLOTS ==> ContextAgrees(w.contexts[i], d, CONTEXT_MAGIC + i)
  }

  /** A slot in use holds the library's handle and the connection it came from; a free one what is spare. */
  ghost predicate ContextAgrees(x: Context, d: Direct, id: int)
  {
    if id in d.contexts then x == Context(id, d.contexts[id].handle, Some(d.contexts[id].server))
    else x.id == 0 && x.session == if id in d.spare then Some(d.spare[id]) else None
  }

  ghost predicate CardsAgree(w: World, d: Direct)
  {
    && (forall id :: id in d.cards ==>
          InRange(id, CARD_MAGIC) && InRange(d.cards[id].context, CONTEXT_MAGIC) && CardHandle(d.cards[id].handle))
    && forall j :: 0 <= j < SLOTS ==> CardAgrees(w.cards[j], d, CARD_MAGIC + j)
  }

  ghost predicate CardAgrees(x: Card, d: Direct, id: int)
  {
    if id in d.cards then
      x.id == id && x.handle == Wrap32(d.cards[id].handle) && CONTEXT_MAGIC + x.context == d.cards[id].context
    else x.id == 0
  }

  /**
   * No two slots share a connection; a card's connection is in no slot but its own context's, and is
   * never one that a failed establish left.
   */
  ghost predicate Routed(w: World, d: Direct)
  {
    && (forall i, j :: 0 <= i < j < SLOTS && w.contexts[i].session.Some? ==>
        w.contexts[i].session != w.contexts[j].session)
    && (forall i :: 0 <= i < SLOTS && w.contexts[i].session.Some? ==> w.contexts[i].session.value < |w.servers|)
    && (forall id, i :: id in d.cards && 0 <= i < SLOTS && w.contexts[i].session == Some(d.cards[id].server) ==>
          d.cards[id].context == CONTEXT_MAGIC + i)
    && (forall id, left :: id in d.cards && left in d.spare ==> d.cards[id].server != d.spare[left])
  }

  ghost predicate Related(w: World, d: Direct)
  {
    w.servers == d.servers && Rooted(d) && ContextsAgree(w, d) && CardsAgree(w, d) && Routed(w, d)
  }

  /** Handles that survive the 32-bit fields they travel in. */
  ghost predicate NarrowHandles(libs: Libraries)
  {
    forall k: nat, history: seq<Call>, c: Call :: NarrowHandle(c, libs(k)(history + [c]))
  }

  predicate NarrowHandle(c: Call, a: Reply)
  {
    && (c.EstablishContext? && a.Opened? && a.rv == SUCCESS ==> ContextHandle(a.handle))
    && (c.Connect? && a.Connected? && a.rv == SUCCESS ==> CardHandle(a.handle))
  }

  /** The context a card was connected in has not been released. */
  ghost predicate Open(d: Direct, card: HeldCard)
  {
    card.context in d.contexts && d.contexts[card.context].server == card.server
  }

  /** What an application must keep to, in terms of its own arguments and the open handles. */
  ghost predicate Permitted(d: Direct, c: Call)
  {
    && Forwardable(c)
    && (OnContext(c) ==> Wrap32(c.handle) != CONTEXT_MAGIC + SLOTS)
    && (OnCard(c) ==>
          && Wrap32(c.handle) != CARD_MAGIC + SLOTS
          && (Wrap32(c.handle) in d.cards ==> Open(d, d.cards[Wrap32(c.handle)])))
    // right only when the library's handle happens to be the proxy's id
    && (c.Cancel? && Wrap32(c.handle) in d.cards ==> d.cards[Wrap32(c.handle)].handle == Wrap32(c.handle))
  }

  ghost predicate ShortOutcome(c: Call, o: Outcome)
  {
    o.Performed? ==> Admitted(c) && Short(c, o.answer)
  }

  // ---- one exchange

  /** The handle k fits the field it travels in; SCardCancel sends its own argument, whatever the handle is. */
  predicate Fitting(c: Call, k: int)
  {
    || c.EstablishContext?
    || (OnContext(c) && ContextHandle(k))
    || (OnCard(c) && CardHandle(k) && (c.Cancel? ==> k == Signed32(c.handle)))
  }

  /** A handle that fits its field arrives as it is. */
  lemma SameHandle(c: Call, k: int)
    requires Admitted(c) && Fitting(c, k)
    ensures Forwarded(c, Wrap32(k)) == Narrowed(c, k)
    ensures OnContext(c) ==> Wrap32(k) == k
  {
  }

  lemma TransactIsWire(libs: Libraries, servers: seq<seq<Call>>, k: nat, c: Call, h: int, stale: Image)
    requires AllLawful(libs) && k < |servers| && Sendable(c)
    ensures Lawful(libs(k))
    ensures var (o, after) := Wire(libs(k), servers[k], c, h, stale);
            Transact(libs, servers, Some(k), c, h, stale) == (o, servers[k := after])
  {
    assert Lawful(libs(k));
    hide Lawful, Wire, Sendable;
  }

  /** pp_exchangeMsg on a live session is the direct call in that server process. */
  lemma TransactAsks(libs: Libraries, servers: seq<seq<Call>>, k: nat, c: Call, handle: int, stale: Image)
    requires AllLawful(libs) && k < |servers| && Sendable(c)
    requires Fitting(c, handle)
    ensures var f := Narrowed(c, handle);
            var (a, servers1) := CallIn(libs, servers, k, f);
            var (o, servers2) := Transact(libs, servers, Some(k), c, Wrap32(handle), stale);
            && servers1 == servers2
            && Forwarded(c, Wrap32(handle)) == f && Answers(f, a)
            && (Short(c, a) ==> o.Some? && Faithful(c, Wrap32(handle), a, o.value))
  {
    SameHandle(c, handle);
    TransactIsWire(libs, servers, k, c, Wrap32(handle), stale);
    hide AllLawful, Transact, Wire, Narrowed, Forwarded, Faithful, Short, Answers, Sendable, Lawful, Admitted;
    WireReports(libs(k), servers[k], c, Wrap32(handle), stale);
  }

  lemma ContextFound(w: World, d: Direct, id: int)
    requires ContextsAgree(w, d) && Wrap32(id) != CONTEXT_MAGIC + SLOTS
    ensures var f := Find(ContextIds(w.contexts), CONTEXT_MAGIC, id);
            && !f.PastEnd?
            && (f.At? <==> Wrap32(id) in d.contexts)
            && (f.At? ==> CONTEXT_MAGIC + f.slot == Wrap32(id) && ContextAgrees(w.contexts[f.slot], d, Wrap32(id)))
  {
    var ids := ContextIds(w.contexts);
    assert forall i :: 0 <= i < SLOTS ==> ContextAgrees(w.contexts[i], d, CONTEXT_MAGIC + i);
    FindExact(ids, CONTEXT_MAGIC, id);
    if Wrap32(id) in d.contexts {
      var i := Wrap32(id) - CONTEXT_MAGIC;
      assert ids[i] == Wrap32(id);
      assert Find(ids, CONTEXT_MAGIC, id) == At(i);
    }
  }

  lemma CardFound(w: World, d: Direct, id: int)
    requires CardsAgree(w, d) && Wrap32(id) != CARD_MAGIC + SLOTS
    ensures var f := Find(CardIds(w.cards), CARD_MAGIC, id);
            && !f.PastEnd?
            && (f.At? <==> Wrap32(id) in d.cards)
            && (f.At? ==> CARD_MAGIC + f.slot == Wrap32(id) && CardAgrees(w.cards[f.slot], d, Wrap32(id)))
  {
    var ids := CardIds(w.cards);
    assert forall i :: 0 <= i < SLOTS ==> CardAgrees(w.cards[i], d, CARD_MAGIC + i);
    FindExact(ids, CARD_MAGIC, id);
    if Wrap32(id) in d.cards {
      var i := Wrap32(id) - CARD_MAGIC;
      assert ids[i] == Wrap32(id);
      assert Find(ids, CARD_MAGIC, id) == At(i);
    }
  }

  /** The lowest free slot is the lowest free name. */
  lemma SameFreeContext(w: World, d: Direct)
    requires ContextsAgree(w, d)
    ensures ContextIds(w.contexts) == NamesIn(d.contexts.Keys, CONTEXT_MAGIC)
  {
    forall i | 0 <= i < SLOTS
      ensures ContextIds(w.contexts)[i] == NamesIn(d.contexts.Keys, CONTEXT_MAGIC)[i]
    {
      assert ContextAgrees(w.contexts[i], d, CONTEXT_MAGIC + i);
    }
  }

  lemma SameFreeCard(w: World, d: Direct)
    requires CardsAgree(w, d)
    ensures CardIds(w.cards) == NamesIn(d.cards.Keys, CARD_MAGIC)
  {
    forall j | 0 <= j < SLOTS
      ensures CardIds(w.cards)[j] == NamesIn(d.cards.Keys, CARD_MAGIC)[j]
    {
      assert CardAgrees(w.cards[j], d, CARD_MAGIC + j);
    }
  }

  // ---- what each kind of call does to the relation

  lemma SameServers(w: World, d: Direct)
    requires Related(w, d)
    ensures w.servers == d.servers
  {
  }

  lemma ServersRelated(w: World, d: Direct, servers: seq<seq<Call>>)
    requires Related(w, d) && |servers| == |w.servers|
    ensures Related(World(w.contexts, w.cards, servers), Direct(d.contexts, d.cards, d.spare, servers))
  {
    var d' := Direct(d.contexts, d.cards, d.spare, servers);
    assert forall i :: 0 <= i < SLOTS && ContextAgrees(w.contexts[i], d, CONTEXT_MAGIC + i) ==>
        ContextAgrees(w.contexts[i], d', CONTEXT_MAGIC + i);
    assert forall j :: 0 <= j < SLOTS && CardAgrees(w.cards[j], d, CARD_MAGIC + j) ==>
        CardAgrees(w.cards[j], d', CARD_MAGIC + j);
  }

  lemma ReleaseRelated(w: World, d: Direct, i: nat, h: int)
    requires Related(w, d) && i < SLOTS && CONTEXT_MAGIC + i in d.contexts
    ensures Related(World(w.contexts[i := Context(0, h, None)], w.cards, w.servers),
                    Direct(d.contexts - {CONTEXT_MAGIC + i}, d.cards, d.spare, d.servers))
  {
    var w' := World(w.contexts[i := Context(0, h, None)], w.cards, w.servers);
    var d' := Direct(d.contexts - {CONTEXT_MAGIC + i}, d.cards, d.spare, d.servers);
    forall n | 0 <= n < SLOTS
      ensures ContextAgrees(w'.contexts[n], d', CONTEXT_MAGIC + n) && CardAgrees(w'.cards[n], d', CARD_MAGIC + n)
    {
      assert ContextAgrees(w.contexts[n], d, CONTEXT_MAGIC + n) && CardAgrees(w.cards[n], d, CARD_MAGIC + n);
    }
  }

  lemma CardRelated(w: World, d: Direct, j: nat, i: nat, h: int)
    requires Related(w, d) && i < SLOTS && j < SLOTS && CARD_MAGIC + j !in d.cards && CardHandle(h)
    requires CONTEXT_MAGIC + i in d.contexts
    ensures var id := CARD_MAGIC + j;
            var held := HeldCard(h, CONTEXT_MAGIC + i, d.contexts[CONTEXT_MAGIC + i].server);
            Related(World(w.contexts, w.cards[j := Card(id, Wrap32(h), i)], w.servers),
                    Direct(d.contexts, d.cards[id := held], d.spare, d.servers))
  {
    var held := HeldCard(h, CONTEXT_MAGIC + i, d.contexts[CONTEXT_MAGIC + i].server);
    var w' := World(w.contexts, w.cards[j := Card(CARD_MAGIC + j, Wrap32(h), i)], w.servers);
    var d' := Direct(d.contexts, d.cards[CARD_MAGIC + j := held], d.spare, d.servers);
    forall n | 0 <= n < SLOTS
      ensures ContextAgrees(w'.contexts[n], d', CONTEXT_MAGIC + n) && CardAgrees(w'.cards[n], d', CARD_MAGIC + n)
    {
      assert ContextAgrees(w.contexts[n], d, CONTEXT_MAGIC + n) && CardAgrees(w.cards[n], d, CARD_MAGIC + n);
    }
    assert ContextAgrees(w.contexts[i], d, CONTEXT_MAGIC + i);
    forall left | left in d.spare
      ensures d.spare[left] != held.server
    {
      assert ContextAgrees(w.contexts[left - CONTEXT_MAGIC], d, left);
    }
  }

  lemma NoCardRelated(w: World, d: Direct, j: nat, x: Card)
    requires Related(w, d) && j < SLOTS && CARD_MAGIC + j !in d.cards && x.id == 0 && x.context < SLOTS
    ensures Related(World(w.contexts, w.cards[j := x], w.servers), d)
  {
    var w' := World(w.contexts, w.cards[j := x], w.servers);
    forall n | 0 <= n < SLOTS
      ensures ContextAgrees(w'.contexts[n], d, CONTEXT_MAGIC + n) && CardAgrees(w'.cards[n], d, CARD_MAGIC + n)
    {
      assert ContextAgrees(w.contexts[n], d, CONTEXT_MAGIC + n) && CardAgrees(w.cards[n], d, CARD_MAGIC + n);
    }
  }

  /** A failed establish leaves its connection, new or left over itself, in the free slot. */
  lemma SpareRelated(w: World, d: Direct, i: nat, h: int, k: nat, servers: seq<seq<Call>>)
    requires Related(w, d) && i < SLOTS && CONTEXT_MAGIC + i !in d.contexts
    requires var id := CONTEXT_MAGIC + i;
             if id in d.spare then k == d.spare[id] && |servers| == |w.servers|
                 else k == |w.servers| && |servers| == k + 1
    ensures Related(World(w.contexts[i := Context(0, h, Some(k))], w.cards, servers),
                    Direct(d.contexts, d.cards, d.spare[CONTEXT_MAGIC + i := k], servers))
  {
    var w' := World(w.contexts[i := Context(0, h, Some(k))], w.cards, servers);
    var d' := Direct(d.contexts, d.cards, d.spare[CONTEXT_MAGIC + i := k], servers);
    assert ContextAgrees(w.contexts[i], d, CONTEXT_MAGIC + i);
    forall n | 0 <= n < SLOTS
      ensures ContextAgrees(w'.contexts[n], d', CONTEXT_MAGIC + n) && CardAgrees(w'.cards[n], d', CARD_MAGIC + n)
    {
      assert ContextAgrees(w.contexts[n], d, CONTEXT_MAGIC + n) && CardAgrees(w.cards[n], d, CARD_MAGIC + n);
    }
  }

  lemma SpareTaken(w: World, d: Direct, i: nat, h: int, k: nat)
    requires Related(w, d) && i < SLOTS && CONTEXT_MAGIC + i in d.spare && d.spare[CONTEXT_MAGIC + i] == k
             && ContextHandle(h)
    ensures var id := CONTEXT_MAGIC + i;
            Related(World(w.contexts[i := Context(id, h, Some(k))], w.cards, w.servers),
                    Direct(d.contexts[id := HeldContext(h, k)], d.cards, d.spare - {id}, w.servers))
  {
    var id := CONTEXT_MAGIC + i;
    var w' := World(w.contexts[i := Context(id, h, Some(k))], w.cards, w.servers);
    var d' := Direct(d.contexts[id := HeldContext(h, k)], d.cards, d.spare - {id}, w.servers);
    assert ContextAgrees(w.contexts[i], d, CONTEXT_MAGIC + i);
    forall n | 0 <= n < SLOTS
      ensures ContextAgrees(w'.contexts[n], d', CONTEXT_MAGIC + n) && CardAgrees(w'.cards[n], d', CARD_MAGIC + n)
    {
      assert ContextAgrees(w.contexts[n], d, CONTEXT_MAGIC + n) && CardAgrees(w.cards[n], d, CARD_MAGIC + n);
    }
  }

  // ---- one call

  ghost predicate StepAgrees(c: Call, p: (World, Reply), q: (Direct, Outcome))
  {
    Related(p.0, q.0) && SameResult(c, q.1, p.1)
  }

  /** A faithful exchange gives the caller the same result. */
  lemma SameAnswer(c: Call, handle: int, a: Reply, s: Reply, name: int)
    requires Admitted(c) && !c.SetTimeout? && !c.EstablishContext? && !c.Connect?
    requires Forwarded(c, Wrap32(handle)) == Narrowed(c, handle) && Answers(Narrowed(c, handle), a)
    requires Faithful(c, Wrap32(handle), a, s)
    ensures SameResult(c, Performed(Narrowed(c, handle), a, name), s)
  {
    hide Narrowed, Forwarded, Answers, Admitted;
  }

  /** The exchange of a card call, against the direct call. */
  lemma CardExchange(libs: Libraries, w: World, d: Direct, c: Call, id: int, stale: Image)
    requires AllLawful(libs) && Related(w, d) && OnCard(c) && Sendable(c)
    requires id in d.cards && d.cards[id].server < |d.servers| && Fitting(c, d.cards[id].handle)
    requires Short(c, CallIn(libs, d.servers, d.cards[id].server, Narrowed(c, d.cards[id].handle)).0)
    ensures var card := d.cards[id];
            var (a, servers) := CallIn(libs, d.servers, card.server, Narrowed(c, card.handle));
            var (o, after) := Transact(libs, w.servers, Some(card.server), c, Wrap32(card.handle), stale);
            && after == servers && o.Some?
            && Related(World(w.contexts, w.cards, servers), Direct(d.contexts, d.cards, d.spare, servers))
            && SameResult(c, Performed(Narrowed(c, card.handle), a, id), o.value)
  {
    assert Admitted(c);
    CardCallKinds(c);
    hide AllLawful, Fitting, OnCard, Transact, Narrowed, Forwarded, Faithful, Short, Answers, Sendable, Admitted,
      SameResult, Related;
    SameServers(w, d);
    var card := d.cards[id];
    TransactAsks(libs, w.servers, card.server, c, card.handle, stale);
    var (a, servers) := CallIn(libs, w.servers, card.server, Narrowed(c, card.handle));
    var (o, _) := Transact(libs, w.servers, Some(card.server), c, Wrap32(card.handle), stale);
    ServersRelated(w, d, servers);
    SameAnswer(c, card.handle, a, o.value, id);
  }

  lemma CardCallRefines(libs: Libraries, w: World, d: Direct, c: Call, j: nat, e: Chance)
    requires AllLawful(libs) && Related(w, d) && OnCard(c) && Sendable(c)
    requires j < SLOTS && CARD_MAGIC + j in d.cards && Open(d, d.cards[CARD_MAGIC + j])
    requires c.Cancel? ==> Signed32(c.handle) == d.cards[CARD_MAGIC + j].handle
    requires ShortOutcome(c, DirectCardCall(libs, d, c, CARD_MAGIC + j).1)
    ensures StepAgrees(c, CardCall(libs, w, c, j, e), DirectCardCall(libs, d, c, CARD_MAGIC + j))
  {
    var id := CARD_MAGIC + j;
    var x, card := w.cards[j], d.cards[id];
    assert CardAgrees(x, d, id) && ContextAgrees(w.contexts[x.context], d, CONTEXT_MAGIC + x.context);
    assert x.handle == Wrap32(card.handle) && w.contexts[x.context].session == Some(card.server);
    assert card.server < |d.servers| && Fitting(c, card.handle);
    hide AllLawful, Fitting, OnCard, Transact, Narrowed, Short, Answers, Sendable, Admitted, SameResult, Related,
      CardAgrees, ContextAgrees, Open, Wrap32, Signed32;
    CardExchange(libs, w, d, c, id, e.stale);
  }

  lemma CardCallKinds(c: Call)
    requires OnCard(c)
    ensures !c.SetTimeout? && !c.EstablishContext? && !c.Connect?
  {
  }

  lemma ContextCallRefines(libs: Libraries, w: World, d: Direct, c: Call, i: nat, e: Chance)
    requires AllLawful(libs) && Related(w, d) && OnContext(c) && !c.Connect? && Sendable(c)
    requires i < SLOTS && CONTEXT_MAGIC + i in d.contexts
    requires ShortOutcome(c, DirectContextCall(libs, d, c, CONTEXT_MAGIC + i).1)
    ensures StepAgrees(c, ContextCall(libs, w, c, i, e), DirectContextCall(libs, d, c, CONTEXT_MAGIC + i))
  {
    var id := CONTEXT_MAGIC + i;
    var held := d.contexts[id];
    assert ContextAgrees(w.contexts[i], d, id);
    TransactAsks(libs, w.servers, held.server, c, held.handle, e.stale);
    SameHandle(c, held.handle);
    hide Transact, Narrowed, Forwarded, Faithful, Short, Answers, Sendable, Admitted, SameResult, Related;
    var (a, servers) := CallIn(libs, w.servers, held.server, Narrowed(c, held.handle));
    var (o, _) := Transact(libs, w.servers, Some(held.server), c, held.handle, e.stale);
    ServersRelated(w, d, servers);
    if c.ReleaseContext? {
      ReleaseRelated(World(w.contexts, w.cards, servers), Direct(d.contexts, d.cards, d.spare, servers), i,
          held.handle);
    }
    SameAnswer(c, held.handle, a, o.value, id);
  }

  /** An opening call reports its code and the library's handle in 32 bits. */
  lemma OpeningSeen(c: Call, handle: int, a: Reply, s: Reply)
    requires Admitted(c) && (c.EstablishContext? || c.Connect?)
    requires Forwarded(c, Wrap32(handle)) == Narrowed(c, handle) && Answers(Narrowed(c, handle), a)
    requires Faithful(c, Wrap32(handle), a, s)
    ensures if c.EstablishContext? then a.Opened? && s == Opened(a.rv, Wrap32(a.handle))
            else a.Connected? && s == Connected(a.rv, Signed32(a.handle), a.protocol)
  {
  }

  /** A new handle is reported under its name, a failure as it is. */
  lemma SameOpening(c: Call, handle: int, a: Reply, name: int, r: Reply)
    requires Admitted(c) && (c.EstablishContext? || c.Connect?) && Answers(Narrowed(c, handle), a)
    requires if a.rv != SUCCESS then r == Code(a.rv)
             else r == if c.EstablishContext? then Opened(SUCCESS, name) else Connected(SUCCESS, name, a.protocol)
    ensures SameResult(c, Performed(Narrowed(c, handle), a, name), r)
  {
  }

  lemma NewHandle(libs: Libraries, k: nat, history: seq<Call>, c: Call, handle: int)
    requires NarrowHandles(libs) && Admitted(c)
    ensures NarrowHandle(Narrowed(c, handle), libs(k)(history + [Narrowed(c, handle)]))
    ensures Narrowed(c, handle).Connect? == c.Connect? && Narrowed(c, handle).EstablishContext? == c.EstablishContext?
  {
  }

  lemma CardOpenedRelated(w: World, d: Direct, j: nat, i: nat, a: Reply, servers: seq<seq<Call>>)
    requires Related(w, d) && i < SLOTS && j < SLOTS && CARD_MAGIC + j !in d.cards && CONTEXT_MAGIC + i in d.contexts
    requires a.Connected? && (a.rv == SUCCESS ==> CardHandle(a.handle)) && |servers| == |w.servers|
    ensures var k := d.contexts[CONTEXT_MAGIC + i].server;
            var o := Some(Connected(a.rv, Signed32(a.handle), a.protocol));
            Related(CardOpened(w, j, i, o, servers).0, NewCard(d, CARD_MAGIC + j, CONTEXT_MAGIC + i, k, a, servers))
  {
    hide Related;
    ServersRelated(w, d, servers);
    var w1, d1 := World(w.contexts, w.cards, servers), Direct(d.contexts, d.cards, d.spare, servers);
    if a.rv == SUCCESS {
      assert Wrap32(Signed32(a.handle)) == Wrap32(a.handle);
      CardRelated(w1, d1, j, i, a.handle);
    } else {
      NoCardRelated(w1, d1, j, Card(0, w.cards[j].handle, i));
    }
  }

  /** A connect through context slot i into the free card slot j. */
  lemma ConnectInto(libs: Libraries, w: World, d: Direct, c: Call, i: nat, j: nat, stale: Image)
    requires AllLawful(libs) && NarrowHandles(libs) && Related(w, d) && c.Connect? && Sendable(c)
    requires i < SLOTS && j < SLOTS && CONTEXT_MAGIC + i in d.contexts && CARD_MAGIC + j !in d.cards
    requires var held := d.contexts[CONTEXT_MAGIC + i];
             Short(c, CallIn(libs, d.servers, held.server, Narrowed(c, held.handle)).0)
    ensures var held := d.contexts[CONTEXT_MAGIC + i];
            var (a, servers) := CallIn(libs, d.servers, held.server, Narrowed(c, held.handle));
            var (o, after) := Transact(libs, w.servers, Some(held.server), c, held.handle, stale);
            && after == servers && a.Connected?
            && StepAgrees(c, CardOpened(w, j, i, o, after),
                 (NewCard(d, CARD_MAGIC + j, CONTEXT_MAGIC + i, held.server, a, servers),
                  Performed(Narrowed(c, held.handle), a, CARD_MAGIC + j)))
  {
    SameServers(w, d);
    var held := d.contexts[CONTEXT_MAGIC + i];
    assert ContextHandle(held.handle) && Admitted(c);
    hide AllLawful, Transact, Narrowed, Forwarded, Faithful, Short, Answers, Sendable, Admitted, SameResult, Related,
      NarrowHandles, CardOpened;
    NewHandle(libs, held.server, w.servers[held.server], c, held.handle);
    TransactAsks(libs, w.servers, held.server, c, held.handle, stale);
    SameHandle(c, held.handle);
    var (a, servers) := CallIn(libs, w.servers, held.server, Narrowed(c, held.handle));
    var (o, _) := Transact(libs, w.servers, Some(held.server), c, held.handle, stale);
    OpeningSeen(c, held.handle, a, o.value);
    CardOpenedRelated(w, d, j, i, a, servers);
    CardResult(w, j, i, o, servers);
    SameOpening(c, held.handle, a, CARD_MAGIC + j, CardOpened(w, j, i, o, servers).1);
  }

  lemma RefusedAgrees(c: Call, w: World, d: Direct, rv: int)
    requires Related(w, d)
    ensures StepAgrees(c, (w, Code(rv)), (d, Refused(rv)))
  {
  }

  lemma ConnectRefines(libs: Libraries, w: World, d: Direct, c: Call, i: nat, e: Chance)
    requires AllLawful(libs) && NarrowHandles(libs) && Related(w, d) && c.Connect? && Sendable(c)
    requires i < SLOTS && CONTEXT_MAGIC + i in d.contexts
    requires ShortOutcome(c, DirectConnect(libs, d, c, CONTEXT_MAGIC + i).1)
    ensures StepAgrees(c, ConnectCard(libs, w, c, i, e), DirectConnect(libs, d, c, CONTEXT_MAGIC + i))
  {
    SameFreeCard(w, d);
    var j := LowestFree(CardIds(w.cards));
    assert ContextAgrees(w.contexts[i], d, CONTEXT_MAGIC + i);
    assert w.contexts[i].session == Some(d.contexts[CONTEXT_MAGIC + i].server);
    assert w.contexts[i].handle == d.contexts[CONTEXT_MAGIC + i].handle;
    SameServers(w, d);
    RefusedAgrees(c, w, d, INTERNAL_ERROR);
    hide AllLawful, NarrowHandles, Transact, Narrowed, Answers, Sendable, Admitted, Short, Related, NamesIn, CardIds,
      LowestFree, CardOpened, StepAgrees, SameResult, Wrap32, NewCard, CallIn, ContextAgrees;
    if j < SLOTS {
      ConnectInto(libs, w, d, c, i, j, e.stale);
    }
  }

  lemma CardResult(w: World, j: nat, i: nat, o: Option<Reply>, servers: seq<seq<Call>>)
    requires j < SLOTS && i < SLOTS && o.Some? && o.value.Connected?
    ensures CardOpened(w, j, i, o, servers).1
            == if o.value.rv == SUCCESS then Connected(SUCCESS, CARD_MAGIC + j, o.value.protocol) else Code(o.value.rv)
  {
  }

  lemma ContextOpenedRelated(w: World, d: Direct, i: nat, k: nat, a: Reply, servers: seq<seq<Call>>)
    requires Related(w, d) && i < SLOTS && CONTEXT_MAGIC + i !in d.contexts
    requires a.Opened? && (a.rv == SUCCESS ==> ContextHandle(a.handle))
    requires var id := CONTEXT_MAGIC + i;
             if id in d.spare then k == d.spare[id] && |servers| == |w.servers|
                 else k == |w.servers| && |servers| == k + 1
    ensures var id := CONTEXT_MAGIC + i;
            Related(ContextOpened(w, i, k, Some(Opened(a.rv, Wrap32(a.handle))), servers).0,
                NewContext(d, id, k, a, servers))
  {
    hide Related;
    var id, h := CONTEXT_MAGIC + i, w.contexts[i].handle;
    SpareRelated(w, d, i, h, k, servers);
    if a.rv == SUCCESS {
      var w1 := World(w.contexts[i := Context(0, h, Some(k))], w.cards, servers);
      var d1 := Direct(d.contexts, d.cards, d.spare[id := k], servers);
      SpareTaken(w1, d1, i, a.handle, k);
      assert w1.contexts[i := Context(id, a.handle, Some(k))] == w.contexts[i := Context(id, a.handle, Some(k))];
      assert d1.spare - {id} == d.spare - {id};
    }
  }

  lemma ContextResult(w: World, i: nat, k: nat, o: Option<Reply>, servers: seq<seq<Call>>)
    requires i < SLOTS && o.Some? && o.value.Opened?
    ensures ContextOpened(w, i, k, o, servers).1
            == if o.value.rv == SUCCESS then Opened(SUCCESS, CONTEXT_MAGIC + i) else Code(o.value.rv)
  {
  }

  ghost predicate Connection(w: World, d: Direct, i: nat, k: nat, before: seq<seq<Call>>)
    requires i < SLOTS
  {
    var id := CONTEXT_MAGIC + i;
    && id !in d.contexts
    && if id in d.spare then k == d.spare[id] < |w.servers| && before == w.servers
       else k == |w.servers| && before == w.servers + [[]]
  }

  /** An establish call on the connection k, opened for it or left over. */
  lemma EstablishOn(libs: Libraries, w: World, d: Direct, c: Call, i: nat, k: nat, before: seq<seq<Call>>, stale: Image)
    requires AllLawful(libs) && NarrowHandles(libs) && Related(w, d) && c.EstablishContext?
    requires i < SLOTS && Connection(w, d, i, k, before) && Admitted(c) && Sendable(c)
    requires Short(c, CallIn(libs, before, k, Narrowed(c, 0)).0)
    ensures var id := CONTEXT_MAGIC + i;
            var (a, servers) := CallIn(libs, before, k, Narrowed(c, 0));
            var (o, after) := Transact(libs, before, Some(k), c, 0, stale);
            && after == servers && a.Opened?
            && StepAgrees(c, ContextOpened(w, i, k, o, after),
                 (NewContext(d, id, k, a, servers), Performed(Narrowed(c, 0), a, id)))
  {
    hide AllLawful, Transact, Narrowed, Forwarded, Faithful, Short, Answers, Sendable, Admitted, SameResult, Related,
      NarrowHandles, ContextOpened;
    NewHandle(libs, k, before[k], c, 0);
    TransactAsks(libs, before, k, c, 0, stale);
    var (a, servers) := CallIn(libs, before, k, Narrowed(c, 0));
    var (o, _) := Transact(libs, before, Some(k), c, 0, stale);
    OpeningSeen(c, 0, a, o.value);
    ContextOpenedRelated(w, d, i, k, a, servers);
    ContextResult(w, i, k, o, servers);
    SameOpening(c, 0, a, CONTEXT_MAGIC + i, ContextOpened(w, i, k, o, servers).1);
  }

  lemma EstablishRefines(libs: Libraries, w: World, d: Direct, c: Call, e: Chance)
    requires AllLawful(libs) && NarrowHandles(libs) && Related(w, d) && c.EstablishContext?
    requires ShortOutcome(c, DirectEstablish(libs, d, c, e.reachable).1)
    ensures StepAgrees(c, Establish(libs, w, c, e), DirectEstablish(libs, d, c, e.reachable))
  {
    SameFreeContext(w, d);
    AnyEstablish(c);
    var i := LowestFree(ContextIds(w.contexts));
    var id := CONTEXT_MAGIC + i;
    assert i < SLOTS ==> ContextAgrees(w.contexts[i], d, id);
    SameServers(w, d);
    RefusedAgrees(c, w, d, INTERNAL_ERROR);
    hide AllLawful, NarrowHandles, Transact, Narrowed, Answers, Sendable, Admitted, Short, Related, NamesIn,
      ContextIds, LowestFree, ContextOpened, StepAgrees, SameResult, Wrap32, NewContext, CallIn;
    if i < SLOTS && (id in d.spare || e.reachable) {
      var k := if id in d.spare then d.spare[id] else |w.servers|;
      EstablishOn(libs, w, d, c, i, k, if id in d.spare then w.servers else w.servers + [[]], e.stale);
    }
  }

  /** One call: the same library call in the same process, the same result, and the relation kept. */
  lemma StepRefines(libs: Libraries, w: World, d: Direct, c: Call, e: Chance)
    requires AllLawful(libs) && NarrowHandles(libs) && Related(w, d) && Permitted(d, c)
    requires ShortOutcome(c, DirectStep(libs, d, c, e.reachable).1)
    ensures StepAgrees(c, Invoke(libs, w, c, e), DirectStep(libs, d, c, e.reachable))
  {
    hide Establish, DirectEstablish, ConnectCard, DirectConnect, ContextCall, DirectContextCall, CardCall,
      DirectCardCall;
    hide ShortOutcome, Find, Routed, Rooted, NarrowHandles, ContextIds, CardIds, ContextAgrees, CardAgrees;
    if c.EstablishContext? {
      EstablishRefines(libs, w, d, c, e);
    } else if OnContext(c) {
      ContextFound(w, d, c.handle);
      var f := Find(ContextIds(w.contexts), CONTEXT_MAGIC, c.handle);
      if f.At? && ArgumentError(c) == SUCCESS {
        Allowed(c);
        if c.Connect? {
          ConnectRefines(libs, w, d, c, f.slot, e);
        } else {
          ContextCallRefines(libs, w, d, c, f.slot, e);
        }
      }
    } else {
      CardFound(w, d, c.handle);
      var f := Find(CardIds(w.cards), CARD_MAGIC, c.handle);
      if f.At? && ArgumentError(c) == SUCCESS {
        Allowed(c);
        CardCallRefines(libs, w, d, c, f.slot, e);
      }
    }
  }
}
