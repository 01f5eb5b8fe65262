/**
 * The entry points of src/client/client.c over its two tables, updated in place, and over connections that
 * may chunk every message as they like.
 */
module ClientLibrary {
  import opened Bytes
  import opened Message
  import opened Pcsc
  import opened Client
  import opened Exchange
  import opened Connections
  import opened Handles
  import opened Proxy
  import opened DirectUse
  import opened Refinement
  import opened Runs

  datatype ContextData = ContextData(handle: int, session: Option<nat>)
  datatype CardData = CardData(handle: int, context: nat)

  class ClientProcess {
    const peers: Peers
    const contexts: Table<ContextData>
    const cards: Table<CardData>

    constructor (libs: Libraries, chunking: nat -> Chunking)
      ensures fresh(peers) && fresh(peers.Repr) && fresh(contexts) && fresh(cards)
      ensures peers.libs == libs && peers.chunking == chunking
      ensures Valid() && contexts.slots == null && cards.slots == null && peers.servers == []
    {
      peers := new Peers(libs, chunking);
      contexts := new Table<ContextData>(CONTEXT_MAGIC, ContextData(0, None), Slot(0, ContextData(0, None)));
      cards := new Table<CardData>(CARD_MAGIC, CardData(0, 0), Slot(0, CardData(0, 0)));
    }

    ghost predicate TablesValid()
      reads contexts, cards, contexts.slots, cards.slots
    {
      && contexts.magic == CONTEXT_MAGIC && cards.magic == CARD_MAGIC
      && contexts.blank == ContextData(0, None) && cards.blank == CardData(0, 0)
      && contexts.Valid() && cards.Valid()
      && forall j :: 0 <= j < SLOTS ==> cards.DataOf(j).context < SLOTS
    }

    /** The tables are no part of the connections. */
    ghost predicate Apart()
      reads contexts, cards, peers
    {
      contexts !in peers.Repr && cards !in peers.Repr && contexts.slots !in peers.Repr && cards.slots !in peers.Repr
    }

    ghost predicate Valid()
      reads contexts, cards, contexts.slots, cards.slots, peers, peers.Repr
    {
      TablesValid() && peers.Valid() && Apart()
    }

    /** A call can be made: lawful libraries, every connection in step. `stack` is the server's uninitialised buffer. */
    ghost predicate Ready(stack: array<byte>)
      reads contexts, cards, contexts.slots, cards.slots, peers, peers.Repr
    {
      && Valid() && AllLawful(peers.libs) && AllInStep(peers.libs, peers.servers)
      && stack.Length == MAX_LEN && stack !in peers.Repr
    }

    ghost function ContextsOf(): (xs: Contexts)
      reads contexts, contexts.slots
      ensures ContextIds(xs) == contexts.IdsOf()
    {
      var xs := seq(SLOTS, i requires 0 <= i < SLOTS reads contexts, contexts.slots =>
        Context(contexts.IdsOf()[i], contexts.DataOf(i).handle, contexts.DataOf(i).session));
      assert ContextIds(xs) == contexts.IdsOf();
      xs
    }

    ghost function CardsOf(): (cs: Cards)
      requires forall j :: 0 <= j < SLOTS ==> cards.DataOf(j).context < SLOTS
      reads cards, cards.slots
      ensures CardIds(cs) == cards.IdsOf()
    {
      var cs := seq(SLOTS, j requires 0 <= j < SLOTS reads cards, cards.slots =>
        Card(cards.IdsOf()[j], cards.DataOf(j).handle, cards.DataOf(j).context));
      assert CardIds(cs) == cards.IdsOf();
      cs
    }

    ghost function WorldOf(): (w: World)
      requires TablesValid()
      reads contexts, cards, contexts.slots, cards.slots, peers
      ensures w.servers == peers.servers
    {
      World(ContextsOf(), CardsOf(), peers.servers)
    }

    /** An exchange of a context with the given session. */
    method Forward(c: Call, session: Option<nat>, h: int, stack: array<byte>) returns (r: Option<Reply>)
      requires Ready(stack) && Sendable(c) && !c.SetTimeout?
      modifies peers.Repr, stack
      ensures Valid() && peers.Repr == old(peers.Repr)
      ensures (r, peers.servers) == Transact(peers.libs, old(peers.servers), session, c, h, old(stack[..]))
      ensures WorldOf() == old(WorldOf()).(servers := peers.servers)
    {
      hide Transact, Sendable, AllLawful, AllInStep, Peers.Valid;
      r := peers.Forward(c, session, h, stack);
    }

    /** Another server process. */
    method OpenConnection()
      requires Valid() && AllLawful(peers.libs)
      modifies peers.Repr
      ensures Valid() && fresh(peers.Repr - old(peers.Repr))
      ensures peers.servers == old(peers.servers) + [[]]
      ensures WorldOf() == old(WorldOf()).(servers := peers.servers)
    {
      assert peers in peers.Repr;
      hide AllLawful, Peers.Valid;
      peers.Connect();
    }

    /** A context's slot, as it is after memset when nothing was created yet. */
    method ContextAt(slot: nat) returns (x: ContextData)
      requires TablesValid() && slot < SLOTS
      ensures WorldOf().contexts[slot] == Context(WorldOf().contexts[slot].id, x.handle, x.session)
    {
      return if contexts.slots == null then contexts.blank else contexts.slots[slot].data;
    }

    /** A card call once pp_findCard has found its slot. */
    method CallOnCard(c: Call, slot: nat, stack: array<byte>) returns (r: Reply)
      requires Ready(stack) && Sendable(c) && !c.SetTimeout?
      requires slot < SLOTS && cards.slots != null
      modifies peers.Repr, stack
      ensures Valid() && peers.Repr == old(peers.Repr)
      ensures (WorldOf(), r) == CardCall(peers.libs, old(WorldOf()), c, slot, Chance(true, old(stack[..])))
    {
      hide Transact, Sendable, AllLawful, AllInStep, Peers.Valid;
      var card := cards.slots[slot].data;
      assert card == cards.DataOf(slot);
      var x := ContextAt(card.context);
      var o := Forward(c, x.session, card.handle, stack);
      return if o.Some? then o.value else Code(INTERNAL_ERROR);
    }

    method FindCard(id: int) returns (slot: int)
      requires TablesValid() && Wrap32(id - CARD_MAGIC) != SLOTS
      ensures var f := Find(CardIds(WorldOf().cards), CARD_MAGIC, id); slot == if f.At? then f.slot else -1
      ensures slot >= 0 ==> slot < SLOTS && cards.slots != null
    {
      slot := cards.FindSlot(id, true);
      FindExact(cards.IdsOf(), CARD_MAGIC, id);
    }

    method FindContext(id: int) returns (slot: int)
      requires TablesValid() && Wrap32(id - CONTEXT_MAGIC) != SLOTS
      ensures var f := Find(ContextIds(WorldOf().contexts), CONTEXT_MAGIC, id); slot == if f.At? then f.slot else -1
      ensures slot >= 0 ==>
                slot < SLOTS && contexts.slots != null && WorldOf().contexts[slot].id == CONTEXT_MAGIC + slot
    {
      slot := contexts.FindSlot(id, true);
      FindExact(contexts.IdsOf(), CONTEXT_MAGIC, id);
    }

    /** The card calls. */
    method CallCard(c: Call, stack: array<byte>) returns (r: Reply)
      requires Ready(stack) && Forwardable(c) && OnCard(c)
      requires Wrap32(c.handle - CARD_MAGIC) != SLOTS
      modifies peers.Repr, stack
      ensures Valid() && peers.Repr == old(peers.Repr)
      ensures (WorldOf(), r) == Invoke(peers.libs, old(WorldOf()), c, Chance(true, old(stack[..])))
    {
      hide CardCall, Sendable, AllLawful, AllInStep, Wrap32, ArgumentError, Find, WorldOf, TablesValid, Peers.Valid;
      var slot := FindCard(c.handle);
      if slot < 0 {
        return Code(INVALID_VALUE);
      }
      if ArgumentError(c) != SUCCESS {
        return Code(ArgumentError(c));
      }
      Allowed(c);
      r := CallOnCard(c, slot, stack);
    }

    // ---- the tables, as the world sees them

    /** pp_createCard, with memory and the lock given. */
    method TakeCard(slot: nat) returns (card: int)
      requires TablesValid() && slot < SLOTS
      modifies cards, cards.slots
      ensures TablesValid() && (cards.slots == old(cards.slots) || fresh(cards.slots))
      ensures var j := LowestFree(CardIds(old(WorldOf()).cards)); card == if j == SLOTS then -1 else j
      ensures card < 0 ==> WorldOf() == old(WorldOf())
      ensures card >= 0 ==>
                && card < SLOTS && cards.slots != null
                && var w := old(WorldOf());
                   WorldOf() == w.(cards := w.cards[card := Card(CARD_MAGIC + card, w.cards[card].handle, slot)])
    {
      card := cards.Create((d: CardData) => d.(context := slot), true, true);
    }

    method KeepCard(card: nat, data: CardData)
      requires TablesValid() && card < SLOTS && cards.slots != null && data.context < SLOTS
      modifies cards.slots
      ensures TablesValid()
      ensures var w := old(WorldOf());
              WorldOf() == w.(cards := w.cards[card := Card(w.cards[card].id, data.handle, data.context)])
    {
      cards.Store(card, data);
    }

    /** pp_releaseCard. */
    method GiveBackCard(card: nat)
      requires TablesValid() && card < SLOTS && cards.slots != null && WorldOf().cards[card].id == CARD_MAGIC + card
      modifies cards.slots
      ensures TablesValid()
      ensures var w := old(WorldOf()); WorldOf() == w.(cards := w.cards[card := w.cards[card].(id := 0)])
    {
      cards.ReleaseSlot(CARD_MAGIC + card, true);
    }

    /** pp_createContext, likewise. */
    method TakeContext() returns (slot: int)
      requires TablesValid()
      modifies contexts, contexts.slots
      ensures TablesValid() && (contexts.slots == old(contexts.slots) || fresh(contexts.slots))
      ensures var i := LowestFree(ContextIds(old(WorldOf()).contexts)); slot == if i == SLOTS then -1 else i
      ensures slot < 0 ==> WorldOf() == old(WorldOf())
      ensures slot >= 0 ==>
                && slot < SLOTS && contexts.slots != null
                && var w := old(WorldOf());
                   WorldOf() == w.(contexts := w.contexts[slot := w.contexts[slot].(id := CONTEXT_MAGIC + slot)])
    {
      slot := contexts.Create((d: ContextData) => d, true, true);
    }

    method KeepContext(slot: nat, data: ContextData)
      requires TablesValid() && slot < SLOTS && contexts.slots != null
      modifies contexts.slots
      ensures TablesValid()
      ensures var w := old(WorldOf());
              WorldOf() == w.(contexts := w.contexts[slot := Context(w.contexts[slot].id, data.handle, data.session)])
    {
      contexts.Store(slot, data);
    }

    /** pp_releaseContext. */
    method GiveBackContext(slot: nat)
      requires TablesValid() && slot < SLOTS && contexts.slots != null
               && WorldOf().contexts[slot].id == CONTEXT_MAGIC + slot
      modifies contexts.slots
      ensures TablesValid()
      ensures var w := old(WorldOf()); WorldOf() == w.(contexts := w.contexts[slot := w.contexts[slot].(id := 0)])
    {
      contexts.ReleaseSlot(CONTEXT_MAGIC + slot, true);
    }

    // ---- the entry points

    /** A context call once pp_findContext has found its slot; a release closes the connection and frees it. */
    method CallOnContext(c: Call, slot: nat, stack: array<byte>) returns (r: Reply)
      requires Ready(stack) && Sendable(c) && !c.SetTimeout?
      requires slot < SLOTS && contexts.slots != null && WorldOf().contexts[slot].id == CONTEXT_MAGIC + slot
      modifies peers.Repr, contexts.slots, stack
      ensures Valid() && peers.Repr == old(peers.Repr)
      ensures (WorldOf(), r) == ContextCall(peers.libs, old(WorldOf()), c, slot, Chance(true, old(stack[..])))
    {
      hide Transact, Sendable, AllLawful, AllInStep, WorldOf, TablesValid, Peers.Valid;
      var x := ContextAt(slot);
      var o := Forward(c, x.session, x.handle, stack);
      if c.ReleaseContext? {
        KeepContext(slot, x.(session := None));
        GiveBackContext(slot);
        assert WorldOf().contexts == old(WorldOf()).contexts[slot := Context(0, x.handle, None)];
      }
      return if o.Some? then o.value else Code(INTERNAL_ERROR);
    }

    /** The exchange of SCardConnect, and what becomes of the card slot. */
    method ConnectVia(c: Call, slot: nat, card: nat, x: ContextData, stack: array<byte>) returns (r: Reply)
      requires Ready(stack) && Sendable(c) && !c.SetTimeout?
      requires slot < SLOTS && card < SLOTS && cards.slots != null
      requires WorldOf().cards[card].id == CARD_MAGIC + card && WorldOf().cards[card].context == slot
      modifies peers.Repr, cards.slots, stack
      ensures Valid() && peers.Repr == old(peers.Repr)
      ensures var w := old(WorldOf());
              var (o, after) := Transact(peers.libs, w.servers, x.session, c, x.handle, old(stack[..]));
              (WorldOf(), r) == CardOpened(w, card, slot, o, after)
    {
      hide Transact, Sendable, AllLawful, AllInStep, Wrap32, WorldOf, TablesValid, Peers.Valid;
      var o := Forward(c, x.session, x.handle, stack);
      if o.Some? && o.value.Connected? && o.value.rv == SUCCESS {
        KeepCard(card, CardData(Wrap32(o.value.handle), slot));
        return Connected(SUCCESS, CARD_MAGIC + card, o.value.protocol);
      }
      GiveBackCard(card);
      return Code(if o.Some? then o.value.rv else INTERNAL_ERROR);
    }

    /** SCardConnect once its context is found: a card slot is taken, and given back unless the connect succeeds. */
    method ConnectOn(c: Call, slot: nat, stack: array<byte>) returns (r: Reply)
      requires Ready(stack) && Sendable(c) && c.Connect?
      requires slot < SLOTS && contexts.slots != null
      modifies peers.Repr, cards, cards.slots, stack
      ensures Valid() && peers.Repr == old(peers.Repr) && (cards.slots == old(cards.slots) || fresh(cards.slots))
      ensures (WorldOf(), r) == ConnectCard(peers.libs, old(WorldOf()), c, slot, Chance(true, old(stack[..])))
    {
      hide Transact, Sendable, AllLawful, AllInStep, Wrap32, WorldOf, LowestFree, CardOpened, TablesValid, Peers.Valid;
      var x := ContextAt(slot);
      ghost var w := WorldOf();
      var card := TakeCard(slot);
      if card < 0 {
        return Code(INTERNAL_ERROR);
      }
      SameConnected(w, WorldOf(), card, slot);
      r := ConnectVia(c, slot, card, x, stack);
    }

    /** The context calls. */
    method CallContext(c: Call, stack: array<byte>) returns (r: Reply)
      requires Ready(stack) && Forwardable(c) && OnContext(c)
      requires Wrap32(c.handle - CONTEXT_MAGIC) != SLOTS
      modifies peers.Repr, contexts.slots, cards, cards.slots, stack
      ensures Valid() && peers.Repr == old(peers.Repr) && (cards.slots == old(cards.slots) || fresh(cards.slots))
      ensures (WorldOf(), r) == Invoke(peers.libs, old(WorldOf()), c, Chance(true, old(stack[..])))
    {
      hide ContextCall, ConnectCard, Sendable, AllLawful, AllInStep, Wrap32, ArgumentError, Find, WorldOf,
        TablesValid, Peers.Valid;
      if c.Connect? && ArgumentError(c) != SUCCESS {
        return Code(ArgumentError(c));
      }
      var slot := FindContext(c.handle);
      if slot < 0 {
        return Code(INTERNAL_ERROR);
      }
      if ArgumentError(c) != SUCCESS {
        return Code(ArgumentError(c));
      }
      Allowed(c);
      if c.Connect? {
        r := ConnectOn(c, slot, stack);
      } else {
        r := CallOnContext(c, slot, stack);
      }
    }

    /** The exchange of SCardEstablishContext on the connection of slot `slot`, and what becomes of the slot. */
    method EstablishOn(c: Call, slot: nat, k: nat, stack: array<byte>) returns (r: Reply)
      requires Ready(stack) && c.EstablishContext? && Sendable(c)
      requires slot < SLOTS && contexts.slots != null
      requires WorldOf().contexts[slot].id == CONTEXT_MAGIC + slot && WorldOf().contexts[slot].session == Some(k)
      modifies peers.Repr, contexts.slots, stack
      ensures Valid() && peers.Repr == old(peers.Repr)
      ensures var w := old(WorldOf());
              var (o, after) := Transact(peers.libs, w.servers, Some(k), c, 0, old(stack[..]));
              (WorldOf(), r) == ContextOpened(w, slot, k, o, after)
    {
      hide Transact, Sendable, AllLawful, AllInStep, WorldOf, TablesValid, Peers.Valid;
      var o := Forward(c, Some(k), 0, stack);
      if o.Some? && o.value.Opened? && o.value.rv == SUCCESS {
        KeepContext(slot, ContextData(o.value.handle, Some(k)));
        return Opened(SUCCESS, CONTEXT_MAGIC + slot);
      }
      GiveBackContext(slot);
      return Code(if o.Some? then o.value.rv else INTERNAL_ERROR);
    }

    /** The connection of slot `slot`: what is left there, or a new one. */
    method OpenSession(slot: nat, reachable: bool) returns (k: Option<nat>)
      requires Valid() && AllLawful(peers.libs) && slot < SLOTS && contexts.slots != null
      modifies peers.Repr, contexts.slots
      ensures Valid() && fresh(peers.Repr - old(peers.Repr))
      ensures var w := old(WorldOf());
              var session := w.contexts[slot].session;
              && (k.None? <==> session.None? && !reachable)
              && (k.None? ==> WorldOf() == w)
              && (k.Some? ==>
                    && k.value == (if session.Some? then session.value else |w.servers|)
                    && WorldOf().cards == w.cards
                    && WorldOf().servers == (if session.Some? then w.servers else w.servers + [[]])
                    && WorldOf().contexts == w.contexts[slot := w.contexts[slot].(session := k)])
    {
      hide WorldOf;
      var x := ContextAt(slot);
      k := x.session;
      if k.None? {
        if !reachable {
          return;
        }
        k := Some(|peers.sessions|);
        OpenConnection();
        KeepContext(slot, x.(session := k));
      }
    }

    /** SCardEstablishContext; `reachable` says whether connecting to the server succeeds, if it is tried. */
    method EstablishContext(c: Call, reachable: bool, stack: array<byte>) returns (r: Reply)
      requires Ready(stack) && c.EstablishContext?
      modifies peers.Repr, contexts, contexts.slots, stack
      ensures Valid() && fresh(peers.Repr - old(peers.Repr))
              && (contexts.slots == old(contexts.slots) || fresh(contexts.slots))
      ensures (WorldOf(), r) == Invoke(peers.libs, old(WorldOf()), c, Chance(reachable, old(stack[..])))
    {
      hide Transact, Sendable, AllLawful, WorldOf, LowestFree, ContextOpened, Invoke, ContextIds, TablesValid,
        Peers.Valid;
      AnyEstablish(c);
      ghost var w := WorldOf();
      EstablishSteps(peers.libs, w, c, Chance(reachable, stack[..]));
      var slot := TakeContext();
      if slot < 0 {
        return Code(INTERNAL_ERROR);
      }
      var k := OpenSession(slot, reachable);
      if k.None? {
        GiveBackContext(slot);
        assert WorldOf().contexts == w.contexts;
        return Code(INTERNAL_ERROR);
      }
      SameOpened(w, WorldOf(), slot, k.value);
      r := EstablishOn(c, slot, k.value, stack);
    }
  }

  /** The id leads to no slot one past the end of its table. */
  predicate InTables(c: Call)
  {
    && (OnContext(c) ==> Wrap32(c.handle - CONTEXT_MAGIC) != SLOTS)
    && (OnCard(c) ==> Wrap32(c.handle - CARD_MAGIC) != SLOTS)
  }

  /** The first k calls of a run have been made. */
  ghost predicate Made(client: ClientProcess, run: seq<Event>, k: nat, replies: seq<Reply>)
    reads client.contexts, client.cards, client.contexts.slots, client.cards.slots, client.peers, client.peers.Repr
  {
    var libs := client.peers.libs;
    && client.Valid() && AllLawful(libs) && k <= |run| && AllForwardable(run[..k])
    && (client.WorldOf(), replies) == Proxied(libs, run[..k])
  }

  /**
   * A whole run of a client process, call by call over the entry points, on connections that last: the
   * states and replies are those of Runs.Proxied, every call gives the result of the direct call, and
   * nothing is left on any connection. The server's buffer holds anything at each call.
   */
  method RunCalls(client: ClientProcess, run: seq<Event>) returns (replies: seq<Reply>)
    requires client.Valid() && AllLawful(client.peers.libs) && NarrowHandles(client.peers.libs)
    requires AllForwardable(run) && Orderly(client.peers.libs, run)
    requires client.WorldOf() == Fresh()
    modifies client.peers.Repr, client.contexts, client.contexts.slots, client.cards, client.cards.slots
    ensures client.Valid() && (client.WorldOf(), replies) == Proxied(client.peers.libs, run)
    ensures client.peers.servers == Directly(client.peers.libs, run).0.servers
    ensures |replies| == |run|
    ensures forall k :: 0 <= k < |run| ==> SameResult(run[k].call, Directly(client.peers.libs, run).1[k], replies[k])
    ensures client.peers.AllIdle()
  {
    hide *;
    ghost var libs := client.peers.libs;
    Unmade(client, run);
    replies := [];
    for k := 0 to |run|
      invariant Made(client, run, k, replies)
      invariant fresh(client.peers.Repr - old(client.peers.Repr))
      invariant client.contexts.slots == old(client.contexts.slots) || fresh(client.contexts.slots)
      invariant client.cards.slots == old(client.cards.slots) || fresh(client.cards.slots)
    {
      var stack := ServerBuffer(run[k].chance.stale);
      CanCall(client, run, k, replies, stack);
      ghost var w := client.WorldOf();
      var r := OneCall(client, run[k].call, run[k].chance.reachable, stack);
      MadeOne(client, run, k, replies, w, r);
      replies := replies + [r];
    }
    AllMade(client, run, replies);
    RunRefines(libs, run);
    RunInStep(libs, run);
    InStepIdle(client.peers);
  }

  lemma {:induction false} Unmade(client: ClientProcess, run: seq<Event>)
    requires client.Valid() && AllLawful(client.peers.libs) && client.WorldOf() == Fresh()
    ensures Made(client, run, 0, [])
  {
    hide AllLawful, ClientProcess.Valid;
  }

  /** No connection is out of step, and the next id leads into its table. */
  lemma {:induction false} CanCall(client: ClientProcess, run: seq<Event>, k: nat, replies: seq<Reply>,
      stack: array<byte>)
    requires AllLawful(client.peers.libs) && NarrowHandles(client.peers.libs) && AllForwardable(run)
    requires Orderly(client.peers.libs, run) && k < |run| && Made(client, run, k, replies)
    requires stack.Length == MAX_LEN && stack !in client.peers.Repr
    ensures client.Ready(stack) && client.TablesValid() && Forwardable(run[k].call) && InTables(run[k].call)
    ensures AllForwardable(run[..k]) && (client.WorldOf(), replies) == Proxied(client.peers.libs, run[..k])
  {
    hide AllLawful, NarrowHandles, Orderly, Related, SameResult, Forwardable, ClientProcess.TablesValid, Peers.Valid,
      AllInStep;
    var libs := client.peers.libs;
    OrderlyBefore(libs, run, k);
    RunRefines(libs, run[..k]);
    RunInStep(libs, run[..k]);
    PermittedInTables(Directly(libs, run[..k]).0, run[k].call);
  }

  lemma PermittedInTables(d: Direct, c: Call)
    requires Permitted(d, c)
    ensures InTables(c)
  {
    WrapDifference(if OnContext(c) || OnCard(c) then c.handle else 0);
  }

  lemma MadeOne(client: ClientProcess, run: seq<Event>, k: nat, replies: seq<Reply>, w: World, r: Reply)
    requires client.Valid() && AllLawful(client.peers.libs) && AllForwardable(run) && k < |run|
    requires (w, replies) == Proxied(client.peers.libs, run[..k])
    requires (client.WorldOf(), r) == Invoke(client.peers.libs, w, run[k].call, run[k].chance)
    ensures Made(client, run, k + 1, replies + [r])
  {
    hide AllLawful, Forwardable, Invoke, ClientProcess.Valid;
    assert run[..k + 1][..k] == run[..k];
  }

  lemma {:induction false} AllMade(client: ClientProcess, run: seq<Event>, replies: seq<Reply>)
    requires Made(client, run, |run|, replies)
    ensures client.Valid() && client.peers.Valid() && AllLawful(client.peers.libs) && AllForwardable(run)
    ensures (client.WorldOf(), replies) == Proxied(client.peers.libs, run)
    ensures client.peers.servers == Proxied(client.peers.libs, run).0.servers
  {
    hide AllLawful, Forwardable, ClientProcess.TablesValid, ClientProcess.Apart, Peers.Valid;
    assert run[..|run|] == run;
  }

  /** The server's uninitialised message buffer. */
  method ServerBuffer(stale: Image) returns (stack: array<byte>)
    ensures fresh(stack) && stack.Length == MAX_LEN && stack[..] == stale
  {
    stack := new byte[MAX_LEN](i requires 0 <= i < MAX_LEN => stale[i]);
  }

  lemma WrapDifference(id: int)
    ensures Wrap32(id - CONTEXT_MAGIC) == SLOTS <==> Wrap32(id) == CONTEXT_MAGIC + SLOTS
    ensures Wrap32(id - CARD_MAGIC) == SLOTS <==> Wrap32(id) == CARD_MAGIC + SLOTS
  {
    FindInBounds(seq(SLOTS, _ => 0), CONTEXT_MAGIC, id);
    FindExact(seq(SLOTS, _ => 0), CONTEXT_MAGIC, id);
    FindInBounds(seq(SLOTS, _ => 0), CARD_MAGIC, id);
    FindExact(seq(SLOTS, _ => 0), CARD_MAGIC, id);
  }

  method OneCall(client: ClientProcess, c: Call, reachable: bool, stack: array<byte>) returns (r: Reply)
    requires client.Ready(stack) && client.TablesValid() && Forwardable(c) && InTables(c)
    modifies client.peers.Repr, client.contexts, client.contexts.slots, client.cards, client.cards.slots, stack
    ensures client.Valid() && fresh(client.peers.Repr - old(client.peers.Repr))
    ensures client.contexts.slots == old(client.contexts.slots) || fresh(client.contexts.slots)
    ensures client.cards.slots == old(client.cards.slots) || fresh(client.cards.slots)
    ensures (client.WorldOf(), r)
            == Invoke(client.peers.libs, old(client.WorldOf()), c, Chance(reachable, old(stack[..])))
  {
    hide Invoke, AllLawful, ClientProcess.TablesValid, Peers.Valid, AllInStep, Wrap32;
    if c.EstablishContext? {
      r := client.EstablishContext(c, reachable, stack);
    } else {
      OnlyEstablishConnects(client.peers.libs, client.WorldOf(), c, reachable, stack[..]);
      if OnContext(c) {
        r := client.CallContext(c, stack);
      } else {
        r := client.CallCard(c, stack);
      }
    }
  }

  lemma OnlyEstablishConnects(libs: Libraries, w: World, c: Call, reachable: bool, stale: Image)
    requires AllLawful(libs) && Forwardable(c) && !c.EstablishContext?
    ensures Invoke(libs, w, c, Chance(true, stale)) == Invoke(libs, w, c, Chance(reachable, stale))
  {
    hide AllLawful, Transact, Find, ArgumentError;
  }

  /** The steps of an establish, as the entry point takes them. */
  lemma EstablishSteps(libs: Libraries, w: World, c: Call, e: Chance)
    requires AllLawful(libs) && c.EstablishContext? && Sendable(c)
    ensures var i := LowestFree(ContextIds(w.contexts));
            if i == SLOTS || (w.contexts[i].session.None? && !e.reachable) then
                Invoke(libs, w, c, e) == (w, Code(INTERNAL_ERROR))
            else
              && w.contexts[i].id == 0
              && var session := w.contexts[i].session;
                 var k := if session.None? then |w.servers| else session.value;
                 var before := if session.None? then w.servers + [[]] else w.servers;
                 var (r, after) := Transact(libs, before, Some(k), c, 0, e.stale);
                 Invoke(libs, w, c, e) == ContextOpened(w, i, k, r, after)
  {
    hide Transact, Sendable, AllLawful, ContextOpened;
  }

  /** What is in the slot, but for its handle, does not matter to the end of an establish. */
  lemma SameOpened(w: World, w1: World, i: nat, k: nat)
    requires i < SLOTS && w1.cards == w.cards
    requires w1.contexts == w.contexts[i := Context(CONTEXT_MAGIC + i, w.contexts[i].handle, Some(k))]
    ensures forall o: Option<Reply>, servers: seq<seq<Call>> ::
              ContextOpened(w1, i, k, o, servers) == ContextOpened(w, i, k, o, servers)
  {
    forall o: Option<Reply>, servers: seq<seq<Call>>
      ensures ContextOpened(w1, i, k, o, servers) == ContextOpened(w, i, k, o, servers)
    {
      assert ContextOpened(w1, i, k, o, servers).0.contexts == ContextOpened(w, i, k, o, servers).0.contexts;
    }
  }

  lemma SameConnected(w: World, w1: World, j: nat, i: nat)
    requires i < SLOTS && j < SLOTS && w1 == w.(cards := w.cards[j := Card(CARD_MAGIC + j, w.cards[j].handle, i)])
    ensures forall o: Option<Reply>, servers: seq<seq<Call>> ::
              CardOpened(w1, j, i, o, servers) == CardOpened(w, j, i, o, servers)
  {
    forall o: Option<Reply>, servers: seq<seq<Call>>
      ensures CardOpened(w1, j, i, o, servers) == CardOpened(w, j, i, o, servers)
    {
      assert CardOpened(w1, j, i, o, servers).0.cards == CardOpened(w, j, i, o, servers).0.cards;
    }
  }
}
