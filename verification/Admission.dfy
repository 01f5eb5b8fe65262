/** Which calls the client refuses by itself, and which a library is asked to perform. */
module Admission {
  import opened Pcsc
  import opened Client
  import opened RequestDelivery
  import opened Handles
  import opened Proxy
  import opened DirectUse
  import opened Refinement
  import opened Runs
  import opened Transparency

  /** The buffer is to be allocated for the caller, which the client does not support. */
  predicate Allocates(c: Call)
  {
    match c
    case Status(_, nameRoom, atrRoom) => nameRoom == 0xFFFF_FFFF_FFFF_FFFF || atrRoom == 0xFFFF_FFFF_FFFF_FFFF
    case GetAttrib(_, _, room) => room == 0xFFFF_FFFF_FFFF_FFFF
    case ListReaders(_, _, room) => room == 0xFFFF_FFFF_FFFF_FFFF
    case ListReaderGroups(_, _, room) => room == 0xFFFF_FFFF_FFFF_FFFF
    case _ => false
  }

  /** What is to be sent does not fit its field, or is no command. */
  predicate Misfits(c: Call)
  {
    match c
    case Connect(_, reader, _, _) => |reader| > 127
    case Control(_, _, send, _) => |send| > 4096
    case Transmit(_, _, send, _, _) => |send| < 4 || |send| > 66523
    case SetAttrib(_, _, value) => |value| > 4096
    case _ => false
  }

  /** Only server k is asked, for f, and the outcome is its library's answer. */
  ghost predicate PerformedIn(libs: Libraries, d: Direct, d': Direct, o: Outcome, k: nat, f: Call)
  {
    && k < |d.servers| && d'.servers == d.servers[k := d.servers[k] + [f]]
    && o.Performed? && o.call == f && o.answer == libs(k)(d.servers[k] + [f])
  }

  /** A call on a context, by its kind. */
  predicate ContextKind(c: Call)
  {
    match c
    case ReleaseContext(_) => true
    case IsValidContext(_) => true
    case GetStatusChange(_, _, readers) => |readers| <= 384
    case ListReaders(_, _, _) => true
    case ListReaderGroups(_, _, _) => true
    case _ => false
  }

  /** On an open context every such call is performed, but one that wants its buffer allocated. */
  lemma ContextCalls(libs: Libraries, d: Direct, c: Call, reachable: bool)
    requires AllLawful(libs) && Rooted(d) && ContextKind(c)
    ensures Forwardable(c)
    ensures var (d', o) := DirectStep(libs, d, c, reachable);
            var id := c.handle % 0x1_0000_0000;
            if id !in d.contexts || Allocates(c) then d' == d && o == Refused(INTERNAL_ERROR)
            else
              var held := d.contexts[id];
              Admitted(c) && PerformedIn(libs, d, d', o, held.server, Narrowed(c, held.handle))
  {
    hide AllLawful, Narrowed;
  }

  predicate CardKind(c: Call)
  {
    match c
    case Reconnect(_, _, _, _) => true
    case Disconnect(_, _) => true
    case BeginTransaction(_) => true
    case EndTransaction(_, _) => true
    case CancelTransaction(_) => true
    case Cancel(_) => true
    case Status(_, _, _) => true
    case Control(_, _, _, _) => true
    case Transmit(_, _, send, _, _) => |send| != 66523
    case GetAttrib(_, _, _) => true
    case SetAttrib(_, _, _) => true
    case _ => false
  }

  /** On an open card a call is performed unless it does not fit or wants its buffer allocated. */
  lemma CardCalls(libs: Libraries, d: Direct, c: Call, reachable: bool)
    requires AllLawful(libs) && Rooted(d) && CardKind(c)
    ensures Forwardable(c)
    ensures var (d', o) := DirectStep(libs, d, c, reachable);
            var id := c.handle % 0x1_0000_0000;
            if id !in d.cards || Misfits(c) then d' == d && o == Refused(INVALID_VALUE)
            else if Allocates(c) then d' == d && o == Refused(INTERNAL_ERROR)
            else
              var held := d.cards[id];
              Admitted(c) && PerformedIn(libs, d, d', o, held.server, Narrowed(c, held.handle))
  {
    hide AllLawful, Narrowed;
  }

  ghost predicate AllTaken(keys: set<int>, magic: int)
  {
    forall id :: magic <= id < magic + 64 ==> id in keys
  }

  lemma TakenIsFull(keys: set<int>, magic: int)
    requires magic > 0
    ensures LowestFree(NamesIn(keys, magic)) == SLOTS <==> AllTaken(keys, magic)
  {
    var ids := NamesIn(keys, magic);
    var free := LowestFree(ids);
    if free < SLOTS {
      assert ids[free] == 0 && magic + free !in keys;
    } else {
      forall id | magic <= id < magic + 64
        ensures id in keys
      {
        assert ids[id - magic] != 0;
      }
    }
  }

  /** A connect is performed when the name fits, the context is open and there is an id for the card. */
  lemma Connects(libs: Libraries, d: Direct, c: Call, reachable: bool)
    requires AllLawful(libs) && Rooted(d) && c.Connect?
    ensures Forwardable(c)
    ensures var (d', o) := DirectStep(libs, d, c, reachable);
            var id := c.handle % 0x1_0000_0000;
            if Misfits(c) then d' == d && o == Refused(INVALID_VALUE)
            else if id !in d.contexts || AllTaken(d.cards.Keys, CARD_MAGIC) then d' == d && o == Refused(INTERNAL_ERROR)
            else
              var held := d.contexts[id];
              Admitted(c) && PerformedIn(libs, d, d', o, held.server, Narrowed(c, held.handle))
  {
    TakenIsFull(d.cards.Keys, CARD_MAGIC);
    hide AllLawful, Narrowed, NamesIn, LowestFree, AllTaken;
  }

  /** An establish is performed when there is an id for the context and a connection for that id. */
  lemma Establishes(libs: Libraries, d: Direct, c: Call, reachable: bool)
    requires AllLawful(libs) && Rooted(d) && c.EstablishContext?
    ensures Forwardable(c)
    ensures var o := DirectStep(libs, d, c, reachable).1;
            if AllTaken(d.contexts.Keys, CONTEXT_MAGIC) then o == Refused(INTERNAL_ERROR)
            else
              var id := CONTEXT_MAGIC + LowestFree(NamesIn(d.contexts.Keys, CONTEXT_MAGIC));
              id !in d.contexts && (o.Performed? <==> id in d.spare || reachable)
  {
    TakenIsFull(d.contexts.Keys, CONTEXT_MAGIC);
    var free := LowestFree(NamesIn(d.contexts.Keys, CONTEXT_MAGIC));
    assert free < SLOTS ==> NamesIn(d.contexts.Keys, CONTEXT_MAGIC)[free] == 0;
    hide AllLawful, NamesIn, LowestFree, AllTaken;
  }

  /** In an orderly run, what the caller of the proxy gets for a call on an open card, and whether it is sent. */
  lemma {:induction false} RunChecks(libs: Libraries, run: seq<Event>, k: nat)
    requires AllLawful(libs) && NarrowHandles(libs) && AllForwardable(run) && Orderly(libs, run)
    requires k < |run| && CardKind(run[k].call)
    requires run[k].call.handle % 0x1_0000_0000 in Directly(libs, run[..k]).0.cards
    ensures var c := run[k].call;
            if Misfits(c) then Proxied(libs, run).1[k] == Code(INVALID_VALUE)
            else if Allocates(c) then Proxied(libs, run).1[k] == Code(INTERNAL_ERROR)
            else Directly(libs, run).1[k].Performed?
  {
    OutcomeAt(libs, run, k);
    CardCalls(libs, Directly(libs, run[..k]).0, run[k].call, run[k].chance.reachable);
    hide AllLawful, NarrowHandles, Orderly, Proxied, Directly, Related, DirectStep, Misfits, Allocates, CardKind;
    RunRefines(libs, run);
  }
}
