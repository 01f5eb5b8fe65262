/** Whole runs of a client process, and where its card calls go. */
module Runs {
  import opened Message
  import opened Pcsc
  import opened Client
  import opened RequestDelivery
  import opened AnswerDelivery
  import opened Exchange
  import opened Handles
  import opened Proxy
  import opened DirectUse
  import opened Refinement

  datatype Event = Event(call: Call, chance: Chance)

  ghost predicate AllForwardable(run: seq<Event>)
  {
    forall k :: 0 <= k < |run| ==> Forwardable(run[k].call)
  }

  function Fresh(): (w: World)
  {
    World(seq(SLOTS, _ => Context(0, 0, None)), seq(SLOTS, _ => Card(0, 0, 0)), [])
  }

  ghost function Nothing(): (d: Direct)
  {
    Direct(map[], map[], map[], [])
  }

  ghost function Proxied(libs: Libraries, run: seq<Event>): (r: (World, seq<Reply>))
    requires AllLawful(libs) && AllForwardable(run)
    ensures |r.1| == |run|
  {
    if run == [] then (Fresh(), [])
    else
      var n := |run| - 1;
      var (w, replies) := Proxied(libs, run[..n]);
      var (w', r) := Invoke(libs, w, run[n].call, run[n].chance);
      (w', replies + [r])
  }

  ghost function Directly(libs: Libraries, run: seq<Event>): (r: (Direct, seq<Outcome>))
    requires AllLawful(libs) && AllForwardable(run)
    ensures |r.1| == |run| && Rooted(r.0)
  {
    if run == [] then (Nothing(), [])
    else
      var n := |run| - 1;
      var (d, outcomes) := Directly(libs, run[..n]);
      var (d', o) := DirectStep(libs, d, run[n].call, run[n].chance.reachable);
      (d', outcomes + [o])
  }

  /** Every call is permitted when its turn comes, and no answer takes up the whole message buffer. */
  ghost predicate Orderly(libs: Libraries, run: seq<Event>)
    requires AllLawful(libs) && AllForwardable(run)
  {
    run == [] ||
    var n := |run| - 1;
    var (d, _) := Directly(libs, run[..n]);
    && Orderly(libs, run[..n])
    && Permitted(d, run[n].call)
    && ShortOutcome(run[n].call, DirectStep(libs, d, run[n].call, run[n].chance.reachable).1)
  }

  lemma StartRelated()
    ensures Related(Fresh(), Nothing())
  {
    forall i | 0 <= i < SLOTS
      ensures ContextAgrees(Fresh().contexts[i], Nothing(), CONTEXT_MAGIC + i)
      ensures CardAgrees(Fresh().cards[i], Nothing(), CARD_MAGIC + i)
    {
    }
  }

  /**
   * Session refinement. Whatever is called in whatever order on any number of contexts, every server's
   * library is asked exactly what direct use would ask it, and every call gives its caller the same result.
   */
  lemma {:induction false} RunRefines(libs: Libraries, run: seq<Event>)
    requires AllLawful(libs) && NarrowHandles(libs) && AllForwardable(run) && Orderly(libs, run)
    ensures Related(Proxied(libs, run).0, Directly(libs, run).0)
    ensures Proxied(libs, run).0.servers == Directly(libs, run).0.servers
    ensures forall k :: 0 <= k < |run| ==> SameResult(run[k].call, Directly(libs, run).1[k], Proxied(libs, run).1[k])
  {
    hide NarrowHandles, Permitted, ShortOutcome, SameResult, Invoke, DirectStep, AllLawful, Related,
      Forwardable, Rooted;
    if run == [] {
      StartRelated();
    } else {
      var n := |run| - 1;
      RunRefines(libs, run[..n]);
      StepRefines(libs, Proxied(libs, run[..n]).0, Directly(libs, run[..n]).0, run[n].call, run[n].chance);
    }
    SameServers(Proxied(libs, run).0, Directly(libs, run).0);
  }

  // ---- no answer of an orderly run takes up the whole buffer

  /** The server may judge an answer's length by the call it was asked. */
  lemma ShortFits(c: Call, k: int, a: Reply)
    requires Admitted(c) && Short(c, a)
    ensures AnswerFits(Narrowed(c, k), a)
  {
  }

  lemma CallInStep(libs: Libraries, servers: seq<seq<Call>>, k: nat, f: Call)
    requires AllInStep(libs, servers) && k < |servers| && AnswerFits(f, CallIn(libs, servers, k, f).0)
    ensures AllInStep(libs, CallIn(libs, servers, k, f).1)
  {
    hide AnswerFits, InStep;
    InStepMore(libs(k), servers[k], f);
  }

  lemma NewInStep(libs: Libraries, servers: seq<seq<Call>>)
    requires AllInStep(libs, servers)
    ensures AllInStep(libs, servers + [[]])
  {
    assert InStep(libs(|servers|), []);
    hide InStep;
  }

  lemma StepInStep(libs: Libraries, d: Direct, c: Call, reachable: bool)
    requires AllLawful(libs) && Rooted(d) && Forwardable(c) && AllInStep(libs, d.servers)
    requires ShortOutcome(c, DirectStep(libs, d, c, reachable).1)
    ensures AllInStep(libs, DirectStep(libs, d, c, reachable).0.servers)
  {
    hide AllLawful, AllInStep, Short, AnswerFits, Narrowed, ArgumentError, NamesIn, LowestFree;
    var o := DirectStep(libs, d, c, reachable).1;
    NewInStep(libs, d.servers);
    if o.Performed? {
      hide Admitted;
      forall k: int, a: Reply | Short(c, a)
        ensures AnswerFits(Narrowed(c, k), a)
      {
        ShortFits(c, k, a);
      }
      forall servers: seq<seq<Call>>, k: nat | AllInStep(libs, servers) && k < |servers|
        ensures AnswerFits(o.call, CallIn(libs, servers, k, o.call).0) ==>
                AllInStep(libs, CallIn(libs, servers, k, o.call).1)
      {
        if AnswerFits(o.call, CallIn(libs, servers, k, o.call).0) {
          CallInStep(libs, servers, k, o.call);
        }
      }
    }
  }

  lemma {:induction false} RunInStep(libs: Libraries, run: seq<Event>)
    requires AllLawful(libs) && AllForwardable(run) && Orderly(libs, run)
    ensures AllInStep(libs, Directly(libs, run).0.servers)
  {
    hide AllLawful, DirectStep, ShortOutcome, Permitted, Forwardable, InStep;
    if run != [] {
      var n := |run| - 1;
      RunInStep(libs, run[..n]);
      StepInStep(libs, Directly(libs, run[..n]).0, run[n].call, run[n].chance.reachable);
    }
  }

  lemma {:induction false} OrderlyBefore(libs: Libraries, run: seq<Event>, k: nat)
    requires AllLawful(libs) && AllForwardable(run) && Orderly(libs, run) && k <= |run|
    ensures AllForwardable(run[..k]) && Orderly(libs, run[..k])
    ensures k < |run| ==> Permitted(Directly(libs, run[..k]).0, run[k].call)
  {
    hide AllLawful, DirectStep, ShortOutcome, Permitted, Forwardable;
    if k == |run| {
      assert run[..k] == run;
    } else {
      var n := |run| - 1;
      OrderlyBefore(libs, run[..n], k);
      assert run[..n][..k] == run[..k];
    }
  }

  // ---- the assumptions can be met

  function Dial(reader: CStr): (c: Call) { Connect(CONTEXT_MAGIC, reader, 2, 3) }

  function Command(): (c: Call) { Transmit(CARD_MAGIC, Pci(1, 8), [0, 0xa4, 4, 0], None, 258) }

  lemma FirstFree(keys: set<int>, magic: int)
    requires magic !in keys
    ensures LowestFree(NamesIn(keys, magic)) == 0
  {
    assert NamesIn(keys, magic)[0] == 0;
  }

  /** The direct caller's state with one context, and one card if there is an id for it. */
  function Holding(cards: map<int, HeldCard>, history: seq<Call>): (d: Direct)
  {
    Direct(map[CONTEXT_MAGIC := HeldContext(1, 0)], cards, map[], [history])
  }

  lemma Establishes(libs: Libraries)
    requires AllLawful(libs) && libs(0) == OneCard
    ensures DirectStep(libs, Nothing(), EstablishContext(0), true)
            == (Holding(map[], [EstablishContext(0)]),
                Performed(EstablishContext(0), Opened(SUCCESS, 1), CONTEXT_MAGIC))
  {
    hide AllLawful, NamesIn, LowestFree;
    FirstFree(Nothing().contexts.Keys, CONTEXT_MAGIC);
    assert Nothing().spare - {CONTEXT_MAGIC} == map[];
    var asked: seq<Call> := [];
    assert Nothing().servers + [asked] == [asked];
    assert asked + [EstablishContext(0)] == [EstablishContext(0)];
    var now := [EstablishContext(0)];
    assert OneCard(now) == Opened(SUCCESS, 1) && [asked][0 := now] == [now];
    assert CallIn(libs, [asked], 0, EstablishContext(0)) == (Opened(SUCCESS, 1), [now]);
  }

  lemma Connects(libs: Libraries, reader: CStr, history: seq<Call>)
    requires AllLawful(libs) && libs(0) == OneCard && |reader| < NAME
    ensures var (d, o) := DirectStep(libs, Holding(map[], history), Dial(reader), true);
            && o == Performed(Connect(1, reader, 2, 3), Connected(SUCCESS, 1, 1), CARD_MAGIC)
            && d == Holding(map[CARD_MAGIC := HeldCard(1, CONTEXT_MAGIC, 0)], history + [o.call])
  {
    hide AllLawful, NamesIn, LowestFree;
    FirstFree(Nothing().cards.Keys, CARD_MAGIC);
  }

  lemma Transmits(libs: Libraries, history: seq<Call>)
    requires AllLawful(libs) && libs(0) == OneCard
    ensures var d := Holding(map[CARD_MAGIC := HeldCard(1, CONTEXT_MAGIC, 0)], history);
            var o := DirectStep(libs, d, Command(), true).1;
            && Forwardable(Command()) && Permitted(d, Command())
            && o.Performed? && o.answer == Response(SUCCESS, Some(Pci(1, 8)), [0x90, 0], 2)
                && ShortOutcome(Command(), o)
  {
    hide AllLawful, NamesIn, LowestFree;
  }

  lemma {:induction false} OrderlyMore(libs: Libraries, run: seq<Event>, e: Event)
    requires AllLawful(libs) && AllForwardable(run) && Orderly(libs, run) && Permitted(Directly(libs, run).0, e.call)
    requires ShortOutcome(e.call, DirectStep(libs, Directly(libs, run).0, e.call, e.chance.reachable).1)
    ensures AllForwardable(run + [e]) && Orderly(libs, run + [e])
    ensures var (d, outcomes) := Directly(libs, run);
            var (d', o) := DirectStep(libs, d, e.call, e.chance.reachable);
            Directly(libs, run + [e]) == (d', outcomes + [o])
  {
    assert Forwardable(e.call);
    hide AllLawful, Permitted, Forwardable, ShortOutcome, DirectStep;
    assert (run + [e])[..|run|] == run;
  }

  /** There are such runs and such libraries: an establish, a connect and a transmit, all successful. */
  lemma SomeOrderlyRun(stale: Image, reader: CStr) returns (libs: Libraries, run: seq<Event>)
    requires |reader| < NAME
    ensures AllLawful(libs) && NarrowHandles(libs) && AllForwardable(run) && Orderly(libs, run) && |run| == 3
    ensures run[0].call == EstablishContext(0) && run[1].call == Dial(reader) && run[2].call == Command()
    ensures forall k :: 0 <= k < 3 ==>
              Directly(libs, run).1[k].Performed? && Directly(libs, run).1[k].answer.rv == SUCCESS
  {
    hide AllLawful, NarrowHandles, Permitted, ShortOutcome, DirectStep, Directly, Orderly, Related, Admitted, Short;
    libs := OneCards();
    run := [];
    Establishes(libs);
    var history := [EstablishContext(0)];
    Connects(libs, reader, history);
    Transmits(libs, history + [Connect(1, reader, 2, 3)]);
    Unhindered(libs, reader, history);
    hide Command, Dial;
    var d1 := Holding(map[], history);
    var d2 := Holding(map[CARD_MAGIC := HeldCard(1, CONTEXT_MAGIC, 0)], history + [Connect(1, reader, 2, 3)]);
    run := [Event(EstablishContext(0), Chance(true, stale)), Event(Dial(reader), Chance(true, stale)),
            Event(Command(), Chance(true, stale))];
    ThreeOrderly(libs, run[0], run[1], run[2], d1, d2);
    assert run == [run[0], run[1], run[2]];
    hide *;
  }

  /** Three calls in a row, from nothing through d1 and d2. */
  lemma {:induction false} ThreeOrderly(libs: Libraries, e0: Event, e1: Event, e2: Event, d1: Direct, d2: Direct)
    requires AllLawful(libs) && Orderly(libs, []) && Directly(libs, []) == (Nothing(), []) && Rooted(d1) && Rooted(d2)
    requires Permitted(Nothing(), e0.call) && Permitted(d1, e1.call) && Permitted(d2, e2.call)
    requires DirectStep(libs, Nothing(), e0.call, e0.chance.reachable).0 == d1
    requires DirectStep(libs, d1, e1.call, e1.chance.reachable).0 == d2
    requires ShortOutcome(e0.call, DirectStep(libs, Nothing(), e0.call, e0.chance.reachable).1)
    requires ShortOutcome(e1.call, DirectStep(libs, d1, e1.call, e1.chance.reachable).1)
    requires ShortOutcome(e2.call, DirectStep(libs, d2, e2.call, e2.chance.reachable).1)
    ensures AllForwardable([e0, e1, e2]) && Orderly(libs, [e0, e1, e2])
    ensures Directly(libs, [e0, e1, e2]).1
            == [DirectStep(libs, Nothing(), e0.call, e0.chance.reachable).1,
                DirectStep(libs, d1, e1.call, e1.chance.reachable).1,
                DirectStep(libs, d2, e2.call, e2.chance.reachable).1]
  {
    hide AllLawful, Permitted, ShortOutcome, DirectStep, Directly, Orderly, Rooted, Nothing, Forwardable;
    OrderlyMore(libs, [], e0);
    assert [] + [e0] == [e0];
    OrderlyMore(libs, [e0], e1);
    assert [e0] + [e1] == [e0, e1];
    OrderlyMore(libs, [e0, e1], e2);
    assert [e0, e1] + [e2] == [e0, e1, e2];
  }

  lemma OneCards() returns (libs: Libraries)
    ensures AllLawful(libs) && NarrowHandles(libs) && libs(0) == OneCard
  {
    libs := (k: nat) => OneCard;
    SomeLawful();
    forall k: nat, history: seq<Call>, c: Call
      ensures NarrowHandle(c, libs(k)(history + [c]))
    {
      assert (history + [c])[|history|] == c;
    }
  }

  lemma {:induction false} Unhindered(libs: Libraries, reader: CStr, history: seq<Call>)
    requires AllLawful(libs) && |reader| < NAME
    ensures AllForwardable([]) && Orderly(libs, []) && Directly(libs, []) == (Nothing(), [])
    ensures Permitted(Nothing(), EstablishContext(0)) && Permitted(Holding(map[], history), Dial(reader))
    ensures ShortOutcome(EstablishContext(0), Performed(EstablishContext(0), Opened(SUCCESS, 1), CONTEXT_MAGIC))
    ensures ShortOutcome(Dial(reader), Performed(Connect(1, reader, 2, 3), Connected(SUCCESS, 1, 1), CARD_MAGIC))
  {
    hide AllLawful;
  }

  // ---- routing

  /** The context that the connection k was opened for is still there. */
  ghost predicate Unreleased(d: Direct, k: nat)
  {
    exists id :: id in d.contexts && d.contexts[id].server == k
  }

  /**
   * A card call goes out on the connection its handle came from exactly while the context that connected
   * the card is unreleased; afterwards it meets no connection, or that of another server process.
   */
  lemma CardCallsRouted(w: World, d: Direct, id: int)
    requires Related(w, d) && id in d.cards
    ensures InRange(id, CARD_MAGIC)
    ensures var x := w.cards[id - CARD_MAGIC];
            && x.id == id
            && (w.contexts[x.context].session == Some(d.cards[id].server) <==>
                  Unreleased(d, d.cards[id].server))
  {
    var x, k := w.cards[id - CARD_MAGIC], d.cards[id].server;
    assert CardAgrees(x, d, id) && ContextAgrees(w.contexts[x.context], d, CONTEXT_MAGIC + x.context);
    forall other | other in d.contexts && d.contexts[other].server == k
      ensures other == CONTEXT_MAGIC + x.context
    {
      assert ContextAgrees(w.contexts[other - CONTEXT_MAGIC], d, other);
    }
  }

  /**
   * Why released contexts are excluded: a call on one of their cards never reaches the library that issued
   * its handle. It fails unsent, or is performed, handle and all, by the server of the slot's next context.
   */
  lemma StaleCardStrays(libs: Libraries, w: World, d: Direct, c: Call, j: nat, e: Chance)
    requires AllLawful(libs) && Related(w, d) && OnCard(c) && Sendable(c)
    requires j < SLOTS && CARD_MAGIC + j in d.cards && !Open(d, d.cards[CARD_MAGIC + j])
    ensures var (w', r) := CardCall(libs, w, c, j, e);
            match w.contexts[w.cards[j].context].session
            case None => w' == w && r == Code(INTERNAL_ERROR)
            case Some(k) =>
              && k != d.cards[CARD_MAGIC + j].server && k < |w.servers|
              && w'.servers == w.servers[k := w.servers[k] + [Forwarded(c, w.cards[j].handle)]]
  {
    var x := w.cards[j];
    var session := w.contexts[x.context].session;
    SlotReused(w, d, j);
    hide Wire, Forwarded, Faithful, Short, Answers, AllLawful, Lawful, Sendable, Admitted, Related, Open, OnCard;
    if session.Some? {
      TransactIsWire(libs, w.servers, session.value, c, x.handle, e.stale);
      CardCallKinds(c);
      WireReports(libs(session.value), w.servers[session.value], c, x.handle, e.stale);
    }
  }

  lemma SlotReused(w: World, d: Direct, j: nat)
    requires Related(w, d) && j < SLOTS && CARD_MAGIC + j in d.cards && !Open(d, d.cards[CARD_MAGIC + j])
    ensures var session := w.contexts[w.cards[j].context].session;
            session.Some? ==> session.value != d.cards[CARD_MAGIC + j].server && session.value < |w.servers|
  {
    var x := w.cards[j];
    assert CardAgrees(x, d, CARD_MAGIC + j) && ContextAgrees(w.contexts[x.context], d, CONTEXT_MAGIC + x.context);
  }
}
