/**
 * What the steps of one call come to: alone, those of Proxy; among other threads, that a connection is closed
 * and a context's id freed by releases only, and that a release and a connect end as they should.
 */
module Undisturbed {
  import opened Bytes
  import opened Pcsc
  import opened Handles
  import opened Proxy
  import opened Interleaving

  /** Thread t takes these steps and no other thread any. */
  function Do(s: State, t: nat, actions: seq<Action>): (s': State)
    decreases |actions|
  {
    if actions == [] then s else Do(Next(s, t, actions[0]), t, actions[1..])
  }

  function StepsOf(t: nat, actions: seq<Action>): (steps: seq<(nat, Action)>)
    ensures |steps| == |actions|
  {
    seq(|actions|, n requires 0 <= n < |actions| => (t, actions[n]))
  }

  lemma {:induction false} RunFirst(s: State, first: (nat, Action), rest: seq<(nat, Action)>)
    ensures Run(s, [first] + rest) == Run(Next(s, first.0, first.1), rest)
  {
    hide Next;
    var steps := [first] + rest;
    var n := |rest|;
    if rest == [] {
      assert steps[..0] == [];
    } else {
      RunFirst(s, first, rest[..n - 1]);
      assert steps[..n] == [first] + rest[..n - 1];
    }
  }

  /** Such a run is one of the interleavings. */
  lemma {:induction false} DoIsRun(s: State, t: nat, actions: seq<Action>)
    ensures Do(s, t, actions) == Run(s, StepsOf(t, actions))
    decreases |actions|
  {
    hide Next;
    if actions != [] {
      DoIsRun(Next(s, t, actions[0]), t, actions[1..]);
      RunFirst(s, (t, actions[0]), StepsOf(t, actions[1..]));
      assert StepsOf(t, actions) == [(t, actions[0])] + StepsOf(t, actions[1..]);
    } else {
      assert StepsOf(t, actions) == [];
    }
  }

  lemma DoThree(s: State, t: nat, a: Action, b: Action, c: Action)
    ensures Do(s, t, [a, b, c]) == Next(Next(Next(s, t, a), t, b), t, c)
  {
    hide Next;
    var s1, s2 := Next(s, t, a), Next(Next(s, t, a), t, b);
    assert [a, b, c][1..] == [b, c] && [b, c][1..] == [c] && [c][1..] == [];
    assert Do(s, t, [a, b, c]) == Do(s1, t, [b, c]) == Do(s2, t, [c]) == Do(Next(s2, t, c), t, []);
  }

  lemma DoFive(s: State, t: nat, a: Action, b: Action, c: Action, d: Action, e: Action)
    ensures Do(s, t, [a, b, c, d, e]) == Next(Next(Next(Next(Next(s, t, a), t, b), t, c), t, d), t, e)
  {
    hide Next;
    var s1, s2 := Next(s, t, a), Next(Next(s, t, a), t, b);
    assert [a, b, c, d, e][1..] == [b, c, d, e] && [b, c, d, e][1..] == [c, d, e];
    assert Do(s, t, [a, b, c, d, e]) == Do(s1, t, [b, c, d, e]) == Do(s2, t, [c, d, e]);
    DoThree(s2, t, c, d, e);
  }

  // ---- one call alone

  /** Everything but the contexts and what is recorded of connections and their handles. */
  predicate SameCards(s: State, s': State)
  {
    && s'.cards == s.cards && s'.threads == s.threads && s'.joined == s.joined && s'.closed == s.closed
    && s'.sent == s.sent && s'.asked == s.asked
  }

  /** Releasing the id a slot has, its own or none, frees that slot alone. */
  lemma SlotFreed(xs: Contexts, i: nat)
    requires i < SLOTS && (xs[i].id == 0 || xs[i].id == CONTEXT_MAGIC + i)
    ensures FreeSlot(xs, i) == xs[i := xs[i].(id := 0)]
  {
  }

  lemma CardFreed(cs: Cards, j: nat)
    requires j < SLOTS && (cs[j].id == 0 || cs[j].id == CARD_MAGIC + j)
    ensures FreeCard(cs, j) == cs[j := cs[j].(id := 0)]
  {
  }

  /** SCardEstablishContext, as in Proxy; `answer` is the handle when the exchange succeeds. */
  lemma EstablishAlone(s: State, t: nat, reachable: bool, answer: Option<int>)
    requires t < |s.threads| && s.threads[t] == Ready
    ensures var s' := Do(s, t, [CreateContext, Establish(reachable, answer), FinishEstablish]);
            var i := LowestFree(ContextIds(s.contexts));
            && SameCards(s, s')
            && if i == SLOTS || (s.contexts[i].session.None? && !reachable) then
                 s'.contexts == s.contexts && s'.next == s.next && s'.origin == s.origin && s'.issued == s.issued
               else
                 var k := if s.contexts[i].session.Some? then s.contexts[i].session.value else s.next;
                 var r := if answer.Some? then Some(Opened(SUCCESS, Wrap32(answer.value))) else None;
                 && s'.contexts == ContextOpened(World(s.contexts, s.cards, []), i, k, r, []).0.contexts
                 && s'.next == (if s.contexts[i].session.Some? then s.next else k + 1)
                 && s'.origin == (if answer.Some? then s.origin[i := k] else s.origin)
                 && s'.issued == s.issued + (if answer.Some? then {(k, Wrap32(answer.value))} else {})
  {
    var i := LowestFree(ContextIds(s.contexts));
    EstablishSteps(s, t, reachable, answer);
    assert i < SLOTS ==> s.contexts[i].id == 0;
    hide Do, Next, FreeSlot, LowestFree, ContextIds, DoCreateContext, DoEstablish, DoFinishEstablish, ContextOpened;
    if i < SLOTS {
      EstablishRest(s, t, i, reachable, answer);
      EstablishContexts(s, t, i, reachable, answer);
    }
  }

  lemma EstablishRest(s: State, t: nat, i: nat, reachable: bool, answer: Option<int>)
    requires t < |s.threads| && s.threads[t] == Ready && i == LowestFree(ContextIds(s.contexts)) < SLOTS
    ensures var s2 := DoEstablish(DoCreateContext(s, t), t, i, reachable, answer);
            s2.threads[t].Greeted? &&
            var s' := DoFinishEstablish(s2, t, i, s2.threads[t].from);
            SameCards(s, s')
  {
    hide FreeSlot, LowestFree, ContextIds, SetContextId, Issue;
  }

  lemma EstablishContexts(s: State, t: nat, i: nat, reachable: bool, answer: Option<int>)
    requires t < |s.threads| && s.threads[t] == Ready && i == LowestFree(ContextIds(s.contexts)) < SLOTS
    requires s.contexts[i].id == 0
    ensures var s2 := DoEstablish(DoCreateContext(s, t), t, i, reachable, answer);
            s2.threads[t].Greeted? &&
            var s' := DoFinishEstablish(s2, t, i, s2.threads[t].from);
            if s.contexts[i].session.None? && !reachable then
              s'.contexts == s.contexts && s'.next == s.next && s'.origin == s.origin && s'.issued == s.issued
            else
              var k := if s.contexts[i].session.Some? then s.contexts[i].session.value else s.next;
              var r := if answer.Some? then Some(Opened(SUCCESS, Wrap32(answer.value))) else None;
              && s'.contexts == ContextOpened(World(s.contexts, s.cards, []), i, k, r, []).0.contexts
              && s'.next == (if s.contexts[i].session.Some? then s.next else k + 1)
              && s'.origin == (if answer.Some? then s.origin[i := k] else s.origin)
              && s'.issued == s.issued + (if answer.Some? then {(k, Wrap32(answer.value))} else {})
  {
    hide FreeSlot, LowestFree, ContextIds;
    var s2 := DoEstablish(DoCreateContext(s, t), t, i, reachable, answer);
    SlotFreed(s2.contexts, i);
  }

  lemma EstablishSteps(s: State, t: nat, reachable: bool, answer: Option<int>)
    requires t < |s.threads| && s.threads[t] == Ready
    ensures var i := LowestFree(ContextIds(s.contexts));
            var s' := Do(s, t, [CreateContext, Establish(reachable, answer), FinishEstablish]);
            if i == SLOTS then s' == s
            else
              var s2 := DoEstablish(DoCreateContext(s, t), t, i, reachable, answer);
              s2.threads[t].Greeted? && s' == DoFinishEstablish(s2, t, i, s2.threads[t].from)
  {
    DoThree(s, t, CreateContext, Establish(reachable, answer), FinishEstablish);
    hide Do, FreeSlot, LowestFree, ContextIds, SetContextId, Issue, From;
  }

  /** What a message with the handle of context slot i leaves in the log when it goes out now. */
  function AskedNow(s: State, i: nat): (e: Asked)
    requires i < SLOTS
  {
    var origin := if i in s.origin then Some(s.origin[i]) else None;
    Asked(i, s.contexts[i].session, Carried(s.contexts[i].handle, origin), origin.Some? && origin.value !in s.closed)
  }

  /** A call on a context, a release apart: one exchange on the context's connection with its handle, no more. */
  lemma CallAlone(s: State, t: nat, id: int)
    requires t < |s.threads| && s.threads[t] == Ready
    ensures var s' := Do(s, t, [FindContext(id, ToCall), Marshal, CallContext]);
            var f := Find(ContextIds(s.contexts), CONTEXT_MAGIC, id);
            if !f.At? then s' == s
            else
              var i := f.slot;
              s' == s.(asked := s.asked + [AskedNow(s, i)])
  {
    DoThree(s, t, FindContext(id, ToCall), Marshal, CallContext);
    hide Do, Find, ContextIds;
    var f := Find(ContextIds(s.contexts), CONTEXT_MAGIC, id);
    if f.At? {
      assert s.threads[t := Ready] == s.threads;
    }
  }

  /** A release: the same exchange, then the connection is closed and the context's id is gone. */
  lemma ReleaseAlone(s: State, t: nat, id: int)
    requires t < |s.threads| && s.threads[t] == Ready && TablesProper(s)
    ensures var s' := Do(s, t, [FindContext(id, ToClose), Marshal, CallContext, CloseSession, FreeContext]);
            var f := Find(ContextIds(s.contexts), CONTEXT_MAGIC, id);
            if !f.At? then s' == s
            else
              var i := f.slot;
              var x := s.contexts[i];
              && s'.contexts == s.contexts[i := Context(0, x.handle, None)]
              && s'.closed == s.closed + (if x.session.Some? then {x.session.value} else {})
              && s' == s.(contexts := s'.contexts, closed := s'.closed, asked := s.asked + [AskedNow(s, i)])
  {
    ReleaseSteps(s, t, id);
    hide Do, Next, Find, FreeSlot;
    var f := Find(ContextIds(s.contexts), CONTEXT_MAGIC, id);
    if f.At? {
      assert ContextIds(s.contexts)[f.slot] == s.contexts[f.slot].id;
      var s4 := Exchanged(s, t, f.slot);
      SlotFreed(s4.contexts, f.slot);
      assert s.threads[t := Ready] == s.threads;
    }
  }

  /** After the exchange of a release and the end of its connection. */
  function Exchanged(s: State, t: nat, i: nat): (s': State)
    requires t < |s.threads| && i < SLOTS
  {
    DoClose(s.(asked := s.asked + [AskedNow(s, i)]), t, i)
  }

  lemma ReleaseSteps(s: State, t: nat, id: int)
    requires t < |s.threads| && s.threads[t] == Ready
    ensures var s' := Do(s, t, [FindContext(id, ToClose), Marshal, CallContext, CloseSession, FreeContext]);
            var f := Find(ContextIds(s.contexts), CONTEXT_MAGIC, id);
            if !f.At? then s' == s
            else
              var i := f.slot;
              var s4 := Exchanged(s, t, i);
              s' == s4.(contexts := FreeSlot(s4.contexts, i), threads := s.threads[t := Ready])
  {
    DoFive(s, t, FindContext(id, ToClose), Marshal, CallContext, CloseSession, FreeContext);
    ReleaseBegins(s, t, id);
    var f := Find(ContextIds(s.contexts), CONTEXT_MAGIC, id);
    hide Do, Find, ContextIds, FreeSlot, Exchanged;
    if f.At? {
      ReleaseCloses(s, t, f.slot);
    } else {
      assert s.threads[t] == Ready;
    }
  }

  lemma ReleaseCloses(s: State, t: nat, i: nat)
    requires t < |s.threads| && i < SLOTS
    ensures var s3 := s.(asked := s.asked + [AskedNow(s, i)], threads := s.threads[t := Leaving(i)]);
            var s4 := Exchanged(s, t, i);
            Next(Next(s3, t, CloseSession), t, FreeContext)
            == s4.(contexts := FreeSlot(s4.contexts, i), threads := s.threads[t := Ready])
  {
    hide FreeSlot, AskedNow;
  }

  lemma ReleaseBegins(s: State, t: nat, id: int)
    requires t < |s.threads| && s.threads[t] == Ready
    ensures var f := Find(ContextIds(s.contexts), CONTEXT_MAGIC, id);
            Next(Next(Next(s, t, FindContext(id, ToClose)), t, Marshal), t, CallContext)
            == if f.At? then s.(asked := s.asked + [AskedNow(s, f.slot)], threads := s.threads[t := Leaving(f.slot)])
                else s
  {
    hide Find, ContextIds;
  }

  /** A connect, as in Proxy: the card gets its id and handle, or its slot is free again. */
  lemma ConnectAlone(s: State, t: nat, id: int, answer: Option<int>)
    requires t < |s.threads| && s.threads[t] == Ready
    ensures var s' := Do(s, t, [FindContext(id, ToJoin), CreateCard, Marshal, Action.Connect(answer), FinishConnect]);
            var j := LowestFree(CardIds(s.cards));
            var f := Find(ContextIds(s.contexts), CONTEXT_MAGIC, id);
            if !f.At? then s' == s
            else
              var i := f.slot;
              if j == SLOTS then s' == s
              else
                var session := s.contexts[i].session;
                var r := if answer.Some? && session.Some? then Some(Connected(SUCCESS, answer.value, 0)) else None;
                && s'.cards == CardOpened(World(s.contexts, s.cards, []), j, i, r, []).0.cards
                && s'.joined == (if r.Some? then s.joined[j := Joined(Wrap32(answer.value), i, session.value)]
                    else s.joined)
                && s' == s.(cards := s'.cards, joined := s'.joined, asked := s.asked + [AskedNow(s, i)])
  {
    ConnectSteps(s, t, id, answer);
    hide Do, Next, Find, FreeCard, LowestFree, ContextIds, CardIds;
    var f, j := Find(ContextIds(s.contexts), CONTEXT_MAGIC, id), LowestFree(CardIds(s.cards));
    if f.At? && j < SLOTS {
      var s4 := Introduced(s, f.slot, j);
      CardFreed(s4.cards, j);
      assert s.threads[t := Ready] == s.threads;
    }
  }

  /** After the exchange of a connect. */
  function Introduced(s: State, i: nat, j: nat): (s': State)
    requires i < SLOTS && j < SLOTS
  {
    s.(cards := s.cards[j := Card(CARD_MAGIC + j, s.cards[j].handle, i)], asked := s.asked + [AskedNow(s, i)])
  }

  lemma ConnectSteps(s: State, t: nat, id: int, answer: Option<int>)
    requires t < |s.threads| && s.threads[t] == Ready
    ensures var s' := Do(s, t, [FindContext(id, ToJoin), CreateCard, Marshal, Action.Connect(answer), FinishConnect]);
            var j := LowestFree(CardIds(s.cards));
            var f := Find(ContextIds(s.contexts), CONTEXT_MAGIC, id);
            if !f.At? then s' == s
            else
              var i := f.slot;
              if j == SLOTS then s' == s
              else
                var session := s.contexts[i].session;
                var from := if answer.Some? && session.Some? then Some((answer.value, session.value)) else None;
                var s4 := Introduced(s, i, j);
                s' == DoFinishConnect(s4, t, i, j, from)
  {
    DoFive(s, t, FindContext(id, ToJoin), CreateCard, Marshal, Action.Connect(answer), FinishConnect);
    ConnectBegins(s, t, id);
    var f, j := Find(ContextIds(s.contexts), CONTEXT_MAGIC, id), LowestFree(CardIds(s.cards));
    hide Do, Find, ContextIds, CardIds, FreeCard, LowestFree, DoFinishConnect;
    if f.At? && j < SLOTS {
      ConnectEnds(s, t, f.slot, j, answer);
    }
  }

  /** Up to the exchange of a connect. */
  function Marshalled(s: State, t: nat, i: nat, j: nat): (s': State)
    requires t < |s.threads| && i < SLOTS && j < SLOTS
  {
    s.(cards := s.cards[j := Card(CARD_MAGIC + j, s.cards[j].handle, i)],
       threads := s.threads[t := Introducing(i, j, Read(s, i))])
  }

  lemma ConnectBegins(s: State, t: nat, id: int)
    requires t < |s.threads| && s.threads[t] == Ready
    ensures var f := Find(ContextIds(s.contexts), CONTEXT_MAGIC, id);
            var j := LowestFree(CardIds(s.cards));
            Next(Next(Next(s, t, FindContext(id, ToJoin)), t, CreateCard), t, Marshal)
            == if f.At? && j < SLOTS then Marshalled(s, t, f.slot, j) else s
  {
    hide Find, ContextIds, CardIds, LowestFree;
    assert s.threads[t := Ready] == s.threads;
  }

  lemma ConnectEnds(s: State, t: nat, i: nat, j: nat, answer: Option<int>)
    requires t < |s.threads| && i < SLOTS && j < SLOTS
    ensures var session := s.contexts[i].session;
            var from := if answer.Some? && session.Some? then Some((answer.value, session.value)) else None;
            Next(Next(Marshalled(s, t, i, j), t, Action.Connect(answer)), t, FinishConnect)
            == DoFinishConnect(Introduced(s, i, j), t, i, j, from)
  {
    hide FreeCard;
  }

  /** A card call: one exchange on its context's connection with the card's handle, no more. */
  lemma CardCallAlone(s: State, t: nat, id: int)
    requires t < |s.threads| && s.threads[t] == Ready
    ensures var s' := Do(s, t, [FindCard(id), Marshal, CallCard]);
            var f := Find(CardIds(s.cards), CARD_MAGIC, id);
            if !f.At? then s' == s
            else
              var j := f.slot;
              var x := s.cards[j];
              var held := if j in s.joined then Some(s.joined[j]) else None;
              s' == s.(sent := s.sent + [Sent(j, s.contexts[x.context].session, x.handle, held,
                                              held.Some? && held.value.session !in s.closed)])
  {
    DoThree(s, t, FindCard(id), Marshal, CallCard);
    CardCallBegins(s, t, id);
    hide Do, Find, CardIds;
    var f := Find(CardIds(s.cards), CARD_MAGIC, id);
    if f.At? {
      assert s.threads[t := Ready] == s.threads;
    }
  }

  lemma CardCallBegins(s: State, t: nat, id: int)
    requires t < |s.threads| && s.threads[t] == Ready
    ensures var f := Find(CardIds(s.cards), CARD_MAGIC, id);
            Next(Next(s, t, FindCard(id)), t, Marshal)
            == if !f.At? then s
               else
                 var held := if f.slot in s.joined then Some(s.joined[f.slot]) else None;
                 s.(threads := s.threads[t := Calling(f.slot, s.cards[f.slot].handle, held)])
  {
    hide Find, CardIds;
  }

  // ---- among other threads

  /** The slot and the purpose of the last lookup of a context by thread t that found one. */
  function LastFound(threads: nat, steps: seq<(nat, Action)>, t: nat): (found: Option<(nat, Purpose)>)
    decreases |steps|
  {
    if steps == [] then None
    else
      var n := |steps| - 1;
      var s, (u, a) := Run(Start(threads), steps[..n]), steps[n];
      if u == t && a.FindContext? && t < |s.threads| && s.threads[t].Ready?
         && Find(ContextIds(s.contexts), CONTEXT_MAGIC, a.id).At? then
        Some((Find(ContextIds(s.contexts), CONTEXT_MAGIC, a.id).slot, a.purpose))
      else LastFound(threads, steps[..n], t)
  }

  /** What a thread is doing with a context it looked up is what it looked it up for. */
  predicate Meant(p: Thread, found: Option<(nat, Purpose)>)
  {
    match p
    case InContext(i, closing) => found == Some((i, if closing then ToClose else ToCall))
    case Asking(i, closing, _) => found == Some((i, if closing then ToClose else ToCall))
    case Leaving(i) => found == Some((i, ToClose))
    case Closed(i) => found == Some((i, ToClose))
    case Joining(i) => found == Some((i, ToJoin))
    case Connecting(i, _) => found == Some((i, ToJoin))
    case Introducing(i, _, _) => found == Some((i, ToJoin))
    case Answered(i, _, _) => found == Some((i, ToJoin))
    case _ => true
  }

  /** A step moves its own thread alone, and only a lookup begins something with a context. */
  lemma StepMeant(s: State, u: nat, a: Action, t: nat, found: Option<(nat, Purpose)>)
    requires t < |s.threads| && Meant(s.threads[t], found)
    ensures var s' := Next(s, u, a);
            |s'.threads| == |s.threads| &&
            var f := if a.FindContext? then Find(ContextIds(s.contexts), CONTEXT_MAGIC, a.id) else Absent;
            Meant(s'.threads[t], if u == t && s.threads[t].Ready? && f.At? then Some((f.slot, a.purpose)) else found)
  {
    if u == t && a.FindContext? {
      LookupMeant(s, a, t, found);
      hide Next, Meant;
    } else if u == t {
      OwnMeant(s, a, t, found);
      hide Next, Meant;
    } else {
      OwnThread(s, u, a, t);
      hide Next, Meant;
    }
  }

  lemma LookupMeant(s: State, a: Action, t: nat, found: Option<(nat, Purpose)>)
    requires t < |s.threads| && Meant(s.threads[t], found) && a.FindContext?
    ensures var s' := Next(s, t, a);
            |s'.threads| == |s.threads| &&
            var f := Find(ContextIds(s.contexts), CONTEXT_MAGIC, a.id);
            Meant(s'.threads[t], if s.threads[t].Ready? && f.At? then Some((f.slot, a.purpose)) else found)
  {
    hide Find, ContextIds;
  }

  lemma OwnMeant(s: State, a: Action, t: nat, found: Option<(nat, Purpose)>)
    requires t < |s.threads| && Meant(s.threads[t], found) && !a.FindContext?
    ensures var s' := Next(s, t, a); |s'.threads| == |s.threads| && Meant(s'.threads[t], found)
  {
    hide Find, LowestFree, FreeSlot, FreeCard, SetContextId, ContextIds, CardIds, Issue, From;
  }

  lemma {:induction false} AllMeant(threads: nat, steps: seq<(nat, Action)>, t: nat)
    requires t < threads
    ensures var s := Run(Start(threads), steps);
            t < |s.threads| && Meant(s.threads[t], LastFound(threads, steps, t))
    decreases |steps|
  {
    hide Next, Meant;
    if steps == [] {
      NothingMeant();
    } else {
      var n := |steps| - 1;
      AllMeant(threads, steps[..n], t);
      StepMeant(Run(Start(threads), steps[..n]), steps[n].0, steps[n].1, t, LastFound(threads, steps[..n], t));
    }
  }

  lemma NothingMeant()
    ensures Meant(Ready, None)
  {
  }

  /** What may take a context's id away: the end of a release of that slot, or of an establish that failed in it. */
  lemma FreedBy(s: State, t: nat, a: Action, i: nat)
    requires TablesProper(s) && i < SLOTS && s.contexts[i].id != 0 && Next(s, t, a).contexts[i].id == 0
    ensures t < |s.threads| && (s.threads[t] == Closed(i) || s.threads[t] == Greeted(i, None))
  {
    if t < |s.threads| && InTable(s.threads[t]) {
      forall n | 0 <= n < SLOTS
        ensures FreeSlot(s.contexts, n) == s.contexts[n := s.contexts[n].(id := 0)]
      {
        assert ContextIds(s.contexts)[n] == s.contexts[n].id;
        SlotFreed(s.contexts, n);
      }
    }
    hide FreeSlot, FreeCard, Find, LowestFree, TablesProper;
  }

  lemma ClosedBy(s: State, t: nat, a: Action)
    requires Next(s, t, a).closed != s.closed
    ensures t < |s.threads| && s.threads[t].Leaving? && s.threads[t].slot < SLOTS
    ensures var x := s.contexts[s.threads[t].slot];
            x.session.Some? && Next(s, t, a).closed == s.closed + {x.session.value}
  {
    hide FreeSlot, FreeCard, Find, LowestFree, SetContextId;
  }

  /**
   * In every interleaving a connection is closed only by a thread that looked its context up to release it,
   * and a context's id is taken away only by such a thread or by an establish that failed in that slot.
   */
  lemma {:induction false} OnlyReleasesClose(threads: nat, steps: seq<(nat, Action)>, t: nat, a: Action)
    ensures var s := Run(Start(threads), steps);
            var s' := Next(s, t, a);
            && (s'.closed != s.closed ==>
                  exists i: nat, k: nat :: i < SLOTS && s.contexts[i].session == Some(k) && s'.closed == s.closed + {k}
                              && LastFound(threads, steps, t) == Some((i, ToClose)))
            && (forall i :: 0 <= i < SLOTS && s.contexts[i].id != 0 && s'.contexts[i].id == 0 ==>
                  LastFound(threads, steps, t) == Some((i, ToClose))
                  || (t < |s.threads| && s.threads[t] == Greeted(i, None)))
  {
    var s := Run(Start(threads), steps);
    var s' := Next(s, t, a);
    EveryRunKeeps(threads, steps);
    SameThreads(threads, steps);
    if t < threads {
      AllMeant(threads, steps, t);
    }
    assert TablesProper(s);
    hide Run, Next, Start, LastFound, TablesProper, Invariant;
    if s'.closed != s.closed {
      ClosedBy(s, t, a);
      var i := s.threads[t].slot;
      assert s.contexts[i].session == Some(s.contexts[i].session.value);
    }
    forall i | 0 <= i < SLOTS && s.contexts[i].id != 0 && s'.contexts[i].id == 0
      ensures LastFound(threads, steps, t) == Some((i, ToClose))
              || (t < |s.threads| && s.threads[t] == Greeted(i, None))
    {
      FreedBy(s, t, a, i);
    }
  }

  lemma {:induction false} SameThreads(threads: nat, steps: seq<(nat, Action)>)
    ensures |Run(Start(threads), steps).threads| == threads
    decreases |steps|
  {
    if steps != [] {
      var n := |steps| - 1;
      SameThreads(threads, steps[..n]);
      SameCount(Run(Start(threads), steps[..n]), steps[n].0, steps[n].1);
      hide Next;
    }
  }

  lemma SameCount(s: State, t: nat, a: Action)
    ensures |Next(s, t, a).threads| == |s.threads|
  {
    hide FreeSlot, FreeCard, Find, LowestFree, SetContextId;
  }

  predicate Others(steps: seq<(nat, Action)>, t: nat)
  {
    forall n :: 0 <= n < |steps| ==> steps[n].0 != t
  }

  /** Whatever other threads do, a thread stays where it is, and what is closed stays closed. */
  lemma {:induction false} Meanwhile(s: State, steps: seq<(nat, Action)>, t: nat)
    requires t < |s.threads| && Others(steps, t)
    ensures var s' := Run(s, steps);
            |s'.threads| == |s.threads| && s'.threads[t] == s.threads[t] && s.closed <= s'.closed
    decreases |steps|
  {
    if steps != [] {
      var n := |steps| - 1;
      Meanwhile(s, steps[..n], t);
      var before := Run(s, steps[..n]);
      SameCount(before, steps[n].0, steps[n].1);
      SessionsMove(before, steps[n].0, steps[n].1);
      OwnThread(before, steps[n].0, steps[n].1, t);
      hide Next;
    }
  }

  lemma OwnThread(s: State, u: nat, a: Action, t: nat)
    requires t < |s.threads| && u != t
    ensures |Next(s, u, a).threads| == |s.threads| && Next(s, u, a).threads[t] == s.threads[t]
  {
    hide FreeSlot, FreeCard, Find, LowestFree, SetContextId;
  }

  /**
   * The end of a release among other threads: the connection the slot has is closed, and when the thread has
   * freed the slot it has no id, and the connection is closed still.
   */
  lemma {:induction false} ReleaseEnds(threads: nat, steps: seq<(nat, Action)>, t: nat, i: nat,
      others: seq<(nat, Action)>)
    requires t < |Run(Start(threads), steps).threads| && Run(Start(threads), steps).threads[t] == Leaving(i)
    requires Others(others, t)
    ensures i < SLOTS
    ensures var s := Run(Start(threads), steps);
            var s1 := Next(s, t, CloseSession);
            var s2 := Next(Run(s1, others), t, FreeContext);
            && s1.contexts[i].session == None && s2.contexts[i].id == 0 && t < |s2.threads| && s2.threads[t] == Ready
            && (s.contexts[i].session.Some? ==>
                  s.contexts[i].session.value in s1.closed && s.contexts[i].session.value in s2.closed)
  {
    EveryRunKeeps(threads, steps);
    var s := Run(Start(threads), steps);
    var s1 := Next(s, t, CloseSession);
    assert i < SLOTS;
    assert s1 == DoClose(s, t, i) && s1.threads[t] == Closed(i);
    Meanwhile(s1, others, t);
    var now := Run(s1, others);
    RunOn(threads, steps, (t, CloseSession), others);
    EveryRunKeeps(threads, steps + [(t, CloseSession)] + others);
    assert ContextIds(now.contexts)[i] == now.contexts[i].id;
    SlotFreed(now.contexts, i);
    hide Run, FreeSlot, Invariant;
  }

  /**
   * A connect among other threads: the exchange over connection k gives a handle, and however long the thread
   * takes to store it, the card is then connected with that handle, in that context, over k.
   */
  lemma {:induction false} ConnectJoins(s: State, t: nat, i: nat, j: nat, c: Carried, h: int, k: nat,
      others: seq<(nat, Action)>)
    requires t < |s.threads| && s.threads[t] == Introducing(i, j, c) && i < SLOTS && j < SLOTS
    requires s.contexts[i].session == Some(k) && Others(others, t)
    ensures var s' := Next(Run(Next(s, t, Action.Connect(Some(h))), others), t, FinishConnect);
            && j in s'.joined && s'.joined[j] == Joined(Wrap32(h), i, k) && s'.cards[j].handle == Wrap32(h)
            && t < |s'.threads| && s'.threads[t] == Ready
  {
    var s1 := Next(s, t, Action.Connect(Some(h)));
    assert s1 == DoConnect(s, t, i, j, c, Some(h)) && s1.threads[t] == Answered(i, j, Some((h, k)));
    Meanwhile(s1, others, t);
    hide Run;
  }

  lemma {:induction false} RunOn(threads: nat, steps: seq<(nat, Action)>, step: (nat, Action), more: seq<(nat, Action)>)
    ensures Run(Start(threads), steps + [step] + more) == Run(Next(Run(Start(threads), steps), step.0, step.1), more)
    decreases |more|
  {
    hide Next, Start;
    var all := steps + [step] + more;
    if more == [] {
      assert all == steps + [step] && (steps + [step])[..|steps|] == steps;
    } else {
      var n := |more| - 1;
      RunOn(threads, steps, step, more[..n]);
      assert all[..|all| - 1] == steps + [step] + more[..n];
    }
  }
}
