/**
 * Any number of application threads inside src/client/client.c: every critical section, every exchange and
 * every read or store of a handle outside a lock is one step, and the steps of different threads interleave
 * in any order.
 */
module Interleaving {
  import opened Bytes
  import opened Pcsc
  import opened Handles
  import opened Proxy

  /** A context's handle in a message, and the connection whose establish had put it into the slot. */
  datatype Carried = Carried(handle: int, origin: Option<nat>)

  /** Where a thread is inside a call. */
  datatype Thread =
    | Ready
    | Opening(slot: nat)                                   // pp_createContext has returned
    | Greeted(slot: nat, from: Option<(int, nat)>)         // the establish answer is in
    | InContext(slot: nat, closing: bool)                  // pp_findContext has returned, for a release or not
    | Asking(slot: nat, closing: bool, carried: Carried)   // the request is marshalled
    | Leaving(slot: nat)                                   // the release was exchanged
    | Closed(slot: nat)                                    // the connection is closed
    | Joining(slot: nat)                                   // pp_findContext has returned, for SCardConnect
    | Connecting(slot: nat, card: nat)                     // pp_createCard has returned
    | Introducing(slot: nat, card: nat, carried: Carried)  // the connect request is marshalled
    | Answered(slot: nat, card: nat, from: Option<(int, nat)>) // the connect answer is in
    | OnACard(card: nat)                                   // pp_findCard has returned
    | Calling(card: nat, handle: int, held: Option<Joined>) // the card request is marshalled

  /** A successful connect: the library's handle, the context's slot, and the connection it came over. */
  datatype Joined = Joined(handle: int, slot: nat, session: nat)

  /**
   * A card call that went out: the card's slot, the session it went on, the handle it carried, what the slot
   * was joined by when that was read, and whether that connection was still open when the call went out.
   */
  datatype Sent = Sent(card: nat, session: Option<nat>, handle: int, held: Option<Joined>, open: bool)

  /** A context call, a release or a connect that went out, likewise. */
  datatype Asked = Asked(slot: nat, session: Option<nat>, carried: Carried, open: bool)

  /**
   * `joined` has the card slots whose SCardConnect succeeded, `closed` the connections that were closed,
   * `sent` and `asked` every call so far; `origin` says which connection a context slot's handle came from,
   * `issued` which handles were given out over which connection.
   */
  datatype State = State(contexts: Contexts, cards: Cards, threads: seq<Thread>,
                         joined: map<nat, Joined>, closed: set<nat>, next: nat, sent: seq<Sent>,
                         origin: map<nat, nat>, issued: set<(nat, int)>, asked: seq<Asked>)

  datatype Purpose = ToCall | ToClose | ToJoin

  /** A step of one thread; what the network and the library do is part of the action. */
  datatype Action =
    | CreateContext
    | Establish(reachable: bool, answer: Option<int>)
    | FinishEstablish
    | FindContext(id: int, purpose: Purpose)
    | Marshal
    | CallContext
    | CloseSession
    | FreeContext
    | CreateCard
    | Connect(answer: Option<int>)
    | FinishConnect
    | FindCard(id: int)
    | CallCard

  function Move(s: State, t: nat, p: Thread): (s': State)
    requires t < |s.threads|
  {
    s.(threads := s.threads[t := p])
  }

  predicate InTable(p: Thread)
  {
    match p
    case Ready => true
    case Connecting(i, j) => i < SLOTS && j < SLOTS
    case Introducing(i, j, _) => i < SLOTS && j < SLOTS
    case Answered(i, j, _) => i < SLOTS && j < SLOTS
    case OnACard(j) => j < SLOTS
    case Calling(j, _, _) => j < SLOTS
    case _ => p.slot < SLOTS
  }

  function SetContextId(xs: Contexts, i: nat, id: int): (xs': Contexts)
    requires i < SLOTS
  {
    xs[i := xs[i].(id := id)]
  }

  /** pp_releaseContext of whatever id the slot has by now. */
  function FreeSlot(xs: Contexts, i: nat): (xs': Contexts)
    requires i < SLOTS
  {
    var ids := Release(ContextIds(xs), CONTEXT_MAGIC, xs[i].id);
    seq(SLOTS, n requires 0 <= n < SLOTS => xs[n].(id := ids[n]))
  }

  /** pp_releaseCard. */
  function FreeCard(cs: Cards, j: nat): (cs': Cards)
    requires j < SLOTS
  {
    var ids := Release(CardIds(cs), CARD_MAGIC, cs[j].id);
    seq(SLOTS, n requires 0 <= n < SLOTS => cs[n].(id := ids[n]))
  }

  function DoCreateContext(s: State, t: nat): (s': State)
    requires t < |s.threads|
  {
    var i := LowestFree(ContextIds(s.contexts));
    if i == SLOTS then s else Move(s.(contexts := SetContextId(s.contexts, i, CONTEXT_MAGIC + i)), t, Opening(i))
  }

  /** The handles known to have been issued, one more for an answer over connection k. */
  function Issue(issued: set<(nat, int)>, k: nat, answer: Option<int>): (more: set<(nat, int)>)
    ensures issued <= more && (answer.Some? ==> (k, Wrap32(answer.value)) in more)
  {
    if answer.Some? then issued + {(k, Wrap32(answer.value))} else issued
  }

  function From(k: nat, answer: Option<int>): (from: Option<(int, nat)>)
  {
    if answer.Some? then Some((answer.value, k)) else None
  }

  /** The connection is opened when the slot has none; then the exchange. */
  function DoEstablish(s: State, t: nat, i: nat, reachable: bool, answer: Option<int>): (s': State)
    requires t < |s.threads| && i < SLOTS
  {
    var x := s.contexts[i];
    if x.session.Some? then
      var k := x.session.value;
      Move(s.(issued := Issue(s.issued, k, answer)), t, Greeted(i, From(k, answer)))
    else if !reachable then Move(s, t, Greeted(i, None))
    else
      var k := s.next;
      var contexts := s.contexts[i := x.(session := Some(k))];
      Move(s.(contexts := contexts, next := k + 1, issued := Issue(s.issued, k, answer)), t,
          Greeted(i, From(k, answer)))
  }

  function DoFinishEstablish(s: State, t: nat, i: nat, from: Option<(int, nat)>): (s': State)
    requires t < |s.threads| && i < SLOTS
  {
    if from.None? then Move(s.(contexts := FreeSlot(s.contexts, i)), t, Ready)
    else
      var (h, k) := from.value;
      Move(s.(contexts := s.contexts[i := s.contexts[i].(handle := Wrap32(h))], origin := s.origin[i := k]), t, Ready)
  }

  function DoFindContext(s: State, t: nat, id: int, purpose: Purpose): (s': State)
    requires t < |s.threads|
  {
    var f := Find(ContextIds(s.contexts), CONTEXT_MAGIC, id);
    if !f.At? then s
    else match purpose
         case ToCall => Move(s, t, InContext(f.slot, false))
         case ToClose => Move(s, t, InContext(f.slot, true))
         case ToJoin => Move(s, t, Joining(f.slot))
  }

  /** The handle a context slot has now. */
  function Read(s: State, i: nat): (c: Carried)
    requires i < SLOTS
  {
    Carried(s.contexts[i].handle, if i in s.origin then Some(s.origin[i]) else None)
  }

  /** The handle is copied into the message. */
  function DoMarshal(s: State, t: nat): (s': State)
    requires t < |s.threads| && InTable(s.threads[t])
  {
    match s.threads[t]
    case InContext(i, closing) => Move(s, t, Asking(i, closing, Read(s, i)))
    case Connecting(i, j) => Move(s, t, Introducing(i, j, Read(s, i)))
    case OnACard(j) => Move(s, t, Calling(j, s.cards[j].handle, if j in s.joined then Some(s.joined[j]) else None))
    case _ => s
  }

  /** The exchange of a message that carries a context's handle goes out on the session its slot has now. */
  function Ask(s: State, i: nat, c: Carried): (s': State)
    requires i < SLOTS
  {
    var e := Asked(i, s.contexts[i].session, c, c.origin.Some? && c.origin.value !in s.closed);
    s.(asked := s.asked + [e])
  }

  function DoCallContext(s: State, t: nat, i: nat, closing: bool, c: Carried): (s': State)
    requires t < |s.threads| && i < SLOTS
  {
    Move(Ask(s, i, c), t, if closing then Leaving(i) else Ready)
  }

  function DoClose(s: State, t: nat, i: nat): (s': State)
    requires t < |s.threads| && i < SLOTS
  {
    var x := s.contexts[i];
    Move(s.(contexts := s.contexts[i := x.(session := None)],
          closed := s.closed + if x.session.Some? then {x.session.value} else {}), t, Closed(i))
  }

  function DoCreateCard(s: State, t: nat, i: nat): (s': State)
    requires t < |s.threads| && i < SLOTS
  {
    var j := LowestFree(CardIds(s.cards));
    if j == SLOTS then Move(s, t, Ready)
    else Move(s.(cards := s.cards[j := Card(CARD_MAGIC + j, s.cards[j].handle, i)]), t, Connecting(i, j))
  }

  function DoConnect(s: State, t: nat, i: nat, j: nat, c: Carried, answer: Option<int>): (s': State)
    requires t < |s.threads| && i < SLOTS && j < SLOTS
  {
    var session := s.contexts[i].session;
    Move(Ask(s, i, c), t, Answered(i, j, if session.Some? then From(session.value, answer) else None))
  }

  function DoFinishConnect(s: State, t: nat, i: nat, j: nat, from: Option<(int, nat)>): (s': State)
    requires t < |s.threads| && i < SLOTS && j < SLOTS
  {
    if from.None? then Move(s.(cards := FreeCard(s.cards, j)), t, Ready)
    else
      var (h, k) := from.value;
      var cards := s.cards[j := s.cards[j].(handle := Wrap32(h))];
      Move(s.(cards := cards, joined := s.joined[j := Joined(Wrap32(h), i, k)]), t, Ready)
  }

  function DoFindCard(s: State, t: nat, id: int): (s': State)
    requires t < |s.threads|
  {
    var f := Find(CardIds(s.cards), CARD_MAGIC, id);
    if f.At? then Move(s, t, OnACard(f.slot)) else s
  }

  /** The exchange of a card call, on the session its context's slot has now. */
  function DoCallCard(s: State, t: nat, j: nat, handle: int, held: Option<Joined>): (s': State)
    requires t < |s.threads| && j < SLOTS
  {
    var open := held.Some? && held.value.session !in s.closed;
    var e := Sent(j, s.contexts[s.cards[j].context].session, handle, held, open);
    Move(s.(sent := s.sent + [e]), t, Ready)
  }

  /** One step of thread t; an action that does not suit where the thread is changes nothing. */
  function Next(s: State, t: nat, a: Action): (s': State)
  {
    if t >= |s.threads| || !InTable(s.threads[t]) then s
    else
      var p := s.threads[t];
      match a
      case CreateContext => if p.Ready? then DoCreateContext(s, t) else s
      case Establish(reachable, answer) => if p.Opening? then DoEstablish(s, t, p.slot, reachable, answer) else s
      case FinishEstablish => if p.Greeted? then DoFinishEstablish(s, t, p.slot, p.from) else s
      case FindContext(id, purpose) => if p.Ready? then DoFindContext(s, t, id, purpose) else s
      case Marshal => DoMarshal(s, t)
      case CallContext => if p.Asking? then DoCallContext(s, t, p.slot, p.closing, p.carried) else s
      case CloseSession => if p.Leaving? then DoClose(s, t, p.slot) else s
      case FreeContext => if p.Closed? then Move(s.(contexts := FreeSlot(s.contexts, p.slot)), t, Ready) else s
      case CreateCard => if p.Joining? then DoCreateCard(s, t, p.slot) else s
      case Connect(answer) => if p.Introducing? then DoConnect(s, t, p.slot, p.card, p.carried, answer) else s
      case FinishConnect => if p.Answered? then DoFinishConnect(s, t, p.slot, p.card, p.from) else s
      case FindCard(id) => if p.Ready? then DoFindCard(s, t, id) else s
      case CallCard => if p.Calling? then DoCallCard(s, t, p.card, p.handle, p.held) else s
  }

  function Run(s: State, steps: seq<(nat, Action)>): (s': State)
  {
    if steps == [] then s
    else var n := |steps| - 1; Next(Run(s, steps[..n]), steps[n].0, steps[n].1)
  }

  // ---- what every step keeps

  ghost predicate TablesProper(s: State)
  {
    Proper(ContextIds(s.contexts), CONTEXT_MAGIC) && Proper(CardIds(s.cards), CARD_MAGIC)
  }

  predicate Holds(p: Thread, j: nat)
  {
    (p.Connecting? || p.Introducing? || p.Answered?) && p.card == j
  }

  /** A connect under way holds its card slot alone, and the slot points to its context. */
  ghost predicate HoldersApart(s: State)
  {
    && (forall t :: 0 <= t < |s.threads| ==> InTable(s.threads[t]))
    && (forall t, j :: 0 <= t < |s.threads| && 0 <= j < SLOTS && Holds(s.threads[t], j) ==>
          j !in s.joined && s.cards[j].id == CARD_MAGIC + j && s.cards[j].context == s.threads[t].slot)
    && (forall t, u, j :: 0 <= t < u < |s.threads| && Holds(s.threads[t], j) ==> !Holds(s.threads[u], j))
  }

  ghost predicate CardsKept(s: State)
  {
    forall j :: j in s.joined ==>
      j < SLOTS && s.joined[j].slot < SLOTS && s.cards[j] == Card(CARD_MAGIC + j, s.joined[j].handle, s.joined[j].slot)
  }

  /** The connection k, opened in slot i, was closed or is still there. */
  ghost predicate Linked(s: State, i: nat, k: nat)
  {
    i < SLOTS && k < s.next && (k in s.closed || s.contexts[i].session == Some(k))
  }

  ghost predicate SessionsKept(s: State)
  {
    && (forall j :: j in s.joined ==> Linked(s, s.joined[j].slot, s.joined[j].session))
    && (forall t :: 0 <= t < |s.threads| && s.threads[t].Answered? && s.threads[t].from.Some? ==>
          Linked(s, s.threads[t].slot, s.threads[t].from.value.1))
    && (forall i :: 0 <= i < SLOTS && s.contexts[i].session.Some? ==>
          s.contexts[i].session.value < s.next && s.contexts[i].session.value !in s.closed)
    && (forall k :: k in s.closed ==> k < s.next)
    && (forall i, n :: 0 <= i < n < SLOTS && s.contexts[i].session.Some? ==>
        s.contexts[i].session != s.contexts[n].session)
  }

  ghost predicate Invariant(s: State)
  {
    TablesProper(s) && HoldersApart(s) && CardsKept(s) && SessionsKept(s)
  }

  /** Connected cards stay connected, as they are. */
  ghost predicate Extends(s: State, s': State)
  {
    forall j :: j in s.joined ==> j in s'.joined && s'.joined[j] == s.joined[j]
  }

  /** A step that holds no card and touches none. */
  lemma CardsAside(s: State, s': State, t: nat, p: Thread)
    requires HoldersApart(s) && CardsKept(s) && t < |s.threads| && InTable(p)
    requires forall j :: !Holds(p, j) && !Holds(s.threads[t], j)
    requires s'.cards == s.cards && s'.joined == s.joined && s'.threads == s.threads[t := p]
    ensures HoldersApart(s') && CardsKept(s') && Extends(s, s')
  {
  }

  lemma CreateContextKeeps(s: State, t: nat)
    requires Invariant(s) && t < |s.threads| && s.threads[t].Ready?
    ensures Invariant(DoCreateContext(s, t)) && Extends(s, DoCreateContext(s, t))
  {
    var s' := DoCreateContext(s, t);
    CardsAside(s, s', t, s'.threads[t]);
    hide HoldersApart, CardsKept, Extends;
  }

  lemma EstablishKeeps(s: State, t: nat, i: nat, reachable: bool, answer: Option<int>)
    requires Invariant(s) && t < |s.threads| && s.threads[t] == Opening(i)
    ensures i < SLOTS
    ensures Invariant(DoEstablish(s, t, i, reachable, answer)) && Extends(s, DoEstablish(s, t, i, reachable, answer))
  {
    var s' := DoEstablish(s, t, i, reachable, answer);
    CardsAside(s, s', t, s'.threads[t]);
    EstablishSessions(s, t, i, reachable, answer);
    hide HoldersApart, CardsKept, Extends, SessionsKept;
  }

  lemma EstablishSessions(s: State, t: nat, i: nat, reachable: bool, answer: Option<int>)
    requires SessionsKept(s) && t < |s.threads| && s.threads[t] == Opening(i) && i < SLOTS
    requires forall j :: j in s.joined ==> s.joined[j].slot < SLOTS
    ensures SessionsKept(DoEstablish(s, t, i, reachable, answer))
  {
  }

  lemma FinishEstablishKeeps(s: State, t: nat, i: nat, from: Option<(int, nat)>)
    requires Invariant(s) && t < |s.threads| && s.threads[t] == Greeted(i, from)
    ensures i < SLOTS
    ensures Invariant(DoFinishEstablish(s, t, i, from)) && Extends(s, DoFinishEstablish(s, t, i, from))
  {
    CardsAside(s, DoFinishEstablish(s, t, i, from), t, Ready);
    hide HoldersApart, CardsKept, Extends;
  }

  lemma FindContextKeeps(s: State, t: nat, id: int, purpose: Purpose)
    requires Invariant(s) && t < |s.threads| && s.threads[t].Ready?
    ensures Invariant(DoFindContext(s, t, id, purpose)) && Extends(s, DoFindContext(s, t, id, purpose))
  {
    var s' := DoFindContext(s, t, id, purpose);
    CardsAside(s, s', t, s'.threads[t]);
    hide HoldersApart, CardsKept, Extends;
  }

  lemma CloseKeeps(s: State, t: nat, i: nat)
    requires Invariant(s) && t < |s.threads| && s.threads[t] == Leaving(i)
    ensures i < SLOTS
    ensures Invariant(DoClose(s, t, i)) && Extends(s, DoClose(s, t, i))
  {
    CardsAside(s, DoClose(s, t, i), t, Closed(i));
    hide HoldersApart, CardsKept, Extends;
  }

  lemma FreeContextKeeps(s: State, t: nat, i: nat)
    requires Invariant(s) && t < |s.threads| && s.threads[t] == Closed(i)
    ensures i < SLOTS
    ensures var s' := Move(s.(contexts := FreeSlot(s.contexts, i)), t, Ready); Invariant(s') && Extends(s, s')
  {
    CardsAside(s, Move(s.(contexts := FreeSlot(s.contexts, i)), t, Ready), t, Ready);
    hide HoldersApart, CardsKept, Extends;
  }

  lemma CreateCardKeeps(s: State, t: nat, i: nat)
    requires Invariant(s) && t < |s.threads| && s.threads[t] == Joining(i)
    ensures i < SLOTS
    ensures Invariant(DoCreateCard(s, t, i)) && Extends(s, DoCreateCard(s, t, i))
  {
    CreateCardHolds(s, t, i);
    hide HoldersApart;
  }

  lemma CreateCardHolds(s: State, t: nat, i: nat)
    requires HoldersApart(s) && CardsKept(s) && t < |s.threads| && s.threads[t] == Joining(i)
    ensures i < SLOTS && HoldersApart(DoCreateCard(s, t, i))
  {
  }

  lemma ConnectKeeps(s: State, t: nat, i: nat, j: nat, c: Carried, answer: Option<int>)
    requires Invariant(s) && t < |s.threads| && s.threads[t] == Introducing(i, j, c)
    ensures i < SLOTS && j < SLOTS
    ensures Invariant(DoConnect(s, t, i, j, c, answer)) && Extends(s, DoConnect(s, t, i, j, c, answer))
  {
  }

  lemma FinishConnectKeeps(s: State, t: nat, i: nat, j: nat, from: Option<(int, nat)>)
    requires Invariant(s) && t < |s.threads| && s.threads[t] == Answered(i, j, from)
    ensures i < SLOTS && j < SLOTS
    ensures Invariant(DoFinishConnect(s, t, i, j, from)) && Extends(s, DoFinishConnect(s, t, i, j, from))
  {
    FinishConnectHolds(s, t, i, j, from);
    FinishConnectLinks(s, t, i, j, from);
    FinishConnectCards(s, t, i, j, from);
    hide HoldersApart, SessionsKept, CardsKept, Extends;
  }

  lemma FinishConnectCards(s: State, t: nat, i: nat, j: nat, from: Option<(int, nat)>)
    requires HoldersApart(s) && CardsKept(s) && t < |s.threads| && s.threads[t] == Answered(i, j, from)
    ensures i < SLOTS && j < SLOTS
    ensures CardsKept(DoFinishConnect(s, t, i, j, from)) && Extends(s, DoFinishConnect(s, t, i, j, from))
  {
    assert Holds(s.threads[t], j);
    assert s.cards[j].id == CARD_MAGIC + j && j !in s.joined && s.cards[j].context == i;
    hide HoldersApart;
  }

  lemma FinishConnectHolds(s: State, t: nat, i: nat, j: nat, from: Option<(int, nat)>)
    requires HoldersApart(s) && t < |s.threads| && s.threads[t] == Answered(i, j, from)
    ensures i < SLOTS && j < SLOTS && HoldersApart(DoFinishConnect(s, t, i, j, from))
  {
    assert Holds(s.threads[t], j) && s.cards[j].id == CARD_MAGIC + j;
    assert forall n :: 0 <= n < SLOTS && n != j ==> FreeCard(s.cards, j)[n] == s.cards[n];
    hide FreeCard;
  }

  lemma FinishConnectLinks(s: State, t: nat, i: nat, j: nat, from: Option<(int, nat)>)
    requires SessionsKept(s) && t < |s.threads| && s.threads[t] == Answered(i, j, from) && i < SLOTS && j < SLOTS
    ensures SessionsKept(DoFinishConnect(s, t, i, j, from))
  {
  }

  lemma FindCardKeeps(s: State, t: nat, id: int)
    requires Invariant(s) && t < |s.threads| && s.threads[t].Ready?
    ensures Invariant(DoFindCard(s, t, id)) && Extends(s, DoFindCard(s, t, id))
  {
    var s' := DoFindCard(s, t, id);
    CardsAside(s, s', t, s'.threads[t]);
    hide HoldersApart, CardsKept, Extends;
  }

  lemma MarshalKeeps(s: State, t: nat)
    requires Invariant(s) && t < |s.threads| && InTable(s.threads[t])
    ensures Invariant(DoMarshal(s, t)) && Extends(s, DoMarshal(s, t))
  {
    var s' := DoMarshal(s, t);
    MarshalSessions(s, t);
    if s.threads[t].Connecting? {
      hide SessionsKept;
    } else if s' != s {
      CardsAside(s, s', t, s'.threads[t]);
      hide HoldersApart, CardsKept, Extends, SessionsKept;
    }
  }

  lemma MarshalSessions(s: State, t: nat)
    requires SessionsKept(s) && t < |s.threads| && InTable(s.threads[t])
    ensures SessionsKept(DoMarshal(s, t))
  {
  }

  lemma CallContextKeeps(s: State, t: nat, i: nat, closing: bool, c: Carried)
    requires Invariant(s) && t < |s.threads| && s.threads[t] == Asking(i, closing, c)
    ensures i < SLOTS
    ensures Invariant(DoCallContext(s, t, i, closing, c)) && Extends(s, DoCallContext(s, t, i, closing, c))
  {
    CardsAside(s, DoCallContext(s, t, i, closing, c), t, if closing then Leaving(i) else Ready);
    hide HoldersApart, CardsKept, Extends;
  }

  lemma CallCardKeeps(s: State, t: nat, j: nat, handle: int, held: Option<Joined>)
    requires Invariant(s) && t < |s.threads| && s.threads[t] == Calling(j, handle, held)
    ensures j < SLOTS
    ensures Invariant(DoCallCard(s, t, j, handle, held)) && Extends(s, DoCallCard(s, t, j, handle, held))
  {
    CardsAside(s, DoCallCard(s, t, j, handle, held), t, Ready);
    hide HoldersApart, CardsKept, Extends;
  }

  lemma NextKeeps(s: State, t: nat, a: Action)
    requires Invariant(s)
    ensures Invariant(Next(s, t, a)) && Extends(s, Next(s, t, a))
  {
    hide Invariant, Extends, DoCreateContext, DoEstablish, DoFinishEstablish, DoFindContext, DoClose, DoCreateCard,
      DoConnect, DoFinishConnect, DoFindCard, DoCallCard, DoMarshal, DoCallContext, FreeSlot, Move;
    ExtendsSelf(s);
    if t < |s.threads| && InTable(s.threads[t]) {
      var p := s.threads[t];
      match a {
        case CreateContext => if p.Ready? { CreateContextKeeps(s, t); }
        case Establish(reachable, answer) => if p.Opening? { EstablishKeeps(s, t, p.slot, reachable, answer); }
        case FinishEstablish => if p.Greeted? { FinishEstablishKeeps(s, t, p.slot, p.from); }
        case FindContext(id, purpose) => if p.Ready? { FindContextKeeps(s, t, id, purpose); }
        case Marshal => MarshalKeeps(s, t);
        case CallContext => if p.Asking? { CallContextKeeps(s, t, p.slot, p.closing, p.carried); }
        case CloseSession => if p.Leaving? { CloseKeeps(s, t, p.slot); }
        case FreeContext => if p.Closed? { FreeContextKeeps(s, t, p.slot); }
        case CreateCard => if p.Joining? { CreateCardKeeps(s, t, p.slot); }
        case Connect(answer) => if p.Introducing? { ConnectKeeps(s, t, p.slot, p.card, p.carried, answer); }
        case FinishConnect => if p.Answered? { FinishConnectKeeps(s, t, p.slot, p.card, p.from); }
        case FindCard(id) => if p.Ready? { FindCardKeeps(s, t, id); }
        case CallCard => if p.Calling? { CallCardKeeps(s, t, p.card, p.handle, p.held); }
      }
    }
  }

  lemma ExtendsSelf(s: State)
    ensures Extends(s, s)
  {
  }

  /** A client with any number of threads that has made no call yet. */
  function Start(threads: nat): (s: State)
  {
    State(seq(SLOTS, _ => Context(0, 0, None)), seq(SLOTS, _ => Card(0, 0, 0)), seq(threads, _ => Ready),
          map[], {}, 0, [], map[], {}, [])
  }

  lemma StartsWell(threads: nat)
    ensures Invariant(Start(threads))
  {
  }

  /** However the threads interleave: the tables stay proper, cards and connections keep together. */
  lemma {:induction false} EveryRunKeeps(threads: nat, steps: seq<(nat, Action)>)
    ensures Invariant(Run(Start(threads), steps))
  {
    hide Invariant, Next, Start;
    if steps == [] {
      StartsWell(threads);
    } else {
      var n := |steps| - 1;
      EveryRunKeeps(threads, steps[..n]);
      NextKeeps(Run(Start(threads), steps[..n]), steps[n].0, steps[n].1);
    }
  }

  /** A card once connected keeps its name, its library handle and its context for the rest of the run. */
  lemma {:induction false} ConnectedForever(threads: nat, steps: seq<(nat, Action)>, more: seq<(nat, Action)>)
    ensures Extends(Run(Start(threads), steps), Run(Start(threads), steps + more))
    decreases |more|
  {
    hide Invariant, Next, Start;
    var s := Run(Start(threads), steps);
    if more == [] {
      assert steps + more == steps;
      ExtendsSelf(s);
    } else {
      var n := |more| - 1;
      var all := steps + more;
      ConnectedForever(threads, steps, more[..n]);
      assert all[..|all| - 1] == steps + more[..n];
      EveryRunKeeps(threads, steps + more[..n]);
      NextKeeps(Run(Start(threads), steps + more[..n]), more[n].0, more[n].1);
    }
  }

  lemma {:induction false} Fewer(js: set<nat>, n: nat)
    requires forall j :: j in js ==> j < n
    ensures |js| <= n
  {
    if n > 0 {
      Fewer(js - {n - 1}, n - 1);
    } else {
      assert js == {};
    }
  }

  /**
   * In every state a run can reach: at most 64 cards are connected, looking up the name of one finds its
   * own slot with its library handle and context, and what is not free is its own id.
   */
  lemma {:induction false} ConnectedCards(threads: nat, steps: seq<(nat, Action)>)
    ensures var s := Run(Start(threads), steps);
            && |s.joined| <= SLOTS
            && (forall j :: j in s.joined ==>
                  && Find(CardIds(s.cards), CARD_MAGIC, CARD_MAGIC + j) == Found.At(j)
                  && s.cards[j].handle == s.joined[j].handle && s.cards[j].context == s.joined[j].slot)
            && TablesProper(s)
  {
    hide Run;
    EveryRunKeeps(threads, steps);
    var s := Run(Start(threads), steps);
    forall j | j in s.joined
      ensures Find(CardIds(s.cards), CARD_MAGIC, CARD_MAGIC + j) == Found.At(j)
    {
      FindExact(CardIds(s.cards), CARD_MAGIC, CARD_MAGIC + j);
    }
    Fewer(s.joined.Keys, SLOTS);
  }

  /**
   * Routing: in every state a run can reach, the session a card call would go out on is the one the card
   * was connected over exactly as long as that has not been closed.
   */
  lemma {:induction false} CardCallsOnTheirConnection(threads: nat, steps: seq<(nat, Action)>, j: nat)
    requires j in Run(Start(threads), steps).joined
    ensures j < SLOTS
    ensures var s := Run(Start(threads), steps);
            s.contexts[s.cards[j].context].session == Some(s.joined[j].session) <==> s.joined[j].session !in s.closed
  {
    hide Run;
    EveryRunKeeps(threads, steps);
  }

  // ---- the calls that went out

  /** What a thread carries is what it was: handles over the connections they were issued on. */
  ghost predicate Carries(s: State, p: Thread)
  {
    match p
    case Greeted(i, from) =>
      from.Some? ==> Linked(s, i, from.value.1) && (from.value.1, Wrap32(from.value.0)) in s.issued
    case Asking(i, _, c) => CameFrom(s, i, c)
    case Introducing(i, _, c) => CameFrom(s, i, c)
    case Calling(j, handle, held) =>
      held.Some? ==> j in s.joined && s.joined[j] == held.value && handle == held.value.handle
    case _ => true
  }

  ghost predicate CameFrom(s: State, i: nat, c: Carried)
  {
    if c.origin.None? then c.handle == 0
    else Linked(s, i, c.origin.value) && (c.origin.value, c.handle) in s.issued
  }

  ghost predicate OriginsKept(s: State)
  {
    forall i :: 0 <= i < SLOTS ==> CameFrom(s, i, Read(s, i))
  }

  /** A call on a connected card carried its handle, on the card's own connection exactly if that was open. */
  ghost predicate WellSent(s: State, e: Sent)
  {
    e.held.Some? ==>
      && e.card in s.joined && s.joined[e.card] == e.held.value
      && e.handle == e.held.value.handle
      && (e.session == Some(e.held.value.session) <==> e.open)
  }

  /** A context's handle came from its connection, and went out on it exactly if that was open. */
  ghost predicate WellAsked(s: State, e: Asked)
  {
    if e.carried.origin.None? then e.carried.handle == 0
    else
      && (e.carried.origin.value, e.carried.handle) in s.issued
      && (e.session == e.carried.origin <==> e.open)
  }

  ghost predicate Logged(s: State)
  {
    && OriginsKept(s)
    && (forall t :: 0 <= t < |s.threads| ==> Carries(s, s.threads[t]))
    && (forall n :: 0 <= n < |s.sent| ==> WellSent(s, s.sent[n]))
    && (forall n :: 0 <= n < |s.asked| ==> WellAsked(s, s.asked[n]))
  }

  /** Connections stay where they are until they are closed, and what was issued or connected stays so. */
  ghost predicate Grows(s: State, s': State)
  {
    (forall i, k :: Linked(s, i, k) ==> Linked(s', i, k)) && s.issued <= s'.issued && Extends(s, s')
  }

  lemma NextGrows(s: State, t: nat, a: Action)
    requires Invariant(s)
    ensures Grows(s, Next(s, t, a))
  {
    NextKeeps(s, t, a);
    SessionsMove(s, t, a);
    hide Next, Invariant, Extends;
  }

  lemma SessionsMove(s: State, t: nat, a: Action)
    ensures var s' := Next(s, t, a);
            && s.next <= s'.next && s.closed <= s'.closed && s.issued <= s'.issued
            && forall i :: 0 <= i < SLOTS && s.contexts[i].session.Some? ==>
                 s'.contexts[i].session == s.contexts[i].session || s.contexts[i].session.value in s'.closed
  {
    hide FreeCard, Find, LowestFree;
  }

  /** What a step leaves alone is still logged. */
  lemma StillLogged(s: State, s': State, t: nat, p: Thread)
    requires Logged(s) && Grows(s, s') && t < |s.threads| && s'.threads == s.threads[t := p]
    requires OriginsKept(s') && Carries(s', p)
    requires s'.sent == s.sent
             || (|s'.sent| == |s.sent| + 1 && s'.sent[..|s.sent|] == s.sent && WellSent(s', s'.sent[|s.sent|]))
    requires s'.asked == s.asked
             || (|s'.asked| == |s.asked| + 1 && s'.asked[..|s.asked|] == s.asked && WellAsked(s', s'.asked[|s.asked|]))
    ensures Logged(s')
  {
    hide Linked;
    forall u | 0 <= u < |s.threads|
      ensures Carries(s', s'.threads[u])
    {
      assert Carries(s, s.threads[u]);
    }
    forall n | 0 <= n < |s.sent|
      ensures WellSent(s', s'.sent[n])
    {
      assert s'.sent[n] == s.sent[n] && WellSent(s, s.sent[n]);
    }
    forall n | 0 <= n < |s.asked|
      ensures WellAsked(s', s'.asked[n])
    {
      assert s'.asked[n] == s.asked[n] && WellAsked(s, s.asked[n]);
    }
  }

  lemma OriginsStay(s: State, s': State)
    requires OriginsKept(s) && Grows(s, s') && s'.origin == s.origin
    requires forall i :: 0 <= i < SLOTS ==> s'.contexts[i].handle == s.contexts[i].handle
    ensures OriginsKept(s')
  {
    hide Linked;
    forall i | 0 <= i < SLOTS
      ensures CameFrom(s', i, Read(s', i))
    {
      assert CameFrom(s, i, Read(s, i));
    }
  }

  /** A step that stores no handle of a context and sends nothing. */
  lemma QuietLogged(s: State, s': State, t: nat, p: Thread)
    requires Logged(s) && Grows(s, s') && t < |s.threads| && s'.threads == s.threads[t := p] && Carries(s', p)
    requires s'.origin == s.origin && s'.sent == s.sent && s'.asked == s.asked
    requires forall i :: 0 <= i < SLOTS ==> s'.contexts[i].handle == s.contexts[i].handle
    ensures Logged(s')
  {
    OriginsStay(s, s');
    hide OriginsKept, Carries, WellSent, WellAsked, Grows;
    StillLogged(s, s', t, p);
  }

  lemma EstablishLogged(s: State, t: nat, i: nat, reachable: bool, answer: Option<int>)
    requires Invariant(s) && Logged(s) && t < |s.threads| && s.threads[t] == Opening(i) && i < SLOTS
    requires Grows(s, DoEstablish(s, t, i, reachable, answer))
    ensures Logged(DoEstablish(s, t, i, reachable, answer))
  {
    var s' := DoEstablish(s, t, i, reachable, answer);
    assert Carries(s', s'.threads[t]);
    hide Invariant, Logged, Grows, Carries;
    QuietLogged(s, s', t, s'.threads[t]);
  }

  lemma FinishEstablishLogged(s: State, t: nat, i: nat, from: Option<(int, nat)>)
    requires Logged(s) && t < |s.threads| && s.threads[t] == Greeted(i, from) && i < SLOTS
    requires Grows(s, DoFinishEstablish(s, t, i, from))
    ensures Logged(DoFinishEstablish(s, t, i, from))
  {
    var s' := DoFinishEstablish(s, t, i, from);
    assert Carries(s, s.threads[t]);
    if from.Some? {
      forall n | 0 <= n < SLOTS
        ensures CameFrom(s', n, Read(s', n))
      {
        assert CameFrom(s, n, Read(s, n));
      }
      assert OriginsKept(s');
      hide OriginsKept, Logged, Grows, Linked;
      StillLogged(s, s', t, Ready);
    } else {
      hide Logged, Grows, Linked;
      QuietLogged(s, s', t, Ready);
    }
  }

  lemma MarshalLogged(s: State, t: nat)
    requires Invariant(s) && Logged(s) && t < |s.threads| && InTable(s.threads[t]) && Grows(s, DoMarshal(s, t))
    ensures Logged(DoMarshal(s, t))
  {
    var s' := DoMarshal(s, t);
    var p := s.threads[t];
    if p.InContext? || p.Connecting? {
      assert CameFrom(s, p.slot, Read(s, p.slot));
    }
    assert Carries(s', s'.threads[t]);
    hide Invariant, Logged, Grows, Carries, Linked;
    if s' != s {
      QuietLogged(s, s', t, s'.threads[t]);
    }
  }

  /** The session a context slot has now is the one its message's handle came from exactly if that is open. */
  lemma AskedWell(s: State, i: nat, c: Carried)
    requires SessionsKept(s) && i < SLOTS && CameFrom(s, i, c)
    ensures var s' := Ask(s, i, c); WellAsked(s', s'.asked[|s.asked|])
  {
  }

  lemma CallContextLogged(s: State, t: nat, i: nat, closing: bool, c: Carried)
    requires Invariant(s) && Logged(s) && t < |s.threads| && s.threads[t] == Asking(i, closing, c) && i < SLOTS
    requires Grows(s, DoCallContext(s, t, i, closing, c))
    ensures Logged(DoCallContext(s, t, i, closing, c))
  {
    assert Carries(s, s.threads[t]);
    AskedWell(s, i, c);
    var s' := DoCallContext(s, t, i, closing, c);
    OriginsStay(s, s');
    hide Invariant, Logged, Grows, Linked, OriginsKept, CameFrom;
    StillLogged(s, s', t, s'.threads[t]);
  }

  lemma ConnectLogged(s: State, t: nat, i: nat, j: nat, c: Carried, answer: Option<int>)
    requires Invariant(s) && Logged(s) && t < |s.threads| && s.threads[t] == Introducing(i, j, c) && i < SLOTS
             && j < SLOTS
    requires Grows(s, DoConnect(s, t, i, j, c, answer))
    ensures Logged(DoConnect(s, t, i, j, c, answer))
  {
    assert Carries(s, s.threads[t]);
    AskedWell(s, i, c);
    var s' := DoConnect(s, t, i, j, c, answer);
    OriginsStay(s, s');
    hide Invariant, Logged, Grows, Linked, OriginsKept, CameFrom;
    StillLogged(s, s', t, s'.threads[t]);
  }

  lemma CallCardLogged(s: State, t: nat, j: nat, handle: int, held: Option<Joined>)
    requires Invariant(s) && Logged(s) && t < |s.threads| && s.threads[t] == Calling(j, handle, held) && j < SLOTS
    requires Grows(s, DoCallCard(s, t, j, handle, held))
    ensures Logged(DoCallCard(s, t, j, handle, held))
  {
    assert Carries(s, s.threads[t]);
    var s' := DoCallCard(s, t, j, handle, held);
    assert WellSent(s', s'.sent[|s.sent|]);
    OriginsStay(s, s');
    hide Invariant, Logged, Grows, Linked, OriginsKept;
    StillLogged(s, s', t, Ready);
  }

  /** The steps that neither read a handle nor send one. */
  predicate Quiet(a: Action)
  {
    !a.Establish? && !a.FinishEstablish? && !a.Marshal? && !a.CallContext? && !a.Connect? && !a.CallCard?
  }

  lemma QuietSteps(s: State, t: nat, a: Action)
    requires Logged(s) && Quiet(a) && t < |s.threads|
    ensures var s' := Next(s, t, a);
            && s'.origin == s.origin && s'.sent == s.sent && s'.asked == s.asked && s'.issued == s.issued
            && (forall i :: 0 <= i < SLOTS ==> s'.contexts[i].handle == s.contexts[i].handle)
            && |s'.threads| == |s.threads| && s'.threads == s.threads[t := s'.threads[t]] && Carries(s', s'.threads[t])
  {
    assert Carries(s, s.threads[t]);
    hide FreeCard, Find, LowestFree, Logged;
  }

  lemma NextLogs(s: State, t: nat, a: Action)
    requires Invariant(s) && Logged(s)
    ensures Logged(Next(s, t, a))
  {
    NextGrows(s, t, a);
    hide Invariant, Logged, Grows, Carries, DoEstablish, DoFinishEstablish, DoMarshal, DoCallContext, DoConnect,
      DoCallCard, DoCreateContext, DoFindContext, DoClose, DoCreateCard, DoFinishConnect, DoFindCard, FreeSlot, Move;
    if t < |s.threads| && InTable(s.threads[t]) {
      var p := s.threads[t];
      match a {
        case Establish(reachable, answer) => if p.Opening? { EstablishLogged(s, t, p.slot, reachable, answer); }
        case FinishEstablish => if p.Greeted? { FinishEstablishLogged(s, t, p.slot, p.from); }
        case Marshal => MarshalLogged(s, t);
        case CallContext => if p.Asking? { CallContextLogged(s, t, p.slot, p.closing, p.carried); }
        case Connect(answer) => if p.Introducing? { ConnectLogged(s, t, p.slot, p.card, p.carried, answer); }
        case CallCard => if p.Calling? { CallCardLogged(s, t, p.card, p.handle, p.held); }
        case _ =>
          QuietSteps(s, t, a);
          var s' := Next(s, t, a);
          QuietLogged(s, s', t, s'.threads[t]);
      }
    }
  }

  lemma StartLogged(threads: nat)
    ensures Logged(Start(threads))
  {
  }

  lemma {:induction false} RunLogged(threads: nat, steps: seq<(nat, Action)>)
    ensures Logged(Run(Start(threads), steps))
  {
    hide Invariant, Next, Start, Logged;
    if steps == [] {
      StartLogged(threads);
    } else {
      var n := |steps| - 1;
      RunLogged(threads, steps[..n]);
      EveryRunKeeps(threads, steps[..n]);
      NextLogs(Run(Start(threads), steps[..n]), steps[n].0, steps[n].1);
    }
  }

  /**
   * Routing, call by call: in every interleaving each call made on a connected card carried the handle its
   * connect returned, and it went out on the connection that handle came from exactly if that was open.
   */
  lemma {:induction false} CallsRouted(threads: nat, steps: seq<(nat, Action)>, n: nat)
    requires n < |Run(Start(threads), steps).sent|
    ensures var s := Run(Start(threads), steps); WellSent(s, s.sent[n])
  {
    hide Run, Start, WellSent;
    RunLogged(threads, steps);
  }

  /**
   * Likewise for contexts: each call, release or connect carried a handle that was issued over the
   * connection its slot's handle came from when it was read, and went out on that connection exactly if it
   * was still open; or the handle 0 of a slot in which no establish has finished yet.
   */
  lemma {:induction false} ContextCallsRouted(threads: nat, steps: seq<(nat, Action)>, n: nat)
    requires n < |Run(Start(threads), steps).asked|
    ensures var s := Run(Start(threads), steps); WellAsked(s, s.asked[n])
  {
    hide Run, Start, WellAsked;
    RunLogged(threads, steps);
  }
}
