/**
 * The application that calls the library in every server process itself, under the proxy's names for
 * the handles; and the theorem that a client process behaves like it.
 */
module DirectUse {
  import opened Bytes
  import opened Pcsc
  import opened Client
  import opened RequestDelivery
  import opened AnswerDelivery
  import opened Handles
  import opened Proxy

  datatype HeldContext = HeldContext(handle: int, server: nat)
  datatype HeldCard = HeldCard(handle: int, context: int, server: nat)

  /** Names of open handles; `spare` has the connections that failed establish calls left behind. */
  datatype Direct = Direct(
    contexts: map<int, HeldContext>, cards: map<int, HeldCard>, spare: map<int, nat>, servers: seq<seq<Call>>)

  /** What a call comes to: an error code of the proxy's own, or a library call and its answer. */
  datatype Outcome = Refused(rv: int) | Performed(call: Call, answer: Reply, name: int)

  ghost predicate Rooted(d: Direct)
  {
    && (forall id :: id in d.contexts ==> d.contexts[id].server < |d.servers|)
    && (forall id :: id in d.cards ==> d.cards[id].server < |d.servers|)
    && (forall id :: id in d.spare ==> d.spare[id] < |d.servers|)
  }

  ghost function NamesIn(keys: set<int>, magic: int): (ids: Ids)
    ensures forall i :: 0 <= i < SLOTS ==> ids[i] == if magic + i in keys then magic + i else 0
  {
    seq(SLOTS, i requires 0 <= i < SLOTS => if magic + i in keys then magic + i else 0)
  }

  /** The library of server k is called with f. */
  ghost function CallIn(libs: Libraries, servers: seq<seq<Call>>, k: nat, f: Call): (r: (Reply, seq<seq<Call>>))
    requires k < |servers|
  {
    var history := servers[k] + [f];
    (libs(k)(history), servers[k := history])
  }

  /** The name id for a context the answer a opened on connection k, or the connection left behind. */
  function NewContext(d: Direct, id: int, k: nat, a: Reply, servers: seq<seq<Call>>): (d': Direct)
  {
    if a.rv == SUCCESS && a.Opened? then
      Direct(d.contexts[id := HeldContext(a.handle, k)], d.cards, d.spare - {id}, servers)
    else Direct(d.contexts, d.cards, d.spare[id := k], servers)
  }

  /** The name for a card the answer a connected in context id. */
  function NewCard(d: Direct, name: int, id: int, k: nat, a: Reply, servers: seq<seq<Call>>): (d': Direct)
  {
    if a.rv == SUCCESS && a.Connected? then
      Direct(d.contexts, d.cards[name := HeldCard(a.handle, id, k)], d.spare, servers)
    else Direct(d.contexts, d.cards, d.spare, servers)
  }

  ghost function DirectEstablish(libs: Libraries, d: Direct, c: Call, reachable: bool): (r: (Direct, Outcome))
    requires AllLawful(libs) && Rooted(d) && c.EstablishContext?
    ensures Rooted(r.0)
  {
    var i := LowestFree(NamesIn(d.contexts.Keys, CONTEXT_MAGIC));
    var id := CONTEXT_MAGIC + i;
    if i == SLOTS || (id !in d.spare && !reachable) then (d, Refused(INTERNAL_ERROR))
    else
      var k := if id in d.spare then d.spare[id] else |d.servers|;
      var f := Narrowed(c, 0);
      var (a, servers) := CallIn(libs, if id in d.spare then d.servers else d.servers + [[]], k, f);
      (NewContext(d, id, k, a, servers), Performed(f, a, id))
  }

  ghost function DirectConnect(libs: Libraries, d: Direct, c: Call, id: int): (r: (Direct, Outcome))
    requires AllLawful(libs) && Rooted(d) && c.Connect? && Admitted(c) && id in d.contexts
    ensures Rooted(r.0)
  {
    var j := LowestFree(NamesIn(d.cards.Keys, CARD_MAGIC));
    if j == SLOTS then (d, Refused(INTERNAL_ERROR))
    else
      var name, k, f := CARD_MAGIC + j, d.contexts[id].server, Narrowed(c, d.contexts[id].handle);
      var (a, servers) := CallIn(libs, d.servers, k, f);
      (NewCard(d, name, id, k, a, servers), Performed(f, a, name))
  }

  ghost function DirectContextCall(libs: Libraries, d: Direct, c: Call, id: int): (r: (Direct, Outcome))
    requires AllLawful(libs) && Rooted(d) && Admitted(c) && id in d.contexts
    ensures Rooted(r.0)
  {
    var k, f := d.contexts[id].server, Narrowed(c, d.contexts[id].handle);
    var (a, servers) := CallIn(libs, d.servers, k, f);
    var contexts := if c.ReleaseContext? then d.contexts - {id} else d.contexts;
    (Direct(contexts, d.cards, d.spare, servers), Performed(f, a, id))
  }

  ghost function DirectCardCall(libs: Libraries, d: Direct, c: Call, id: int): (r: (Direct, Outcome))
    requires AllLawful(libs) && Rooted(d) && Admitted(c) && id in d.cards
    ensures Rooted(r.0)
  {
    var k, f := d.cards[id].server, Narrowed(c, d.cards[id].handle);
    var (a, servers) := CallIn(libs, d.servers, k, f);
    (Direct(d.contexts, d.cards, d.spare, servers), Performed(f, a, id))
  }

  /** One call made directly: on the handle the name stands for, in the process that handle came from. */
  ghost function DirectStep(libs: Libraries, d: Direct, c: Call, reachable: bool): (r: (Direct, Outcome))
    requires AllLawful(libs) && Rooted(d) && Forwardable(c)
    ensures Rooted(r.0)
  {
    if c.EstablishContext? then DirectEstablish(libs, d, c, reachable)
    else if c.Connect? && ArgumentError(c) != SUCCESS then (d, Refused(ArgumentError(c)))
    else
      var id := Wrap32(c.handle);
      if OnContext(c) then
        if id !in d.contexts then (d, Refused(INTERNAL_ERROR))
        else if ArgumentError(c) != SUCCESS then (d, Refused(ArgumentError(c)))
        else if c.Connect? then DirectConnect(libs, d, c, id)
        else DirectContextCall(libs, d, c, id)
      else if id !in d.cards then (d, Refused(INVALID_VALUE))
      else if ArgumentError(c) != SUCCESS then (d, Refused(ArgumentError(c)))
      else DirectCardCall(libs, d, c, id)
  }

  /**
   * The caller of the proxy learns what the direct caller does: the same refusals; the same data, with a
   * name for a new handle; and where a failed call has output buffers, all that the library reported, unless
   * the client refuses a length. A release always succeeds.
   */
  ghost predicate SameResult(c: Call, o: Outcome, r: Reply)
  {
    match o
    case Refused(rv) => r == Code(rv)
    case Performed(f, a, name) =>
      && Admitted(c) && Answers(f, a) && (exists k :: f == Narrowed(c, k))
      && if c.ReleaseContext? then r == Code(SUCCESS)
         else if c.EstablishContext? then r == if a.rv == SUCCESS then Opened(SUCCESS, name) else Code(a.rv)
         else if c.Connect? then r == if a.rv == SUCCESS then Connected(SUCCESS, name, a.protocol) else Code(a.rv)
         else if a.rv == SUCCESS || Exact(c) then r == Seen(c, f, a)
         else if CodeKept(c, a) then Reports(c, a, r)
         else r == Code(INTERNAL_ERROR)
  }
}
