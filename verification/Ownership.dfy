/** Each server process is only ever given handles that its own library issued. */
module Ownership {
  import opened Bytes
  import opened Pcsc
  import opened Client
  import opened RequestDelivery
  import opened Handles
  import opened Proxy
  import opened DirectUse
  import opened Refinement
  import opened Runs

  /** The call c, answered by a, handed out the card or context handle h. */
  predicate Opens(c: Call, a: Reply, card: bool, h: int)
  {
    && a.rv == SUCCESS
    && if card then c.Connect? && a.Connected? && a.handle == h
       else c.EstablishContext? && a.Opened? && a.handle == h
  }

  ghost predicate Issued(lib: Library, history: seq<Call>, card: bool, h: int)
  {
    exists n :: 0 <= n < |history| && Opens(history[n], lib(history[..n + 1]), card, h)
  }

  /** A call after `before` is about a handle issued before. SCardCancelTransaction is a cancel there. */
  ghost predicate OwnCall(lib: Library, before: seq<Call>, f: Call)
  {
    && (OnCard(f) ==> Issued(lib, before, true, f.handle))
    && (OnContext(f) ==> Issued(lib, before, false, f.handle))
  }

  ghost predicate OwnHandles(lib: Library, history: seq<Call>)
  {
    forall n :: 0 <= n < |history| ==> OwnCall(lib, history[..n], history[n])
  }

  ghost predicate Backed(libs: Libraries, d: Direct)
  {
    && Rooted(d)
    && (forall k :: 0 <= k < |d.servers| ==> OwnHandles(libs(k), d.servers[k]))
    && (forall id :: id in d.contexts ==>
          Issued(libs(d.contexts[id].server), d.servers[d.contexts[id].server], false, d.contexts[id].handle))
    && (forall id :: id in d.cards ==>
          Issued(libs(d.cards[id].server), d.servers[d.cards[id].server], true, d.cards[id].handle))
  }

  lemma IssuedMore(lib: Library, history: seq<Call>, f: Call, card: bool, h: int)
    requires Issued(lib, history, card, h) || Opens(f, lib(history + [f]), card, h)
    ensures Issued(lib, history + [f], card, h)
  {
    var more := history + [f];
    if Issued(lib, history, card, h) {
      var n :| 0 <= n < |history| && Opens(history[n], lib(history[..n + 1]), card, h);
      assert more[..n + 1] == history[..n + 1];
      assert Opens(more[n], lib(more[..n + 1]), card, h);
    } else {
      assert more[..|history| + 1] == more;
      assert Opens(more[|history|], lib(more[..|history| + 1]), card, h);
    }
  }

  lemma OwnMore(lib: Library, history: seq<Call>, f: Call)
    requires OwnHandles(lib, history) && OwnCall(lib, history, f)
    ensures OwnHandles(lib, history + [f])
  {
    hide OwnCall;
    var more := history + [f];
    forall n | 0 <= n < |more|
      ensures OwnCall(lib, more[..n], more[n])
    {
      assert more[..n] == history[..n];
      assert history[..|history|] == history;
    }
  }

  lemma BackedCall(libs: Libraries, d: Direct, k: nat, f: Call)
    requires Backed(libs, d) && k < |d.servers| && OwnCall(libs(k), d.servers[k], f)
    ensures Backed(libs, d.(servers := d.servers[k := d.servers[k] + [f]]))
  {
    hide Issued, OwnHandles, OwnCall;
    var d' := d.(servers := d.servers[k := d.servers[k] + [f]]);
    OwnMore(libs(k), d.servers[k], f);
    forall id | id in d.contexts
      ensures Issued(libs(d.contexts[id].server), d'.servers[d.contexts[id].server], false, d.contexts[id].handle)
    {
      if d.contexts[id].server == k {
        IssuedMore(libs(k), d.servers[k], f, false, d.contexts[id].handle);
      }
    }
    forall id | id in d.cards
      ensures Issued(libs(d.cards[id].server), d'.servers[d.cards[id].server], true, d.cards[id].handle)
    {
      if d.cards[id].server == k {
        IssuedMore(libs(k), d.servers[k], f, true, d.cards[id].handle);
      }
    }
  }

  lemma BackedEstablish(libs: Libraries, d: Direct, c: Call, reachable: bool)
    requires AllLawful(libs) && Backed(libs, d) && c.EstablishContext?
    ensures Backed(libs, DirectEstablish(libs, d, c, reachable).0)
  {
    hide Issued, OwnHandles, AllLawful, NamesIn, LowestFree;
    var i := LowestFree(NamesIn(d.contexts.Keys, CONTEXT_MAGIC));
    var id := CONTEXT_MAGIC + i;
    if i < SLOTS && (id in d.spare || reachable) {
      var d1, k := d, |d.servers|;
      if id in d.spare {
        k := d.spare[id];
      } else {
        NothingOwned(libs(k));
        d1 := d.(servers := d.servers + [[]]);
      }
      assert Backed(libs, d1);
      var f := Narrowed(c, 0);
      BackedCall(libs, d1, k, f);
      var a := libs(k)(d1.servers[k] + [f]);
      if a.rv == SUCCESS && a.Opened? {
        IssuedMore(libs(k), d1.servers[k], f, false, a.handle);
      }
    }
  }

  lemma NothingOwned(lib: Library)
    ensures OwnHandles(lib, [])
  {
  }

  lemma BackedConnect(libs: Libraries, d: Direct, c: Call, id: int)
    requires AllLawful(libs) && Backed(libs, d) && c.Connect? && Admitted(c) && id in d.contexts
    ensures Backed(libs, DirectConnect(libs, d, c, id).0)
  {
    hide Issued, OwnHandles, AllLawful;
    var k, f := d.contexts[id].server, Narrowed(c, d.contexts[id].handle);
    BackedCall(libs, d, k, f);
    var a := libs(k)(d.servers[k] + [f]);
    if a.rv == SUCCESS && a.Connected? {
      IssuedMore(libs(k), d.servers[k], f, true, a.handle);
    }
  }

  lemma BackedCardCall(libs: Libraries, d: Direct, c: Call, id: int)
    requires AllLawful(libs) && Backed(libs, d) && OnCard(c) && Admitted(c) && id in d.cards
    ensures Backed(libs, DirectCardCall(libs, d, c, id).0)
  {
    hide Issued, OwnHandles, AllLawful;
    BackedCall(libs, d, d.cards[id].server, Narrowed(c, d.cards[id].handle));
  }

  lemma BackedContextCall(libs: Libraries, d: Direct, c: Call, id: int)
    requires AllLawful(libs) && Backed(libs, d) && OnContext(c) && !c.Connect? && Admitted(c) && id in d.contexts
    ensures Backed(libs, DirectContextCall(libs, d, c, id).0)
  {
    hide Issued, OwnHandles, AllLawful;
    BackedCall(libs, d, d.contexts[id].server, Narrowed(c, d.contexts[id].handle));
  }

  lemma BackedStep(libs: Libraries, d: Direct, c: Call, reachable: bool)
    requires AllLawful(libs) && Backed(libs, d) && Forwardable(c)
    ensures Backed(libs, DirectStep(libs, d, c, reachable).0)
  {
    hide Backed, DirectEstablish, DirectConnect, DirectContextCall, DirectCardCall, AllLawful;
    if c.EstablishContext? {
      BackedEstablish(libs, d, c, reachable);
    } else if ArgumentError(c) == SUCCESS {
      var id := Wrap32(c.handle);
      if OnContext(c) && id in d.contexts {
        if c.Connect? {
          BackedConnect(libs, d, c, id);
        } else {
          BackedContextCall(libs, d, c, id);
        }
      } else if OnCard(c) && id in d.cards {
        BackedCardCall(libs, d, c, id);
      }
    }
  }

  lemma {:induction false} RunBacked(libs: Libraries, run: seq<Event>)
    requires AllLawful(libs) && AllForwardable(run)
    ensures Backed(libs, Directly(libs, run).0)
  {
    hide DirectStep, AllLawful, Forwardable;
    if run != [] {
      var n := |run| - 1;
      RunBacked(libs, run[..n]);
      hide Backed;
      BackedStep(libs, Directly(libs, run[..n]).0, run[n].call, run[n].chance.reachable);
    }
  }

  /** Over every orderly run of the proxy no server process receives a handle of another one. */
  lemma {:induction false} OnlyOwnHandles(libs: Libraries, run: seq<Event>)
    requires AllLawful(libs) && NarrowHandles(libs) && AllForwardable(run) && Orderly(libs, run)
    ensures var servers := Proxied(libs, run).0.servers;
            forall k :: 0 <= k < |servers| ==> OwnHandles(libs(k), servers[k])
  {
    hide OwnHandles, Related, Proxied, Directly, AllLawful, NarrowHandles;
    RunRefines(libs, run);
    RunBacked(libs, run);
  }
}
