/** The connections of a client process, each with the server process forked for it. */
module Connections {
  import opened Bytes
  import opened Message
  import opened Pcsc
  import opened RequestDelivery
  import opened Framing
  import opened Server
  import opened Exchange
  import opened Proxy

  type Arrivals = s: seq<Arrival> | forall i :: 0 <= i < |s| ==> s[i].Deliver?
  type Departures = s: seq<Departure> | forall i :: 0 <= i < |s| ==> !s[i].SendFailed?

  /** How the recv and send calls of one connection move its bytes, in both directions. */
  datatype Chunking = Chunking(upIn: Arrivals, upOut: Departures, downIn: Arrivals, downOut: Departures)

  method NewSession(library: Library, chunks: Chunking) returns (session: Session)
    requires Lawful(library)
    ensures fresh(session.Wires()) && session.Idle()
    ensures session.process.library == library && session.process.history == []
  {
    hide Lawful;
    var up := new Pipe(chunks.upIn, chunks.upOut);
    var down := new Pipe(chunks.downIn, chunks.downOut);
    var process := new Process(library);
    session := new Session(up, down, process);
  }

  class Peers {
    const libs: Libraries
    // any chunking for every connection
    const chunking: nat -> Chunking
    var sessions: seq<Session>
    // what each server process has been asked
    ghost var servers: seq<seq<Call>>
    ghost var Repr: set<object>

    constructor (libs: Libraries, chunking: nat -> Chunking)
      ensures this.libs == libs && this.chunking == chunking && sessions == [] && servers == []
      ensures Valid() && fresh(Repr)
    {
      this.libs, this.chunking, sessions, servers := libs, chunking, [], [];
      Repr := {this};
    }

    /** No two connections share anything, and one that is in step is idle between two calls. */
    ghost predicate Valid()
      reads this, Repr
    {
      && this in Repr && |servers| == |sessions|
      && (forall k :: 0 <= k < |sessions| ==> Kept(k))
      && (forall j, k :: 0 <= j < k < |sessions| ==> sessions[j].Wires() !! sessions[k].Wires())
    }

    ghost predicate Kept(k: nat)
      requires k < |sessions| == |servers|
      reads this, Repr
    {
      var x := sessions[k];
      && x.Wires() <= Repr && this !in x.Wires()
      && x.process.library == libs(k) && x.process.history == servers[k]
      && (InStep(libs(k), servers[k]) ==> x.Idle())
    }

    /** Nothing is left on any connection. */
    ghost predicate AllIdle()
      reads this, Repr
    {
      forall k :: 0 <= k < |sessions| ==> sessions[k].Wires() <= Repr && sessions[k].Idle()
    }

    /** Connecting forks a server process that has been asked nothing. */
    method Connect()
      requires Valid() && AllLawful(libs)
      modifies this
      ensures Valid() && fresh(Repr - old(Repr)) && servers == old(servers) + [[]]
    {
      hide InStep, Lawful, Session.Idle;
      assert Lawful(libs(|sessions|));
      ghost var n := |sessions|;
      var session := NewSession(libs(|sessions|), chunking(|sessions|));
      sessions, servers, Repr := sessions + [session], servers + [[]], Repr + session.Wires();
      forall k | 0 <= k <= n
        ensures Kept(k)
      {
        assert k < n ==> old(Kept(k));
      }
    }

    /** pp_exchangeMsg on a context's session, marshalling and unmarshalling included. */
    method Forward(c: Call, session: Option<nat>, h: int, stack: array<byte>) returns (r: Option<Reply>)
      requires Valid() && AllLawful(libs) && AllInStep(libs, servers)
      requires Sendable(c) && !c.SetTimeout? && stack.Length == MAX_LEN && stack !in Repr
      modifies Repr, stack
      ensures Valid() && Repr == old(Repr)
      ensures (r, servers) == Transact(libs, old(servers), session, c, h, old(stack[..]))
    {
      hide Sendable, Lawful, Wire, Forwarded, InStep, AnswerFits;
      r := None;
      if session.Some? && session.value < |sessions| {
        var k := session.value;
        assert Kept(k);
        assert Lawful(libs(k)) && InStep(libs(k), servers[k]);
        MoreInStep(libs(k), servers[k], c, h);
        r := sessions[k].Forward(c, h, stack);
        servers := servers[k := sessions[k].process.history];
        forall j | 0 <= j < |sessions|
          ensures Kept(j)
        {
          assert old(Kept(j));
        }
      }
    }
  }

  lemma InStepIdle(peers: Peers)
    requires peers.Valid() && AllInStep(peers.libs, peers.servers)
    ensures peers.AllIdle()
  {
    hide InStep;
    forall k | 0 <= k < |peers.sessions|
      ensures peers.sessions[k].Wires() <= peers.Repr && peers.sessions[k].Idle()
    {
      assert peers.Kept(k) && InStep(peers.libs(k), peers.servers[k]);
    }
  }

  lemma MoreInStep(lib: Library, history: seq<Call>, c: Call, h: int)
    requires Sendable(c) && InStep(lib, history)
    ensures var f := Forwarded(c, h);
            InStep(lib, history + [f]) ==> AnswerFits(f, lib(history + [f]))
  {
    hide Forwarded, AnswerFits, InStep;
    InStepMore(lib, history, Forwarded(c, h));
  }
}
