/** src/client/pcsctest.c: ask for the size of the reader list, fetch it, and walk the multi-string. */
module Enumerate {
  import opened Bytes
  import opened Message
  import opened Pcsc
  import opened RequestDelivery
  import opened AnswerDelivery
  import opened Exchange

  predicate Names(ns: seq<seq<byte>>)
  {
    forall i :: 0 <= i < |ns| ==> ns[i] != [] && 0 !in ns[i]
  }

  /** Every name closed by a NUL, and one more at the end. */
  function Encode(ns: seq<seq<byte>>): (b: seq<byte>)
    ensures |b| > |ns|
  {
    if ns == [] then [0] else ns[0] + ([0] + Encode(ns[1..]))
  }

  /** The strings a walk over b meets. */
  function Visited(b: seq<byte>): (ns: seq<seq<byte>>)
    decreases |b|
  {
    var s := CString(b);
    if s == [] || |s| == |b| then [] else [s] + Visited(b[|s| + 1..])
  }

  lemma {:induction false} StringEnds(s: seq<byte>, rest: seq<byte>)
    requires 0 !in s
    ensures CString(s + [0] + rest) == s
  {
    var b := s + [0] + rest;
    if s != [] {
      StringEnds(s[1..], rest);
      assert b[0] == s[0] && s[0] in s;
      assert b[1..] == s[1..] + [0] + rest;
    }
  }

  /** A walk meets exactly the names that were encoded, whatever follows them. */
  lemma {:induction false} VisitedEncoded(ns: seq<seq<byte>>, rest: seq<byte>)
    requires Names(ns)
    ensures Visited(Encode(ns) + rest) == ns
  {
    var b := Encode(ns) + rest;
    if ns == [] {
      assert b[0] == 0;
    } else {
      hide CString;
      var tail := Encode(ns[1..]) + rest;
      assert b == ns[0] + [0] + tail;
      StringEnds(ns[0], tail);
      assert b[|ns[0]| + 1..] == tail;
      VisitedEncoded(ns[1..], rest);
      assert [ns[0]] + ns[1..] == ns;
    }
  }

  /** What lies at the start of name k of the list. */
  lemma NameAt(b: seq<byte>, p: nat, ns: seq<seq<byte>>, k: nat, rest: seq<byte>)
    requires Names(ns) && p < |b| && k <= |ns| && b[p..] == Encode(ns[k..]) + rest
    ensures k == |ns| <==> b[p] == 0
    ensures k < |ns| ==>
              var end := p + |ns[k]|;
              && end < |b| && b[end] == 0 && b[end + 1..] == Encode(ns[k + 1..]) + rest
              && (forall i :: p <= i < end ==> b[i] != 0)
              && CString(b[p..]) == ns[k]
  {
    if k < |ns| {
      var s, tail := ns[k], Encode(ns[k + 1..]) + rest;
      assert ns[k..][1..] == ns[k + 1..];
      assert b[p..] == s + [0] + tail;
      StringEnds(s, tail);
      forall i | p <= i < p + |s|
        ensures b[i] != 0
      {
        assert b[i] == b[p..][i - p] == s[i - p] && s[i - p] in s;
      }
      assert b[p + |s|] == b[p..][|s|];
      assert b[p + |s| + 1..] == b[p..][|s| + 1..] == tail;
    } else {
      assert b[p] == b[p..][0];
    }
  }

  /** The printing loop: every name in order, and never a read behind the buffer. */
  method Walk(m: array<byte>, ghost ns: seq<seq<byte>>) returns (printed: seq<seq<byte>>)
    requires Names(ns) && Encode(ns) <= m[..]
    ensures printed == ns == Visited(m[..])
  {
    hide Encode, Visited, CString, Names;
    ghost var b, rest := m[..], m[..][|Encode(ns)|..];
    assert b == Encode(ns) + rest;
    VisitedEncoded(ns, rest);
    printed := [];
    var p := 0;
    ghost var k := 0;
    NameAt(b, 0, ns, 0, rest);
    while m[p] != 0
      invariant 0 <= k <= |ns| && printed == ns[..k]
      invariant 0 <= p < m.Length && b[p..] == Encode(ns[k..]) + rest
      invariant k == |ns| <==> b[p] == 0
      decreases m.Length - p
    {
      NameAt(b, p, ns, k, rest);
      ghost var end := p + |ns[k]|;
      printed := printed + [CString(m[p..])];
      while m[p] != 0
        invariant p <= end < m.Length
        decreases end - p
      {
        p := p + 1;
      }
      p := p + 1;
      k := k + 1;
      NameAt(b, p, ns, k, rest);
    }
  }

  /** The library lists ns: the size for a query, the whole list into a buffer with room for it. */
  ghost predicate Lists(lib: Library, history: seq<Call>, ns: seq<seq<byte>>)
  {
    forall c: Call :: Listing(c, lib(history + [c]), Encode(ns))
  }

  predicate Listing(c: Call, a: Reply, list: seq<byte>)
  {
    && (c.ListReaders? && c.query ==> a == Reply.Names(SUCCESS, [], |list|))
    && (c.ListReaders? && !c.query && c.room >= |list| ==> a == Reply.Names(SUCCESS, list, |list|))
  }

  /** The size query reports the size of the whole list. */
  lemma QueryReports(lib: Library, history: seq<Call>, ns: seq<seq<byte>>, id: int, room: nat, h: int, stale: Image)
    requires Lawful(lib) && Lists(lib, history, ns) && room != AUTOALLOCATE
    ensures var c := ListReaders(id, true, room);
            && Sendable(c)
            && Wire(lib, history, c, h, stale)
                == (Some(Reply.Names(SUCCESS, [], |Encode(ns)|)), history + [Forwarded(c, h)])
  {
    hide Wire, Lawful, ForwardedRoom, Encode;
    var c := ListReaders(id, true, room);
    var f := Forwarded(c, h);
    assert Listing(f, lib(history + [f]), Encode(ns));
    WireReports(lib, history, c, h, stale);
  }

  /**
   * A fetch with a buffer of that size brings the whole list exactly when its encoding has at most 66538
   * bytes: one more and the answer is refused, two more and the library is given too little room.
   */
  lemma FetchBringsAll(lib: Library, history: seq<Call>, ns: seq<seq<byte>>, id: int, h: int, stale: Image)
    requires Lawful(lib) && Lists(lib, history, ns) && |Encode(ns)| < TWO_32
    ensures var c := ListReaders(id, false, |Encode(ns)|);
            && Sendable(c)
            && (|Encode(ns)| <= 66538 <==>
                  Wire(lib, history, c, h, stale).0 == Some(Reply.Names(SUCCESS, Encode(ns), |Encode(ns)|)))
  {
    hide Wire, Lawful, ForwardedRoom, Encode;
    var list := Encode(ns);
    var c := ListReaders(id, false, |list|);
    var f := Forwarded(c, h);
    RoomForAll(|list|);
    ListRoomCut(|list|);
    var a := lib(history + [f]);
    assert Listing(f, a, list);
    WireReports(lib, history, c, h, stale);
  }

  lemma RoomForAll(n: nat)
    requires n < TWO_32
    ensures ForwardedRoom(false, n) >= n <==> n <= MAX_LIST
  {
  }

  /** The size query of test2. */
  method QueryReaders(session: Session, stack: array<byte>, id: int, h: int, ghost ns: seq<seq<byte>>) returns (n: nat)
    requires session.Idle() && stack.Length == MAX_LEN && Lists(session.process.library, session.process.history, ns)
    modifies session.up, session.down, session.process, stack
    ensures session.Idle() && n == |Encode(ns)|
    ensures session.process.history == old(session.process.history) + [Forwarded(ListReaders(id, true, 0), h)]
  {
    var c := ListReaders(id, true, 0);
    QueryReports(session.process.library, session.process.history, ns, id, 0, h, stack[..]);
    WireReports(session.process.library, session.process.history, c, h, stack[..]);
    hide Encode, Wire, Lists, Lawful, Sendable, Reported, Answers, Short, Faithful, Forwarded, Session.Idle;
    var r := session.CallLibrary(c, h, stack);
    n := r.length;
  }

  /** The fetch into the buffer m. */
  method FetchReaders(session: Session, stack: array<byte>, id: int, h: int, m: array<byte>, ghost ns: seq<seq<byte>>)
    requires session.Idle() && stack.Length == MAX_LEN && m != stack && m.Length == |Encode(ns)| <= 66538
    requires Lists(session.process.library, session.process.history, ns)
    modifies session.up, session.down, session.process, stack, m
    ensures session.Idle() && m[..] == Encode(ns)
  {
    var c := ListReaders(id, false, m.Length);
    FetchBringsAll(session.process.library, session.process.history, ns, id, h, stack[..]);
    WireReports(session.process.library, session.process.history, c, h, stack[..]);
    hide Encode, Wire, Lists, Lawful, Sendable, Reported, Answers, Short, Faithful, Forwarded, Session.Idle;
    var r := session.CallLibrary(c, h, stack);
    Store(m, 0, r.data);
    assert m[..] == r.data;
  }

  /**
   * test2 between establishing and releasing its context, over a connection that chunks as it likes: all
   * names are printed in order. `id` is the context's id and h what its slot holds.
   */
  method PrintReaders(session: Session, stack: array<byte>, id: int, h: int, ghost ns: seq<seq<byte>>)
    returns (printed: seq<seq<byte>>)
    requires session.Idle() && stack.Length == MAX_LEN && Names(ns) && |Encode(ns)| <= 66538
    requires Lists(session.process.library, session.process.history, ns)
    requires forall f :: Lists(session.process.library, session.process.history + [f], ns)
    modifies session.up, session.down, session.process, stack
    ensures printed == ns
    ensures session.Idle()
  {
    hide Encode, Visited, Lists, Lawful, Names, Session.Idle, Forwarded;
    var n := QueryReaders(session, stack, id, h, ns);
    var m := new byte[n](_ => 0);
    FetchReaders(session, stack, id, h, m, ns);
    printed := Walk(m, ns);
  }
}
