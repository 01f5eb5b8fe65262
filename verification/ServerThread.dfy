/**
 * The ServerThread of PCSCProxyService.java and the threads that stop it, as interleaved steps. There are no
 * I/O errors, interrupts or spurious wakeups.
 */
module ServerThread {

  /** Where run() is. `Waiting` is inside stop.await(). */
  datatype Runner =
    | Created
    | Testing
    | Accepting
    | Holding(socket: nat)      // accept() has returned
    | Trusted(socket: nat)      // mStopping was still clear, and the peer may connect
    | Refused(socket: nat)      // about to be closed
    | Handed                    // the ConnectionThread has been started
    | Waiting
    | Signalled
    | Ended

  /** Where a call of cancelAndJoin() is. */
  datatype Canceller = Outside | Checked | Stopping | Signalling | Joining

  /** accepted: how many sockets accept() has returned; they are numbered from 0. */
  datatype State = State(
    runner: Runner, cancellers: seq<Canceller>, running: bool, stopping: bool, connection: bool,
    accepted: nat, handed: set<nat>, closed: set<nat>, started: nat, signals: nat)

  datatype Action =
    | Run(permitted: bool)      // the next step of run(); what checkPermission says, when it is asked
    | Cancel(who: nat)           // the next step of one cancelAndJoin()

  function Step(s: State, permitted: bool): (s': State)
  {
    match s.runner
    case Created => s.(running := true, runner := Testing)
    case Testing => s.(runner := if s.stopping then Ended else Accepting)
    case Accepting => s.(runner := Holding(s.accepted), accepted := s.accepted + 1)
    case Holding(k) =>
      if s.stopping then s.(closed := s.closed + {k}, runner := Ended)
      else s.(runner := if permitted then Trusted(k) else Refused(k))
    // startConnection refuses a second connection
    case Trusted(k) =>
      if s.connection then s.(runner := Refused(k))
      else s.(connection := true, started := s.started + 1, handed := s.handed + {k}, runner := Handed)
    case Refused(k) => s.(closed := s.closed + {k}, runner := Testing)
    case Handed => s.(runner := Waiting)
    case Waiting => s
    case Signalled => s.(connection := false, runner := Testing)
    case Ended => s
  }

  function CancelStep(s: State, who: nat): (s': State)
    requires who < |s.cancellers|
  {
    match s.cancellers[who]
    case Outside => if s.running && !s.stopping then s.(cancellers := s.cancellers[who := Checked]) else s
    case Checked => s.(stopping := true, cancellers := s.cancellers[who := Stopping])
    // signalAll wakes the thread only if it is waiting
    case Stopping =>
      s.(cancellers := s.cancellers[who := Signalling], signals := s.signals + 1,
         runner := if s.runner.Waiting? then Signalled else s.runner)
    // the connect that lets a blocked accept() return, and the join
    case Signalling => s.(cancellers := s.cancellers[who := Joining])
    case Joining => s.(running := false, cancellers := s.cancellers[who := Outside])
  }

  function Next(s: State, a: Action): (s': State)
  {
    match a
    case Run(permitted) => Step(s, permitted)
    case Cancel(who) => if who < |s.cancellers| then CancelStep(s, who) else s
  }

  function After(s: State, actions: seq<Action>): (s': State)
  {
    if actions == [] then s
    else var n := |actions| - 1; Next(After(s, actions[..n]), actions[n])
  }

  function Start(cancellers: nat): (s: State)
  {
    State(Created, seq(cancellers, _ => Outside), false, false, false, 0, {}, {}, 0, 0)
  }

  predicate InHand(r: Runner)
  {
    r.Holding? || r.Trusted? || r.Refused?
  }

  /** Every socket accepted was handed over or closed, but the one in hand. */
  ghost predicate Accounted(s: State)
  {
    && (forall k :: k in s.handed || k in s.closed ==> k < s.accepted)
    && (forall k :: 0 <= k < s.accepted ==>
          (k in s.handed || k in s.closed) != (InHand(s.runner) && s.runner.socket == k))
    && s.handed !! s.closed
    && (InHand(s.runner) ==> s.runner.socket < s.accepted)
  }

  predicate Connected(r: Runner)
  {
    r.Handed? || r.Waiting? || r.Signalled?
  }

  /** mStopping is set. */
  predicate Asked(c: Canceller)
  {
    c.Stopping? || c.Signalling? || c.Joining?
  }

  /** About to set mStopping, or to signal. */
  predicate Due(c: Canceller)
  {
    c.Checked? || c.Stopping?
  }

  ghost predicate Invariant(s: State)
  {
    && Accounted(s)
    && (forall i :: 0 <= i < |s.cancellers| && Asked(s.cancellers[i]) ==> s.stopping)
    && (s.signals > 0 ==> s.stopping)
    && s.started == |s.handed| <= 1
    && (s.connection <==> Connected(s.runner))
    && (s.started > 0 && !s.connection ==> s.stopping && (s.runner.Testing? || s.runner.Ended?))
    && (s.runner.Signalled? ==> s.stopping && s.started == 1)
    && (s.connection ==> s.started == 1)
    && (!s.stopping && !s.runner.Created? ==> s.running)
  }

  lemma StepAccounts(s: State, permitted: bool)
    requires Accounted(s)
    ensures Accounted(Step(s, permitted))
    ensures s.runner.Trusted? ==> s.runner.socket !in s.handed
  {
  }

  lemma StepKeeps(s: State, permitted: bool)
    requires Invariant(s)
    ensures Invariant(Step(s, permitted))
  {
    StepAccounts(s, permitted);
    hide Accounted;
  }

  lemma CancelKeeps(s: State, who: nat)
    requires Invariant(s) && who < |s.cancellers|
    ensures Invariant(CancelStep(s, who))
  {
  }

  lemma NextKeeps(s: State, a: Action)
    requires Invariant(s)
    ensures Invariant(Next(s, a))
    ensures s.stopping ==> Next(s, a).stopping
    ensures Next(s, a).signals > s.signals ==> s.stopping
  {
    match a
    case Run(permitted) => StepKeeps(s, permitted); hide Invariant;
    case Cancel(who) => if who < |s.cancellers| { CancelKeeps(s, who); } hide Accounted;
  }

  lemma {:induction false} EveryRunKeeps(cancellers: nat, actions: seq<Action>)
    ensures Invariant(After(Start(cancellers), actions))
  {
    hide Invariant, Next;
    if actions == [] {
      StartsWell(cancellers);
    } else {
      var n := |actions| - 1;
      EveryRunKeeps(cancellers, actions[..n]);
      NextKeeps(After(Start(cancellers), actions[..n]), actions[n]);
    }
  }

  lemma StartsWell(cancellers: nat)
    ensures Invariant(Start(cancellers))
  {
  }

  /**
   * In every interleaving at most one ConnectionThread is started, with the one socket handed over; `stop`
   * is signalled only once mStopping is set; when run() has ended every socket was handed over or closed,
   * and none both.
   */
  lemma {:induction false} OneConnection(cancellers: nat, actions: seq<Action>)
    ensures var s := After(Start(cancellers), actions);
            && s.started == |s.handed| <= 1
            && (s.signals > 0 ==> s.stopping)
            && s.handed !! s.closed
            && (s.runner.Ended? ==> forall k :: 0 <= k < s.accepted ==> k in s.handed || k in s.closed)
  {
    hide After, Start;
    EveryRunKeeps(cancellers, actions);
  }

  /** mStopping never clears. */
  lemma {:induction false} StoppingForGood(cancellers: nat, actions: seq<Action>, more: seq<Action>)
    ensures After(Start(cancellers), actions).stopping ==> After(Start(cancellers), actions + more).stopping
  {
    hide Invariant, Next, Start;
    if more == [] {
      assert actions + more == actions;
    } else {
      var n := |more| - 1;
      StoppingForGood(cancellers, actions, more[..n]);
      assert (actions + more)[..|actions + more| - 1] == actions + more[..n];
      EveryRunKeeps(cancellers, actions + more[..n]);
      NextKeeps(After(Start(cancellers), actions + more[..n]), more[n]);
    }
  }

  // ---- the wait without a predicate loop

  /** A cancelAndJoin that has yet to signal. */
  ghost predicate SignalDue(s: State)
  {
    exists i :: 0 <= i < |s.cancellers| && Due(s.cancellers[i])
  }

  /** Nothing will wake the waiting thread: the stop was asked for, and signalled, before the wait began. */
  ghost predicate Stuck(s: State)
  {
    s.runner.Waiting? && !SignalDue(s) && (s.stopping || |s.cancellers| == 0)
  }

  lemma StuckStays(s: State, a: Action)
    requires Stuck(s) && Invariant(s)
    ensures Stuck(Next(s, a))
  {
    match a
    case Run(_) =>
    case Cancel(who) =>
      if who < |s.cancellers| {
        var s' := CancelStep(s, who);
        assert !Due(s.cancellers[who]);
        forall i | 0 <= i < |s'.cancellers|
          ensures !Due(s'.cancellers[i])
        {
          assert !Due(s.cancellers[i]);
        }
      }
  }

  lemma {:induction false} StuckForever(s: State, actions: seq<Action>)
    requires Stuck(s) && Invariant(s)
    ensures Stuck(After(s, actions)) && Invariant(After(s, actions))
  {
    hide Stuck, Invariant, Next;
    if actions != [] {
      var n := |actions| - 1;
      StuckForever(s, actions[..n]);
      StuckStays(After(s, actions[..n]), actions[n]);
      NextKeeps(After(s, actions[..n]), actions[n]);
    }
  }

  /** One thread carrying its cancelAndJoin on until it has signalled. */
  lemma Waker(s: State, who: nat) returns (actions: seq<Action>)
    requires Invariant(s) && s.runner.Waiting? && who < |s.cancellers|
    requires Due(s.cancellers[who]) || (s.cancellers[who] == Outside && !s.stopping)
    ensures After(s, actions).runner == Signalled
  {
    var a := Cancel(who);
    var s1, s2 := Next(s, a), Next(Next(s, a), a);
    assert After(s, [a]) == s1 by {
      assert [a][..0] == [];
    }
    assert After(s, [a, a]) == s2 by {
      assert [a, a][..1] == [a];
    }
    assert [a, a, a][..2] == [a, a];
    actions := if s.cancellers[who].Stopping? then [a] else if s.cancellers[who].Checked? then [a, a] else [a, a, a];
  }

  /**
   * Once run() waits, some continuation wakes it exactly when it is not stuck: a stop requested and
   * signalled before the wait began is lost, and no later one is accepted.
   */
  lemma {:induction false} WaitEnds(cancellers: nat, before: seq<Action>)
    requires After(Start(cancellers), before).runner.Waiting?
    ensures var s := After(Start(cancellers), before);
            (exists actions :: !After(s, actions).runner.Waiting?) <==> !Stuck(s)
  {
    var s := After(Start(cancellers), before);
    EveryRunKeeps(cancellers, before);
    hide Start;
    if Stuck(s) {
      forall actions
        ensures After(s, actions).runner.Waiting?
      {
        StuckForever(s, actions);
      }
    } else {
      var who: nat := 0;
      if SignalDue(s) {
        who :| 0 <= who < |s.cancellers| && Due(s.cancellers[who]);
      } else {
        assert !Due(s.cancellers[0]);
      }
      var actions := Waker(s, who);
      assert !After(s, actions).runner.Waiting?;
    }
  }

  lemma {:induction false} AfterMore(s: State, actions: seq<Action>, a: Action)
    ensures After(s, actions + [a]) == Next(After(s, actions), a)
  {
    assert (actions + [a])[..|actions|] == actions;
  }

  /** A connection accepted and found permitted, while nobody stops the thread. */
  lemma Looked() returns (actions: seq<Action>)
    ensures After(Start(1), actions) == State(Trusted(0), [Outside], true, false, false, 1, {}, {}, 0, 0)
  {
    var s, r := Start(1), Run(true);
    assert After(s, []) == s;
    hide After;
    assert s.cancellers == [Outside];
    AfterMore(s, [], r);
    AfterMore(s, [] + [r], r);
    AfterMore(s, [] + [r] + [r], r);
    AfterMore(s, [] + [r] + [r] + [r], r);
    return [] + [r] + [r] + [r] + [r];
  }

  /** It happens: the stop comes between the second look at mStopping and the wait. */
  lemma LostSignal()
    ensures exists before :: Stuck(After(Start(1), before))
  {
    hide After, Start;
    var s, r, c := Start(1), Run(true), Cancel(0);
    var looked := Looked();
    AfterMore(s, looked, c);
    AfterMore(s, looked + [c], c);
    AfterMore(s, looked + [c] + [c], c);
    var stopped := looked + [c] + [c] + [c];
    assert After(s, stopped) == State(Trusted(0), [Signalling], true, true, false, 1, {}, {}, 0, 1);
    AfterMore(s, stopped, r);
    AfterMore(s, stopped + [r], r);
    assert Stuck(After(s, stopped + [r] + [r]));
  }

  // ---- who is let in

  /** What checkPermission has said about a socket's peer. */
  datatype Verdict = Unasked | Granted | Denied

  /** The peer of socket k is asked about when run() holds the socket and mStopping is clear. */
  function VerdictOn(cancellers: nat, actions: seq<Action>, k: nat): (v: Verdict)
  {
    if actions == [] then Unasked
    else
      var n := |actions| - 1;
      var s := After(Start(cancellers), actions[..n]);
      if actions[n].Run? && s.runner == Holding(k) && !s.stopping then
        if actions[n].permitted then Granted else Denied
      else VerdictOn(cancellers, actions[..n], k)
  }

  /** Only a permitted peer's socket is handed over; a refused one's, or one that came with the stop, is closed. */
  ghost predicate Decided(s: State, v: Verdict, k: nat)
  {
    match v
    case Granted => k in s.handed || s.runner == Trusted(k)
    case Denied => k in s.closed || s.runner == Refused(k)
    case Unasked =>
      && k !in s.handed && s.runner != Trusted(k) && s.runner != Refused(k)
      && (k in s.closed ==> s.stopping && s.runner.Ended?)
  }

  lemma NextDecides(s: State, a: Action, v: Verdict, k: nat)
    requires Invariant(s) && Decided(s, v, k)
    ensures Decided(Next(s, a), if a.Run? && s.runner == Holding(k) && !s.stopping then
                                  if a.permitted then Granted else Denied
                                else v, k)
  {
  }

  lemma {:induction false} EveryVerdictDecides(cancellers: nat, actions: seq<Action>, k: nat)
    ensures Decided(After(Start(cancellers), actions), VerdictOn(cancellers, actions, k), k)
  {
    hide Invariant, Next, Decided;
    if actions == [] {
      NobodyYet(cancellers, k);
    } else {
      var n := |actions| - 1;
      EveryVerdictDecides(cancellers, actions[..n], k);
      EveryRunKeeps(cancellers, actions[..n]);
      NextDecides(After(Start(cancellers), actions[..n]), actions[n], VerdictOn(cancellers, actions[..n], k), k);
    }
  }

  lemma NobodyYet(cancellers: nat, k: nat)
    ensures Decided(Start(cancellers), Unasked, k)
  {
  }

  /**
   * In every interleaving: a socket handed over is one whose peer was found permitted; and once run() has no
   * socket in hand, these are exactly the sockets handed over, those refused are closed, and so is one that
   * was accepted only to let the thread stop.
   */
  lemma {:induction false} OnlyPermittedPeers(cancellers: nat, actions: seq<Action>, k: nat)
    ensures var s, v := After(Start(cancellers), actions), VerdictOn(cancellers, actions, k);
            && (k in s.handed ==> v == Granted)
            && (v == Denied ==> k !in s.handed)
            && (k in s.closed && v != Denied ==> v == Unasked && s.stopping && s.runner.Ended?)
            && (!InHand(s.runner) ==> (k in s.handed <==> v == Granted) && (v == Denied ==> k in s.closed))
  {
    hide After, Start, VerdictOn;
    EveryRunKeeps(cancellers, actions);
    EveryVerdictDecides(cancellers, actions, k);
  }

  predicate AllCancels(actions: seq<Action>)
  {
    forall n :: 0 <= n < |actions| ==> actions[n].Cancel?
  }

  lemma {:induction false} CancelsKeepHand(s: State, cancels: seq<Action>)
    requires AllCancels(cancels) && InHand(s.runner)
    ensures After(s, cancels).runner == s.runner && After(s, cancels).connection == s.connection
  {
    if cancels != [] {
      CancelsKeepHand(s, cancels[..|cancels| - 1]);
    }
  }

  lemma {:induction false} AfterBoth(s: State, first: seq<Action>, rest: seq<Action>)
    ensures After(s, first + rest) == After(After(s, first), rest)
  {
    hide Next;
    if rest == [] {
      assert first + rest == first;
    } else {
      var n := |rest| - 1;
      AfterBoth(s, first, rest[..n]);
      assert (first + rest)[..|first| + n] == first + rest[..n];
    }
  }

  /**
   * A socket taken while mStopping is clear: whoever asks for a stop in between, the next step of run() but
   * one hands it over when its peer is permitted, and closes it when not.
   */
  lemma {:induction false} VerdictCarriedOut(
      cancellers: nat, actions: seq<Action>, k: nat, permitted: bool, cancels: seq<Action>, next: bool)
    requires After(Start(cancellers), actions).runner == Holding(k) && !After(Start(cancellers), actions).stopping
    requires AllCancels(cancels)
    ensures var s := After(Start(cancellers), actions + [Run(permitted)] + cancels + [Run(next)]);
            if permitted then k in s.handed && s.connection && s.runner == Handed
            else k in s.closed && k !in s.handed && !s.connection
  {
    var s := After(Start(cancellers), actions);
    EveryRunKeeps(cancellers, actions);
    AfterMore(Start(cancellers), actions, Run(permitted));
    AfterBoth(Start(cancellers), actions + [Run(permitted)], cancels);
    CancelsKeepHand(Next(s, Run(permitted)), cancels);
    EveryRunKeeps(cancellers, actions + [Run(permitted)] + cancels);
    AfterMore(Start(cancellers), actions + [Run(permitted)] + cancels, Run(next));
    hide After, Start;
  }

  // ---- the end of run(), and a whole cancelAndJoin()

  /** With mStopping set run() ends within three of its own steps, unless it is on its way into the wait. */
  lemma StopEnds(s: State, p: bool, q: bool, r: bool)
    requires Invariant(s) && s.stopping
    ensures var s' := Step(Step(Step(s, p), q), r);
            if s.runner.Trusted? || s.runner.Handed? || s.runner.Waiting? then s'.runner == Waiting
            else s'.runner == Ended && !s'.connection
  {
    hide Accounted;
  }

  /** While nobody stops the thread, a round of run() brings it to the next socket. */
  lemma NextSocket(s: State, p: bool, q: bool)
    requires s.runner.Testing? && !s.stopping
    ensures Step(Step(s, p), q) == s.(runner := Holding(s.accepted), accepted := s.accepted + 1)
  {
  }

  /** One cancelAndJoin() alone: mStopping is set, a waiting run() is woken, and the thread counts as gone. */
  lemma CancelAlone(s: State, who: nat)
    requires who < |s.cancellers| && s.cancellers[who] == Outside
    ensures var c := Cancel(who);
            Next(Next(Next(Next(Next(s, c), c), c), c), c)
            == if !s.running || s.stopping then s
               else s.(stopping := true, signals := s.signals + 1, running := false,
                       runner := if s.runner.Waiting? then Signalled else s.runner)
  {
    assert s.cancellers[who := Outside] == s.cancellers;
  }
}
