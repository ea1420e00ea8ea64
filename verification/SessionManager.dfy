/**
 The session manager (internal/session/session.go:200-269, 347-434): the manager of Managers over
 the sessions of SessionRuns.  A session begins when Create registers it; Close cancels it.
 */
module SessionManagers {
  import opened Runs
  import opened Managers
  import S = Sessions
  import R = SessionRuns

  type SessionManager = Manager<S.Session>

  const SESSIONS: Kind<S.Session, R.Step> :=
    Kind(R.PROTOCOL, (id: Id, s: S.Session) => s == S.NewSession(id), R.Cancel, (s: S.Session) => s.cancelRequested, (s: S.Session) => s.done)

  const PROTOCOL: System<SessionManager, Step<S.Session, R.Step>> := Protocol(SESSIONS)

  ghost predicate Stored(m: SessionManager) {
    Reachable(SESSIONS, m)
  }

  /** An end and a request are final, and cancelling achieves one of them. */
  lemma SessionStep(s: S.Session, step: R.Step)
    requires S.Inv(s) && R.Enabled(s, step)
    ensures S.Inv(R.Next(s, step))
    ensures s.done ==> R.Next(s, step).done
    ensures s.cancelRequested ==> R.Next(s, step).cancelRequested
    ensures step.Cancel? ==> R.Next(s, step).done || R.Next(s, step).cancelRequested
  {
    R.StepKeepsInv(s, step);
    if step.Finish? {
      S.FindingsKeepStreams(S.Decided(s, step.report, step.panicked, step.deadlineExceeded), step.report.findings);
    }
  }

  lemma SessionsAreLawful()
    ensures Lawful(SESSIONS, S.Inv)
  {
    R.StepsKeepInv();
    forall id, s | SESSIONS.begins(id, s) ensures S.Inv(s) {
      R.NewSessionInv(id);
    }
    forall s, step | S.Inv(s) && R.Enabled(s, step) ensures Lasting(SESSIONS, s, step) {
      SessionStep(s, step);
    }
    forall s | S.Inv(s) ensures Cancellable(SESSIONS, s) {
      SessionStep(s, R.Cancel);
    }
  }

  lemma StoredInv(m: SessionManager)
    requires Stored(m)
    ensures Lawful(SESSIONS, S.Inv) && Inv(SESSIONS, S.Inv, m)
    ensures forall id :: id in m.items ==> S.Inv(m.items[id].value)
  {
    SessionsAreLawful();
    ReachableInv(SESSIONS, S.Inv, m);
    forall id | id in m.items ensures S.Inv(m.items[id].value) {
      assert ItemInv(SESSIONS, S.Inv, id, m.items[id]);
    }
  }

  // ---- what holds after every run ----

  /** A stored session only makes runs of its own, under its own identifier: all of SessionRuns applies to it. */
  lemma EverySessionIsReachable(m: SessionManager, id: Id)
    requires Stored(m) && id in m.items
    ensures Leads(R.PROTOCOL, S.NewSession(id), m.items[id].value) && R.Reachable(m.items[id].value)
  {
    StoredInv(m);
    assert ItemInv(SESSIONS, S.Inv, id, m.items[id]);
    assert Grown(SESSIONS, id, m.items[id].value);
  }

  /** ... and it stays, and moves on from where it was. */
  lemma SessionsMoveOn(m: SessionManager, n: SessionManager, id: Id)
    requires Stored(m) && Leads(PROTOCOL, m, n) && id in m.items
    ensures id in n.items && Leads(R.PROTOCOL, m.items[id].value, n.items[id].value)
  {
    StoredInv(m);
    ItemsMoveOn(SESSIONS, S.Inv, m, n, id);
  }

  function ActiveSessions(m: SessionManager): set<Id> {
    set id | id in m.items && !S.Terminal(m.items[id].value.state)
  }

  /** Non-terminal work never exceeds the limit, and every token taken is accounted for. */
  lemma SessionsWithinCapacity(m: SessionManager)
    requires Stored(m)
    ensures |ActiveSessions(m)| <= m.capacity
    ensures m.tokens == m.starting + m.refused + |Holding(m.items)| <= m.capacity
  {
    StoredInv(m);
    CapacityBoundsActiveWork(SESSIONS, S.Inv, m);
    assert ActiveSessions(m) == Active(SESSIONS, m.items);
  }

  /** Nothing leaks: with nobody inside Create and every execution returned, all tokens are free. */
  lemma QuietSessionsAreFree(m: SessionManager)
    requires Stored(m) && m.starting == 0 && m.refused == 0
    requires forall id :: id in m.items ==> m.items[id].released
    ensures m.tokens == 0
  {
    StoredInv(m);
    QuietMeansFree(m);
  }

  /** Terminal states are absorbing. */
  lemma TerminalIsAbsorbing(m: SessionManager, n: SessionManager, id: Id)
    requires Stored(m) && Leads(PROTOCOL, m, n) && id in m.items && S.Terminal(m.items[id].value.state)
    ensures id in n.items
    ensures var s, t := m.items[id].value, n.items[id].value;
            && t.state == s.state && t.report == s.report && t.cancelRequested == s.cancelRequested
            && (t.state.Cancelled? <==> t.cancelRequested)
  {
    StoredInv(m);
    SessionsMoveOn(m, n, id);
    R.TerminalIsAbsorbing(m.items[id].value, n.items[id].value);
  }

  lemma RequestDecides(s: S.Session, t: S.Session)
    requires S.Inv(s) && s.cancelRequested && Leads(R.PROTOCOL, s, t)
    ensures t.cancelRequested && (S.Terminal(t.state) ==> t.state.Cancelled?)
  {
    var asked := (x: S.Session) => S.Inv(x) && x.cancelRequested;
    forall x, step | asked(x) && R.Enabled(x, step) ensures asked(R.Next(x, step)) {
      SessionStep(x, step);
    }
    assert Keeps(R.PROTOCOL, asked);
    LeadsKeeps(R.PROTOCOL, asked, s, t);
  }

  /** A cancellation request sticks to a session, and decides its end. */
  lemma RequestIsKept(m: SessionManager, n: SessionManager, id: Id)
    requires Stored(m) && Leads(PROTOCOL, m, n) && id in m.items && m.items[id].value.cancelRequested
    ensures id in n.items && n.items[id].value.cancelRequested
    ensures S.Terminal(n.items[id].value.state) ==> n.items[id].value.state.Cancelled?
  {
    StoredInv(m);
    SessionsMoveOn(m, n, id);
    RequestDecides(m.items[id].value, n.items[id].value);
  }

  /**
   Once the sweeping Close has returned, whatever session exists later existed then, and it has
   ended for good or will end as cancelled.
   */
  lemma CloseEndsSessions(m: SessionManager, n: SessionManager, id: Id)
    requires Stored(m) && m.closing.Swept? && Leads(PROTOCOL, m, n) && id in n.items
    ensures id in m.items
    ensures var s, t := m.items[id].value, n.items[id].value;
            if S.Terminal(s.state) then t.state == s.state
            else t.cancelRequested && (S.Terminal(t.state) ==> t.state.Cancelled?)
  {
    StoredInv(m);
    CloseGuarantee(SESSIONS, S.Inv, m, n, id);
    if S.Terminal(m.items[id].value.state) {
      TerminalIsAbsorbing(m, n, id);
    } else {
      RequestIsKept(m, n, id);
    }
  }

  /** The session has ended or will end as cancelled. */
  predicate SettledSession(s: S.Session) {
    s.done || s.cancelRequested
  }

  /** A second Close returns at once, so on its own return it guarantees nothing of the kind. */
  lemma SecondCloseMayReturnEarly() returns (m: SessionManager, id: Id)
    ensures Stored(m) && Enabled(SESSIONS, m, CloseAgain)
    ensures id in m.items && !SettledSession(m.items[id].value)
  {
    id := "a";
    var m0: SessionManager := NewManager(1);
    var m1 := Next(SESSIONS, m0, Acquire);
    var m2 := Next(SESSIONS, m1, Register(id, S.NewSession(id)));
    m := Next(SESSIONS, m2, CloseBegin);
    Stay(PROTOCOL, m);
    Prepend(PROTOCOL, m2, CloseBegin, m);
    Prepend(PROTOCOL, m1, Register(id, S.NewSession(id)), m);
    Prepend(PROTOCOL, m0, Acquire, m);
  }

  /**
   When it may be relied on: all sessions are settled exactly when the first Close has returned,
   or what that has yet to visit is settled anyway.
   */
  lemma SecondCloseSettlesIff(m: SessionManager)
    requires Stored(m) && Enabled(SESSIONS, m, CloseAgain)
    ensures (forall id :: id in m.items ==> SettledSession(m.items[id].value))
            <==> m.closing.Swept? || forall id :: id in m.closing.todo ==> id in m.items && SettledSession(m.items[id].value)
  {
    StoredInv(m);
    SecondCloseIff(SESSIONS, m);
  }

  /** The first Close settles what a second one cannot rely on, by its own next visits. */
  lemma UnsettledOnlyDuringSweep(m: SessionManager, id: Id)
    requires Stored(m) && Enabled(SESSIONS, m, CloseAgain) && id in m.items && !SettledSession(m.items[id].value)
    ensures m.closing.Sweeping? && id in m.closing.todo
    ensures Enabled(SESSIONS, m, CloseOne(id)) && SettledSession(Next(SESSIONS, m, CloseOne(id)).items[id].value)
  {
    StoredInv(m);
    assert Cancellable(SESSIONS, m.items[id].value);
  }
}
