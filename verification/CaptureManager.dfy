/**
 Capacity tokens of browser captures (internal/capture/manager.go:51-86, 138-175 and
 internal/capture/capture.go:318-392).  Every call of `Start` is followed from taking its token to
 giving it back, through every order of timer, explicit stop, callback registration and close.
 */
module CaptureManagers {
  import opened Lists
  import opened Runs
  import Managers

  // ---- the protocol ----

  /** How far a call of `Start` has come. */
  datatype Stage =
    | Holding        // has a token, has not read `closed`
    | Launching      // admitted under an identifier
    | GivingBack     // refused, or the launch failed
    | Ended          // has given the token back itself
    | Launched       // the session exists
    | CallbackSet    // `setOnStop` done
    | Registered
    | Refused        // closed in between; the session is being stopped

  datatype Phase = NoSession | Live | Stopping | Stopped

  /** The release callback: not called, called, past the check of `released`, token returned, or turned away by the check. */
  datatype Release = NotCalled | Called | Marked | Returned | TurnedAway

  datatype Start = Start(id: string, stage: Stage, phase: Phase, callback: bool, release: Release)

  /** `sessions` says which start is stored under an identifier: the one that registered last. */
  datatype Manager = Manager(limit: nat, tokens: nat, closing: Managers.Closing<nat>, released: set<string>,
                             sessions: map<string, nat>, starts: seq<Start>)

  function NewManager(limit: nat): Manager {
    Manager(limit, 0, Managers.Open, {}, map[], [])
  }

  datatype Step =
    | Acquire
    | Check(i: nat, id: string)
    | Launch(i: nat, ok: bool)
    | GiveBack(i: nat)
    | SetOnStop(i: nat)
    | Register(i: nat)
    | Stop(i: nat)              // timer, explicit stop or the visit of Close
    | StopEnd(i: nat)
    | Mark(i: nat)
    | Return(i: nat)
    | Close                     // the first Close marks the manager closed and lists the stored sessions
    | CloseOne(i: nat)          // ... has stopped one of them and waited for it
    | CloseEnd
    | CloseAgain                // any further Close returns at once

  predicate OfStart(step: Step) {
    !step.Acquire? && !step.Close? && !step.CloseOne? && !step.CloseEnd? && !step.CloseAgain?
  }

  predicate Enabled(m: Manager, step: Step) {
    if OfStart(step) then
      step.i < |m.starts| &&
      var s := m.starts[step.i];
      match step
      case Check(_, _) => s.stage.Holding?
      case Launch(_, _) => s.stage.Launching?
      case GiveBack(_) => s.stage.GivingBack?
      case SetOnStop(_) => s.stage.Launched?
      case Register(_) => s.stage.CallbackSet?
      case Stop(_) => s.phase.Live?
      case StopEnd(_) => s.phase.Stopping?
      case Mark(_) => s.release.Called?
      case Return(_) => s.release.Marked?
      case _ => false
    else
      match step
      case Acquire => m.tokens < m.limit
      case Close => m.closing.Open?
      case CloseOne(i) => m.closing.Sweeping? && i in m.closing.todo && i < |m.starts| && m.starts[i].phase.Stopped?
      case CloseEnd => m.closing == Managers.Sweeping({})
      case _ => !m.closing.Open?
  }

  /** What a step makes of its start. */
  function Moved(m: Manager, s: Start, step: Step): Start {
    match step
    case Check(_, id) => if !m.closing.Open? then s.(stage := GivingBack) else s.(stage := Launching, id := id)
    case Launch(_, ok) => if ok then s.(stage := Launched, phase := Live) else s.(stage := GivingBack)
    case GiveBack(_) => s.(stage := Ended)
    case SetOnStop(_) =>
      if s.phase.Stopped? then s.(stage := CallbackSet, release := Called) else s.(stage := CallbackSet, callback := true)
    case Register(_) =>
      if !m.closing.Open? then s.(stage := Refused, phase := if s.phase.Live? then Stopping else s.phase) else s.(stage := Registered)
    case Stop(_) => s.(phase := Stopping)
    case StopEnd(_) => s.(phase := Stopped, callback := false, release := if s.callback then Called else s.release)
    case Mark(_) => s.(release := if s.id in m.released then TurnedAway else Marked)
    case Return(_) => s.(release := Returned)
    case _ => s
  }

  function Next(m: Manager, step: Step): Manager {
    if !Enabled(m, step) then m
    else if OfStart(step) then
      var s := m.starts[step.i];
      m.(starts := m.starts[step.i := Moved(m, s, step)],
         tokens := if (step.GiveBack? || step.Return?) && m.tokens > 0 then m.tokens - 1 else m.tokens,
         released := if step.Mark? then m.released + {s.id} else m.released,
         sessions := if step.Register? && m.closing.Open? then m.sessions[s.id := step.i] else m.sessions)
    else if step.Acquire? then
      m.(tokens := m.tokens + 1, starts := m.starts + [Start("", Holding, NoSession, false, NotCalled)])
    else if step.Close? then m.(closing := Managers.Sweeping(m.sessions.Values))
    else if step.CloseOne? then m.(closing := Managers.Sweeping(m.closing.todo - {step.i}))
    else if step.CloseEnd? then m.(closing := Managers.Swept)
    else m
  }

  const PROTOCOL: System<Manager, Step> := System(Enabled, Next)

  ghost predicate Reachable(m: Manager) {
    exists limit :: Leads(PROTOCOL, NewManager(limit), m)
  }

  // ---- the invariant ----

  /** The start is before its session exists and holds a token. */
  predicate InFlight(s: Start) {
    s.stage.Holding? || s.stage.Launching? || s.stage.GivingBack?
  }

  /** The session exists and its token is still to be given back. */
  predicate HasSession(s: Start) {
    !s.phase.NoSession? && !s.release.Returned? && !s.release.TurnedAway?
  }

  /** The release was turned away, so the token is never given back. */
  predicate Leaked(s: Start) {
    s.release.TurnedAway?
  }

  predicate Owns(s: Start) {
    InFlight(s) || HasSession(s) || Leaked(s)
  }

  predicate Given(s: Start) {
    s.release.Marked? || s.release.Returned?
  }

  predicate WellFormed(s: Start) {
    && (s.phase.NoSession? <==> InFlight(s) || s.stage.Ended?)
    && (s.phase.NoSession? || s.stage.Launched? ==> !s.callback && s.release.NotCalled?)
    && (s.stage.CallbackSet? || s.stage.Registered? || s.stage.Refused? ==>
          (s.phase.Stopped? <==> !s.release.NotCalled?) && (s.callback <==> !s.phase.Stopped?))
    && (s.stage.Refused? ==> !s.phase.Live?)
  }

  /** Who gave back the token of an identifier. */
  ghost predicate GivenFor(m: Manager, id: string) {
    exists j :: 0 <= j < |m.starts| && m.starts[j].id == id && Given(m.starts[j])
  }

  ghost predicate Names(m: Manager) {
    && (forall id :: id in m.released ==> GivenFor(m, id))
    && (forall i :: 0 <= i < |m.starts| && Given(m.starts[i]) ==> m.starts[i].id in m.released)
    && (forall i :: 0 <= i < |m.starts| && Leaked(m.starts[i]) ==> m.starts[i].id in m.released)
    && (forall i, j :: 0 <= i < j < |m.starts| && Given(m.starts[i]) && Given(m.starts[j]) ==> m.starts[i].id != m.starts[j].id)
  }

  /** What is stored is a registered session of that name, and every registered name is stored. */
  ghost predicate Stored(m: Manager) {
    && (forall id :: id in m.sessions ==>
          m.sessions[id] < |m.starts| && m.starts[m.sessions[id]].stage.Registered? && m.starts[m.sessions[id]].id == id)
    && (forall i :: 0 <= i < |m.starts| && m.starts[i].stage.Registered? ==> m.starts[i].id in m.sessions)
  }

  /** Every stored session was stopped, or Close has yet to visit it - once Close has begun. */
  ghost predicate Sweeps(m: Manager) {
    match m.closing
    case Open => true
    case Sweeping(todo) =>
      todo <= m.sessions.Values
      && forall id :: id in m.sessions && m.sessions[id] < |m.starts| && m.sessions[id] !in todo ==> m.starts[m.sessions[id]].phase.Stopped?
    case Swept => forall id :: id in m.sessions && m.sessions[id] < |m.starts| ==> m.starts[m.sessions[id]].phase.Stopped?
  }

  ghost predicate Inv(m: Manager) {
    && (forall i :: 0 <= i < |m.starts| ==> WellFormed(m.starts[i]))
    && m.tokens == Count(m.starts, Owns) <= m.limit
    && Names(m)
    && Stored(m)
    && Sweeps(m)
  }

  lemma MovedIsWellFormed(m: Manager, step: Step)
    requires Enabled(m, step) && OfStart(step) && WellFormed(m.starts[step.i])
    ensures WellFormed(Moved(m, m.starts[step.i], step))
    ensures Owns(Moved(m, m.starts[step.i], step)) == (Owns(m.starts[step.i]) && !step.GiveBack? && !step.Return?)
    ensures Owns(m.starts[step.i]) || (!step.GiveBack? && !step.Return?)
  {
  }

  lemma StepKeepsWellFormed(m: Manager, step: Step)
    requires Enabled(m, step) && forall i :: 0 <= i < |m.starts| ==> WellFormed(m.starts[i])
    ensures forall i :: 0 <= i < |Next(m, step).starts| ==> WellFormed(Next(m, step).starts[i])
  {
    if OfStart(step) {
      MovedIsWellFormed(m, step);
    }
  }

  lemma StepKeepsTokens(m: Manager, step: Step)
    requires Enabled(m, step) && (OfStart(step) ==> WellFormed(m.starts[step.i]))
    requires m.tokens == Count(m.starts, Owns) <= m.limit
    ensures Next(m, step).tokens == Count(Next(m, step).starts, Owns) <= Next(m, step).limit
  {
    if OfStart(step) {
      MovedIsWellFormed(m, step);
      MoveKeepsTokens(m, step);
    } else if step.Acquire? {
      CountAppend(m.starts, Start("", Holding, NoSession, false, NotCalled), Owns);
    }
  }

  lemma MoveKeepsTokens(m: Manager, step: Step)
    requires Enabled(m, step) && OfStart(step) && m.tokens == Count(m.starts, Owns) <= m.limit
    requires Owns(Moved(m, m.starts[step.i], step)) == (Owns(m.starts[step.i]) && !step.GiveBack? && !step.Return?)
    requires Owns(m.starts[step.i]) || (!step.GiveBack? && !step.Return?)
    ensures Next(m, step).tokens == Count(Next(m, step).starts, Owns) <= Next(m, step).limit
  {
    var moved := Moved(m, m.starts[step.i], step);
    assert Next(m, step).starts == m.starts[step.i := moved];
    CountUpdate(m.starts, step.i, moved, Owns);
    CountZeroIff(m.starts, Owns);
  }

  /** A start that gave its token back still has, under the same name. */
  lemma GivenStays(m: Manager, step: Step, j: nat)
    requires Enabled(m, step) && j < |m.starts| && Given(m.starts[j]) && WellFormed(m.starts[j])
    ensures j < |Next(m, step).starts| && Given(Next(m, step).starts[j]) && Next(m, step).starts[j].id == m.starts[j].id
  {
  }

  lemma StepKeepsNames(m: Manager, step: Step)
    requires Inv(m) && Enabled(m, step)
    ensures Names(Next(m, step))
  {
    var n := Next(m, step);
    forall id | id in n.released ensures GivenFor(n, id) {
      if id in m.released {
        var j :| 0 <= j < |m.starts| && m.starts[j].id == id && Given(m.starts[j]);
        GivenStays(m, step, j);
      } else {
        assert Given(n.starts[step.i]) && n.starts[step.i].id == id;
      }
    }
    NamesOfMoved(m, step);
    GivenApart(m, step);
  }

  /** A name is marked once. */
  lemma GivenApart(m: Manager, step: Step)
    requires Inv(m) && Enabled(m, step)
    ensures var n := Next(m, step);
            forall i, j :: 0 <= i < j < |n.starts| && Given(n.starts[i]) && Given(n.starts[j]) ==> n.starts[i].id != n.starts[j].id
  {
    var n := Next(m, step);
    forall i, j | 0 <= i < j < |n.starts| && Given(n.starts[i]) && Given(n.starts[j]) ensures n.starts[i].id != n.starts[j].id {
      GivenBefore(m, step, i);
      GivenBefore(m, step, j);
    }
  }

  lemma GivenBefore(m: Manager, step: Step, i: nat)
    requires Enabled(m, step) && i < |Next(m, step).starts| && Given(Next(m, step).starts[i])
    requires i < |m.starts| ==> WellFormed(m.starts[i])
    ensures i < |m.starts| && m.starts[i].id == Next(m, step).starts[i].id
    ensures Given(m.starts[i]) || (step == Mark(i) && m.starts[i].id !in m.released)
  {
  }

  lemma NamesOfMoved(m: Manager, step: Step)
    requires Inv(m) && Enabled(m, step)
    ensures forall i :: 0 <= i < |Next(m, step).starts| && (Given(Next(m, step).starts[i]) || Leaked(Next(m, step).starts[i])) ==>
              Next(m, step).starts[i].id in Next(m, step).released
  {
    var n := Next(m, step);
    forall i | 0 <= i < |n.starts| && (Given(n.starts[i]) || Leaked(n.starts[i])) ensures n.starts[i].id in n.released {
      if i < |m.starts| {
        assert WellFormed(m.starts[i]);
      }
    }
  }

  lemma StepKeepsStored(m: Manager, step: Step)
    requires Stored(m) && Enabled(m, step)
    ensures Stored(Next(m, step))
  {
  }

  /** A stopped session stays stopped, and only an open manager stores. */
  lemma StepKeepsSweeps(m: Manager, step: Step)
    requires Stored(m) && Sweeps(m) && Enabled(m, step)
    ensures Sweeps(Next(m, step))
  {
    if OfStart(step) {
      assert m.starts[step.i].phase.Stopped? && !step.Check? && !step.Launch? ==> Moved(m, m.starts[step.i], step).phase.Stopped?;
    }
  }

  lemma StepKeepsInv(m: Manager, step: Step)
    requires Inv(m) && Enabled(m, step)
    ensures Inv(Next(m, step))
  {
    StepKeepsWellFormed(m, step);
    StepKeepsTokens(m, step);
    StepKeepsNames(m, step);
    StepKeepsStored(m, step);
    StepKeepsSweeps(m, step);
  }

  lemma StepsKeepInv()
    ensures Keeps(PROTOCOL, Inv)
  {
    forall m, step | Inv(m) && Enabled(m, step) ensures Inv(Next(m, step)) {
      StepKeepsInv(m, step);
    }
  }

  lemma NewManagerInv(limit: nat)
    ensures Inv(NewManager(limit))
  {
  }

  lemma ReachableInv(m: Manager)
    requires Reachable(m)
    ensures Inv(m)
  {
    var limit :| Leads(PROTOCOL, NewManager(limit), m);
    NewManagerInv(limit);
    StepsKeepInv();
    LeadsKeeps(PROTOCOL, Inv, NewManager(limit), m);
  }

  // ---- what the protocol guarantees ----

  lemma {:induction false} OwnersAre(starts: seq<Start>)
    requires forall i :: 0 <= i < |starts| ==> WellFormed(starts[i])
    ensures Count(starts, Owns) == Count(starts, InFlight) + Count(starts, HasSession) + Count(starts, Leaked)
  {
    if starts != [] {
      var front := starts[..|starts| - 1];
      assert forall i :: 0 <= i < |front| ==> front[i] == starts[i];
      OwnersAre(front);
      assert WellFormed(starts[|starts| - 1]);
    }
  }

  /** Sessions are named apart. */
  ghost predicate FreshIds(m: Manager) {
    forall i, j :: 0 <= i < j < |m.starts| && !m.starts[i].phase.NoSession? && !m.starts[j].phase.NoSession? ==> m.starts[i].id != m.starts[j].id
  }

  /**
   Tokens in use are the starts in flight, the sessions still to release theirs and the leaked ones,
   never more than the limit; with fresh identifiers nothing leaks.
   */
  lemma TokensAreAccountedFor(m: Manager)
    requires Reachable(m)
    ensures m.tokens == Count(m.starts, InFlight) + Count(m.starts, HasSession) + Count(m.starts, Leaked) <= m.limit
    ensures FreshIds(m) ==> Count(m.starts, Leaked) == 0
  {
    ReachableInv(m);
    OwnersAre(m.starts);
    if FreshIds(m) {
      forall i | 0 <= i < |m.starts| ensures !Leaked(m.starts[i]) {
        NotLeaked(m, i);
      }
      CountZeroIff(m.starts, Leaked);
    }
  }

  lemma LeakHasTwin(m: Manager, i: nat) returns (j: nat)
    requires Inv(m) && i < |m.starts| && Leaked(m.starts[i])
    ensures j < |m.starts| && j != i && m.starts[j].id == m.starts[i].id
    ensures !m.starts[i].phase.NoSession? && !m.starts[j].phase.NoSession?
  {
    assert WellFormed(m.starts[i]);
    assert GivenFor(m, m.starts[i].id);
    j :| 0 <= j < |m.starts| && m.starts[j].id == m.starts[i].id && Given(m.starts[j]);
    assert WellFormed(m.starts[j]);
  }

  lemma NotLeaked(m: Manager, i: nat)
    requires Inv(m) && FreshIds(m) && i < |m.starts|
    ensures !Leaked(m.starts[i])
  {
    if Leaked(m.starts[i]) {
      var j := LeakHasTwin(m, i);
    }
  }

  /** A release is turned away exactly when another session of that name has given a token back. */
  lemma TurnedAwayIff(m: Manager, i: nat)
    requires Reachable(m) && Enabled(m, Mark(i))
    ensures Leaked(Next(m, Mark(i)).starts[i]) <==>
              exists j :: 0 <= j < |m.starts| && j != i && m.starts[j].id == m.starts[i].id && Given(m.starts[j])
  {
    ReachableInv(m);
    if m.starts[i].id in m.released {
      assert GivenFor(m, m.starts[i].id);
    }
  }

  /** A callback is never lost: once the session is stopped and `setOnStop` has returned, the release has been called. */
  lemma CallbackIsCalled(m: Manager, i: nat)
    requires Reachable(m) && i < |m.starts| && m.starts[i].phase.Stopped? && !m.starts[i].stage.Launched?
    ensures !m.starts[i].release.NotCalled? && !m.starts[i].callback
  {
    ReachableInv(m);
    assert WellFormed(m.starts[i]);
  }

  /** Nothing is under way: starts have returned, sessions have stopped, releases have run. */
  ghost predicate Quiet(m: Manager) {
    forall i :: 0 <= i < |m.starts| ==>
      && (m.starts[i].stage.Ended? || m.starts[i].stage.Registered? || m.starts[i].stage.Refused?)
      && (m.starts[i].phase.NoSession? || m.starts[i].phase.Stopped?)
      && !m.starts[i].release.Called? && !m.starts[i].release.Marked?
  }

  predicate HasRun(s: Start) {
    !s.phase.NoSession?
  }

  predicate GaveBack(s: Start) {
    s.release.Returned?
  }

  /** The identifiers of the starts of a kind. */
  function IdsOf(starts: seq<Start>, p: Start -> bool): set<string> {
    set i: nat | i < |starts| && p(starts[i]) :: starts[i].id
  }

  lemma {:induction false} ApartCount(starts: seq<Start>, p: Start -> bool)
    requires forall i, j :: 0 <= i < j < |starts| && p(starts[i]) && p(starts[j]) ==> starts[i].id != starts[j].id
    ensures Count(starts, p) == |IdsOf(starts, p)|
  {
    if starts == [] {
      assert IdsOf(starts, p) == {};
    } else {
      var front, last := starts[..|starts| - 1], starts[|starts| - 1];
      assert forall i :: 0 <= i < |front| ==> front[i] == starts[i];
      ApartCount(front, p);
      assert starts == front + [last];
      assert p(last) ==> last.id !in IdsOf(front, p);
      IdsOfMore(front, last, p);
    }
  }

  lemma IdsOfMore(front: seq<Start>, last: Start, p: Start -> bool)
    requires p(last) ==> last.id !in IdsOf(front, p)
    ensures |IdsOf(front + [last], p)| == |IdsOf(front, p)| + if p(last) then 1 else 0
  {
    IdsOfSnoc(front, last, p);
  }

  lemma IdsOfSnoc(front: seq<Start>, last: Start, p: Start -> bool)
    ensures IdsOf(front + [last], p) == IdsOf(front, p) + if p(last) then {last.id} else {}
  {
    var all := front + [last];
    forall id | id in IdsOf(front, p) ensures id in IdsOf(all, p) {
      var i: nat :| i < |front| && p(front[i]) && front[i].id == id;
      assert all[i] == front[i];
    }
    if p(last) {
      assert all[|front|] == last;
    }
  }

  lemma {:induction false} RunsAre(starts: seq<Start>)
    requires forall i :: 0 <= i < |starts| ==> HasRun(starts[i]) == (GaveBack(starts[i]) || Leaked(starts[i]))
    ensures Count(starts, HasRun) == Count(starts, GaveBack) + Count(starts, Leaked)
  {
    if starts != [] {
      var front := starts[..|starts| - 1];
      assert forall i :: 0 <= i < |front| ==> front[i] == starts[i];
      RunsAre(front);
    }
  }

  /** When all is quiet a session has given its token back, or leaked it. */
  lemma QuietStart(m: Manager, i: nat)
    requires Inv(m) && Quiet(m) && i < |m.starts|
    ensures !InFlight(m.starts[i]) && !HasSession(m.starts[i])
    ensures HasRun(m.starts[i]) == (GaveBack(m.starts[i]) || Leaked(m.starts[i]))
    ensures HasRun(m.starts[i]) ==> exists j :: 0 <= j < |m.starts| && GaveBack(m.starts[j]) && m.starts[j].id == m.starts[i].id
  {
    assert WellFormed(m.starts[i]);
    if Leaked(m.starts[i]) {
      assert GivenFor(m, m.starts[i].id);
      var j :| 0 <= j < |m.starts| && m.starts[j].id == m.starts[i].id && Given(m.starts[j]);
      assert GaveBack(m.starts[j]);
    }
  }

  lemma QuietNames(m: Manager)
    requires Inv(m) && Quiet(m)
    ensures IdsOf(m.starts, GaveBack) == IdsOf(m.starts, HasRun)
  {
    forall id | id in IdsOf(m.starts, HasRun) ensures id in IdsOf(m.starts, GaveBack) {
      var i: nat :| i < |m.starts| && HasRun(m.starts[i]) && m.starts[i].id == id;
      QuietStart(m, i);
    }
    forall id | id in IdsOf(m.starts, GaveBack) ensures id in IdsOf(m.starts, HasRun) {
      var i: nat :| i < |m.starts| && GaveBack(m.starts[i]) && m.starts[i].id == id;
      QuietStart(m, i);
    }
  }

  /**
   When all is quiet, the tokens still out are the sessions that ran less the different names they
   had; so every token came back exactly when the identifiers were fresh.
   */
  lemma QuietMeansAllReturned(m: Manager)
    requires Reachable(m) && Quiet(m)
    ensures m.tokens == Count(m.starts, Leaked) == Count(m.starts, HasRun) - |IdsOf(m.starts, HasRun)|
    ensures m.tokens == 0 <==> FreshIds(m)
  {
    ReachableInv(m);
    forall i | 0 <= i < |m.starts|
      ensures !InFlight(m.starts[i]) && !HasSession(m.starts[i]) && HasRun(m.starts[i]) == (GaveBack(m.starts[i]) || Leaked(m.starts[i]))
    {
      QuietStart(m, i);
    }
    TokensAreAccountedFor(m);
    CountZeroIff(m.starts, InFlight);
    CountZeroIff(m.starts, HasSession);
    CountZeroIff(m.starts, Leaked);
    RunsAre(m.starts);
    ApartCount(m.starts, GaveBack);
    QuietNames(m);
    if m.tokens == 0 {
      assert forall i :: 0 <= i < |m.starts| && HasRun(m.starts[i]) ==> Given(m.starts[i]);
    }
  }

  /** What is settled stays: a token given back, or leaked, is not given back again. */
  ghost predicate Settles(m: Manager, i: nat, n: Manager) {
    && Inv(n) && i < |m.starts| && i < |n.starts|
    && (m.starts[i].stage.Ended? ==> n.starts[i].stage.Ended?)
    && (m.starts[i].release.Returned? ==> n.starts[i].release.Returned?)
    && (Leaked(m.starts[i]) ==> Leaked(n.starts[i]))
  }

  lemma StepSettles(m: Manager, i: nat, n: Manager, step: Step)
    requires Settles(m, i, n) && Enabled(n, step)
    ensures Settles(m, i, Next(n, step))
  {
    StepKeepsInv(n, step);
    assert WellFormed(n.starts[i]);
  }

  lemma GivenBackOnce(m: Manager, i: nat, n: Manager)
    requires Reachable(m) && i < |m.starts| && Leads(PROTOCOL, m, n)
    ensures i < |n.starts|
    ensures m.starts[i].stage.Ended? ==> n.starts[i].stage.Ended?
    ensures m.starts[i].release.Returned? ==> n.starts[i].release.Returned?
    ensures Leaked(m.starts[i]) ==> Leaked(n.starts[i]) && n.tokens > 0
  {
    ReachableInv(m);
    var settles := (x: Manager) => Settles(m, i, x);
    forall x, step | settles(x) && Enabled(x, step) ensures settles(Next(x, step)) {
      StepSettles(m, i, x, step);
    }
    assert Keeps(PROTOCOL, settles);
    LeadsKeeps(PROTOCOL, settles, m, n);
    if Leaked(n.starts[i]) {
      CountZeroIff(n.starts, Owns);
    }
  }

  // ---- what Close stops ----

  /** x is later than m, which was closed: nothing is stored any more, and what was stopped stays so. */
  ghost predicate Frozen(m: Manager, x: Manager) {
    Inv(x) && Kept(m, x)
  }

  ghost predicate Kept(m: Manager, x: Manager) {
    && !x.closing.Open? && x.sessions == m.sessions && |m.starts| <= |x.starts|
    && (forall i :: 0 <= i < |x.starts| && x.starts[i].stage.Registered? ==> i < |m.starts| && m.starts[i].stage.Registered?)
    && (forall i :: 0 <= i < |m.starts| && m.starts[i].phase.Stopped? ==> x.starts[i].phase.Stopped?)
    && (m.closing.Swept? ==> x.closing.Swept?)
  }

  lemma StepStaysFrozen(m: Manager, x: Manager, step: Step)
    requires Frozen(m, x) && Enabled(x, step)
    ensures Frozen(m, Next(x, step))
  {
    StepKeepsInv(x, step);
    assert OfStart(step) ==> WellFormed(x.starts[step.i]);
    StepStaysKept(m, x, step);
  }

  lemma StepStaysKept(m: Manager, x: Manager, step: Step)
    requires Kept(m, x) && Enabled(x, step) && (OfStart(step) ==> WellFormed(x.starts[step.i]))
    ensures Kept(m, Next(x, step))
  {
    if OfStart(step) {
      StoppedStays(x, step);
    }
  }

  lemma StoppedStays(x: Manager, step: Step)
    requires Enabled(x, step) && OfStart(step) && !x.closing.Open? && WellFormed(x.starts[step.i])
    ensures var s, t := x.starts[step.i], Moved(x, x.starts[step.i], step);
            (t.stage.Registered? ==> s.stage.Registered?) && (s.phase.Stopped? ==> t.phase.Stopped?)
  {
  }

  lemma ClosedIsFrozen(m: Manager, n: Manager)
    requires Inv(m) && !m.closing.Open? && Leads(PROTOCOL, m, n)
    ensures Frozen(m, n)
  {
    var frozen := (x: Manager) => Frozen(m, x);
    forall x, step | frozen(x) && Enabled(x, step) ensures frozen(Next(x, step)) {
      StepStaysFrozen(m, x, step);
    }
    assert Keeps(PROTOCOL, frozen);
    LeadsKeeps(PROTOCOL, frozen, m, n);
  }

  lemma FreshIsStored(m: Manager, i: nat)
    requires Inv(m) && FreshIds(m) && i < |m.starts| && m.starts[i].stage.Registered?
    ensures i in m.sessions.Values
  {
    var j := m.sessions[m.starts[i].id];
    assert WellFormed(m.starts[i]) && WellFormed(m.starts[j]);
  }

  /**
   Once the sweeping Close has returned, no session is registered any more and every stored one is
   stopped; with fresh identifiers that is every registered session.
   */
  lemma CloseGuarantee(m: Manager, n: Manager)
    requires Reachable(m) && m.closing.Swept? && Leads(PROTOCOL, m, n)
    ensures n.closing.Swept? && n.sessions == m.sessions && |m.starts| <= |n.starts|
    ensures forall i :: 0 <= i < |n.starts| && n.starts[i].stage.Registered? ==> i < |m.starts| && m.starts[i].stage.Registered?
    ensures forall i :: i in m.sessions.Values ==> i < |n.starts| && n.starts[i].phase.Stopped?
    ensures FreshIds(m) ==> forall i :: 0 <= i < |n.starts| && n.starts[i].stage.Registered? ==> n.starts[i].phase.Stopped?
  {
    ReachableInv(m);
    ClosedIsFrozen(m, n);
    if FreshIds(m) {
      forall i | 0 <= i < |n.starts| && n.starts[i].stage.Registered? ensures n.starts[i].phase.Stopped? {
        FreshIsStored(m, i);
      }
    }
  }

  /** Close can bring about the end of a stored session; start i may be left out of it. */
  lemma StopAndWait(m: Manager, j: nat, i: nat) returns (n: Manager)
    requires m.closing.Sweeping? && j in m.closing.todo && j < |m.starts| && HasRun(m.starts[j])
    requires i < |m.starts| && i != j
    ensures Leads(PROTOCOL, m, n) && n.closing == Managers.Sweeping(m.closing.todo - {j})
    ensures |n.starts| == |m.starts| && n.starts[i] == m.starts[i]
    ensures forall v :: 0 <= v < |m.starts| && HasRun(m.starts[v]) ==> HasRun(n.starts[v])
  {
    var a := if m.starts[j].phase.Live? then Next(m, Stop(j)) else m;
    var b := if a.starts[j].phase.Stopping? then Next(a, StopEnd(j)) else a;
    n := Next(b, CloseOne(j));
    Stay(PROTOCOL, n);
    Prepend(PROTOCOL, b, CloseOne(j), n);
    if a.starts[j].phase.Stopping? {
      Prepend(PROTOCOL, a, StopEnd(j), n);
    }
    if m.starts[j].phase.Live? {
      Prepend(PROTOCOL, m, Stop(j), n);
    }
  }

  lemma {:induction false} SweepWithout(m: Manager, i: nat) returns (n: Manager)
    requires m.closing.Sweeping? && i < |m.starts| && i !in m.closing.todo
    requires forall j :: j in m.closing.todo ==> j < |m.starts| && HasRun(m.starts[j])
    ensures Leads(PROTOCOL, m, n) && n.closing.Swept? && i < |n.starts| && n.starts[i] == m.starts[i]
    decreases m.closing.todo
  {
    if m.closing.todo == {} {
      n := Next(m, CloseEnd);
      Stay(PROTOCOL, n);
      Prepend(PROTOCOL, m, CloseEnd, n);
    } else {
      var j :| j in m.closing.todo;
      var next := StopAndWait(m, j, i);
      n := SweepWithout(next, i);
      Chain(PROTOCOL, m, next, n);
    }
  }

  /** Every run in which Close returns ends with start i stopped. */
  ghost predicate AlwaysStopped(m: Manager, i: nat) {
    forall n :: Leads(PROTOCOL, m, n) && n.closing.Swept? ==> i < |n.starts| && n.starts[i].phase.Stopped?
  }

  /**
   Which sessions Close is sure to stop: a registered session is stopped in every run in which
   Close returns exactly when it is still stored - no later one took its identifier - or was
   stopped before.
   */
  lemma CloseStopsIff(m: Manager, i: nat)
    requires Reachable(m) && m.closing.Open? && i < |m.starts| && m.starts[i].stage.Registered?
    ensures AlwaysStopped(Next(m, Close), i) <==> i in m.sessions.Values || m.starts[i].phase.Stopped?
  {
    ReachableInv(m);
    var k := Next(m, Close);
    StepKeepsInv(m, Close);
    if i in m.sessions.Values || m.starts[i].phase.Stopped? {
      forall n | Leads(PROTOCOL, k, n) && n.closing.Swept? ensures i < |n.starts| && n.starts[i].phase.Stopped? {
        ClosedIsFrozen(k, n);
      }
    } else {
      forall j | j in k.closing.todo ensures j < |k.starts| && HasRun(k.starts[j]) {
        assert WellFormed(k.starts[j]);
      }
      var n := SweepWithout(k, i);
    }
  }

  /** While Close sweeps, it or the session it waits for can act. */
  lemma CloseCanGoOn(m: Manager)
    requires Reachable(m) && m.closing.Sweeping?
    ensures exists step :: Enabled(m, step)
              && (step.CloseEnd? || ((step.CloseOne? || step.Stop? || step.StopEnd?) && step.i in m.closing.todo))
  {
    ReachableInv(m);
    if m.closing.todo == {} {
      assert Enabled(m, CloseEnd);
    } else {
      var j :| j in m.closing.todo;
      assert WellFormed(m.starts[j]);
      assert Enabled(m, if m.starts[j].phase.Live? then Stop(j) else if m.starts[j].phase.Stopping? then StopEnd(j) else CloseOne(j));
    }
  }

  /**
   A second Close returns at once: all stored sessions are stopped then exactly when the first has
   returned, or what that has yet to visit is stopped anyway.
   */
  lemma SecondCloseIff(m: Manager)
    requires Reachable(m) && Enabled(m, CloseAgain)
    ensures (forall i :: i in m.sessions.Values ==> i < |m.starts| && m.starts[i].phase.Stopped?)
            <==> m.closing.Swept? || forall i :: i in m.closing.todo ==> i < |m.starts| && m.starts[i].phase.Stopped?
  {
    ReachableInv(m);
  }

  // ---- identifiers used twice ----

  /** A session that has run its course under a name. */
  function Finished(id: string, release: Release): Start {
    Start(id, Registered, Stopped, false, release)
  }

  /** m with one more start, which holds a token. */
  function Held(m: Manager, s: Start): Manager {
    m.(tokens := m.tokens + 1, starts := m.starts + [s])
  }

  /** Moving the last start. */
  lemma HeldMoves(m: Manager, s: Start, step: Step)
    requires OfStart(step) && step.i == |m.starts| && Enabled(Held(m, s), step) && !step.GiveBack? && !step.Return? && !step.Mark? && !step.Register?
    ensures Next(Held(m, s), step) == Held(m, Moved(Held(m, s), s, step))
  {
    assert (m.starts + [s])[|m.starts| := Moved(Held(m, s), s, step)] == m.starts + [Moved(Held(m, s), s, step)];
  }

  /** m with start |m.starts| stored. */
  function Storing(m: Manager, id: string): Manager {
    m.(sessions := m.sessions[id := |m.starts|])
  }

  /** A capture up to its registration ... */
  lemma CaptureBegins(m: Manager, id: string)
    requires m.tokens < m.limit && m.closing.Open?
    ensures Leads(PROTOCOL, m, Held(Storing(m, id), Start(id, Registered, Live, true, NotCalled)))
  {
    var i := |m.starts|;
    var blank := Start("", Holding, NoSession, false, NotCalled);
    var launched := Start(id, Launched, Live, false, NotCalled);
    var ready := Start(id, CallbackSet, Live, true, NotCalled);
    var end := Held(Storing(m, id), Start(id, Registered, Live, true, NotCalled));
    Stay(PROTOCOL, end);
    assert (m.starts + [ready])[i := Moved(Held(m, ready), ready, Register(i))] == end.starts;
    assert Next(Held(m, ready), Register(i)) == end;
    Prepend(PROTOCOL, Held(m, ready), Register(i), end);
    HeldMoves(m, launched, SetOnStop(i));
    Prepend(PROTOCOL, Held(m, launched), SetOnStop(i), end);
    HeldMoves(m, blank.(stage := Launching, id := id), Launch(i, true));
    Prepend(PROTOCOL, Held(m, blank.(stage := Launching, id := id)), Launch(i, true), end);
    HeldMoves(m, blank, Check(i, id));
    Prepend(PROTOCOL, Held(m, blank), Check(i, id), end);
    assert Next(m, Acquire) == Held(m, blank);
    Prepend(PROTOCOL, m, Acquire, end);
  }

  /** ... and from there to the check of its release. */
  lemma CaptureEnds(m: Manager, id: string)
    ensures Leads(PROTOCOL, Held(m, Start(id, Registered, Live, true, NotCalled)),
                  Held(m, Finished(id, if id in m.released then TurnedAway else Marked)).(released := m.released + {id}))
  {
    var i := |m.starts|;
    var live := Start(id, Registered, Live, true, NotCalled);
    var called := Finished(id, Called);
    var end := Held(m, Finished(id, if id in m.released then TurnedAway else Marked)).(released := m.released + {id});
    Stay(PROTOCOL, end);
    assert (m.starts + [called])[i := Moved(Held(m, called), called, Mark(i))] == m.starts + [Moved(Held(m, called), called, Mark(i))];
    assert Next(Held(m, called), Mark(i)) == end;
    Prepend(PROTOCOL, Held(m, called), Mark(i), end);
    HeldMoves(m, live.(phase := Stopping), StopEnd(i));
    Prepend(PROTOCOL, Held(m, live.(phase := Stopping)), StopEnd(i), end);
    HeldMoves(m, live, Stop(i));
    Prepend(PROTOCOL, Held(m, live), Stop(i), end);
  }

  /** A whole capture under a name. */
  function Captured(m: Manager, id: string): Manager {
    Held(Storing(m, id), Finished(id, if id in m.released then TurnedAway else Marked)).(released := m.released + {id})
  }

  lemma OneCapture(m: Manager, id: string)
    requires m.tokens < m.limit && m.closing.Open?
    ensures Leads(PROTOCOL, m, Captured(m, id))
  {
    CaptureBegins(m, id);
    CaptureEnds(Storing(m, id), id);
    Chain(PROTOCOL, m, Held(Storing(m, id), Start(id, Registered, Live, true, NotCalled)), Captured(m, id));
  }

  /** When an identifier is used twice, one of the two tokens never comes back. */
  lemma ReuseLeaks()
    ensures exists m :: Reachable(m) && Quiet(m) && !FreshIds(m) && m.tokens == m.limit == 1
  {
    var m := TwoCaptures();
    assert m.starts[0].id == m.starts[1].id;
  }

  lemma TwoCaptures() returns (m: Manager)
    ensures Reachable(m)
    ensures m.starts == [Finished("capture", Returned), Finished("capture", TurnedAway)] && m.tokens == m.limit == 1
  {
    var start := NewManager(1);
    var first := Captured(start, "capture");
    OneCapture(start, "capture");
    assert first.starts == [Finished("capture", Marked)];
    var second := Next(first, Return(0));
    assert second.starts == [Finished("capture", Returned)] && second.tokens == 0;
    m := Captured(second, "capture");
    OneCapture(second, "capture");
    assert m.starts == [Finished("capture", Returned), Finished("capture", TurnedAway)];
    Prepend(PROTOCOL, first, Return(0), m);
    Chain(PROTOCOL, start, first, m);
  }

  lemma OneValue(sessions: map<string, nat>, id: string, v: nat)
    requires sessions == map[id := v]
    ensures sessions.Values == {v}
  {
    assert id in sessions && sessions[id] == v;
  }

  /** Two live sessions under one name. */
  lemma TwoLive() returns (m: Manager)
    ensures Reachable(m) && m.closing.Open? && m.sessions.Values == {1}
    ensures var live := Start("capture", Registered, Live, true, NotCalled); m.starts == [live, live]
  {
    var live := Start("capture", Registered, Live, true, NotCalled);
    var start := NewManager(2);
    var one := Held(Storing(start, "capture"), live);
    m := Held(Storing(one, "capture"), live);
    CaptureBegins(start, "capture");
    CaptureBegins(one, "capture");
    Chain(PROTOCOL, start, one, m);
    assert m.starts == [live, live];
    OneValue(m.sessions, "capture", 1);
  }

  /** ... and Close may return while the session that lost its identifier is still live. */
  lemma ReuseSurvivesClose() returns (m: Manager)
    ensures Reachable(m) && m.closing.Swept? && |m.starts| > 0 && m.starts[0].stage.Registered? && m.starts[0].phase.Live?
  {
    var two := TwoLive();
    var limit :| Leads(PROTOCOL, NewManager(limit), two);
    OneMore(PROTOCOL, NewManager(limit), two, Close);
    m := SweepWithout(Next(two, Close), 0);
    Chain(PROTOCOL, NewManager(limit), Next(two, Close), m);
  }

  // ---- the object ----

  class CaptureManager {
    const limit: nat
    var tokens: nat
    var closed: bool
    var released: set<string>
    var sessions: map<string, nat>

    /** The fields are those of a state of the protocol. */
    ghost predicate Shows(m: Manager)
      reads this
    {
      limit == m.limit && tokens == m.tokens && closed == !m.closing.Open? && released == m.released && sessions == m.sessions
    }

    constructor (limit: nat)
      ensures Shows(NewManager(limit))
    {
      this.limit := limit;
      tokens, closed, released, sessions := 0, false, {}, map[];
    }

    method Acquire(ghost m: Manager) returns (ok: bool)
      requires Shows(m)
      modifies this`tokens
      ensures ok == Enabled(m, Step.Acquire)
      ensures Shows(Next(m, Step.Acquire))
    {
      ok := tokens < limit;
      if ok {
        tokens := tokens + 1;
      }
    }

    /** The last critical section of `Start`; a closed manager does not store the session. */
    method Register(id: string, session: nat, ghost m: Manager) returns (ok: bool)
      requires Shows(m) && Enabled(m, Step.Register(session)) && m.starts[session].id == id
      modifies this`sessions
      ensures ok == m.closing.Open?
      ensures Shows(Next(m, Step.Register(session)))
    {
      if closed {
        return false;
      }
      sessions := sessions[id := session];
      ok := true;
    }

    /** The critical section of `Close`: the sessions to stop; only the first call stops any. */
    method BeginClose(ghost m: Manager) returns (stop: set<nat>)
      requires Shows(m)
      modifies this`closed
      ensures if m.closing.Open? then Shows(Next(m, Close)) && stop == Next(m, Close).closing.todo
              else Shows(Next(m, CloseAgain)) && stop == {}
    {
      if closed {
        return {};
      }
      closed := true;
      stop := sessions.Values;
    }

    /** `release`: the first call for an identifier gives a token back. */
    method Release(id: string, ghost m: Manager, ghost session: nat)
      requires Shows(m) && Inv(m) && Enabled(m, Mark(session)) && m.starts[session].id == id
      modifies this`released, this`tokens
      ensures if id in m.released then Shows(Next(m, Mark(session))) else Shows(Next(Next(m, Mark(session)), Return(session)))
    {
      if id in released {
        assert released + {id} == released;
        return;
      }
      HolderHasToken(m, session);
      released := released + {id};
      tokens := tokens - 1;
    }
  }

  lemma HolderHasToken(m: Manager, i: nat)
    requires Inv(m) && Enabled(m, Mark(i))
    ensures m.tokens > 0
  {
    assert WellFormed(m.starts[i]) && Owns(m.starts[i]);
    CountZeroIff(m.starts, Owns);
  }
}
