/**
 How the starts of browser captures go on (internal/capture/manager.go:51-86, 138-175): whoever
 holds a token can move towards giving it back, and a closed manager launches nothing new.
 */
module CaptureProgress {
  import opened Runs
  import opened CaptureManagers
  import Lists

  /** The next step of a start on its way to giving its token back. */
  lemma StartCanGoOn(m: Manager, i: nat) returns (step: Step)
    requires Reachable(m) && i < |m.starts| && Owns(m.starts[i]) && !Leaked(m.starts[i])
    ensures OfStart(step) && step.i == i && Enabled(m, step)
  {
    ReachableInv(m);
    var s := m.starts[i];
    assert WellFormed(s);
    step :=
      if s.stage.Holding? then Check(i, "")
      else if s.stage.Launching? then Launch(i, false)
      else if s.stage.GivingBack? then GiveBack(i)
      else if s.stage.Launched? then SetOnStop(i)
      else if s.stage.CallbackSet? then Register(i)
      else if s.phase.Live? then Stop(i)
      else if s.phase.Stopping? then StopEnd(i)
      else if s.release.Called? then Mark(i)
      else Return(i);
  }

  /** How much of its way a start has left. */
  function Left(s: Start): nat {
    (match s.stage
     case Holding => 5
     case Launching => 4
     case GivingBack => 1
     case Ended => 0
     case Launched => 3
     case CallbackSet => 2
     case Registered => 0
     case Refused => 0)
    + (match s.phase
       case NoSession => 3
       case Live => 2
       case Stopping => 1
       case Stopped => 0)
    + (match s.release
       case NotCalled => 4
       case Called => 3
       case Marked => 2
       case Returned => 0
       case TurnedAway => 0)
  }

  /** Every step of a start is one on its way, and leaves the others where they are. */
  lemma StepGoesOn(m: Manager, step: Step)
    requires Reachable(m) && Enabled(m, step) && OfStart(step)
    ensures var n := Next(m, step);
            && Left(n.starts[step.i]) < Left(m.starts[step.i])
            && |n.starts| == |m.starts| && forall j :: 0 <= j < |m.starts| && j != step.i ==> n.starts[j] == m.starts[j]
  {
    ReachableInv(m);
    assert WellFormed(m.starts[step.i]);
  }

  /** A start that gives its token back lowers the tokens in use by one. */
  lemma GivingBackFrees(m: Manager, step: Step)
    requires Reachable(m) && Enabled(m, step) && (step.GiveBack? || step.Return?)
    ensures m.tokens > 0 && Next(m, step).tokens == m.tokens - 1 && !Owns(Next(m, step).starts[step.i])
  {
    ReachableInv(m);
    assert WellFormed(m.starts[step.i]);
    StepKeepsTokens(m, step);
    StepKeepsInv(m, step);
    TokensInUse(m, step.i);
  }

  lemma TokensInUse(m: Manager, i: nat)
    requires Inv(m) && i < |m.starts| && Owns(m.starts[i])
    ensures m.tokens > 0
  {
    Lists.CountZeroIff(m.starts, Owns);
  }

  // ---- after Close ----

  /** A start that Close found before its admission. */
  predicate Unadmitted(s: Start) {
    (s.stage.Holding? || s.stage.GivingBack? || s.stage.Ended?) && s.phase.NoSession?
  }

  /** From n on, every start is one that was not admitted. */
  ghost predicate NoneAdmitted(m: Manager, i: nat) {
    !m.closing.Open? && i < |m.starts| && Unadmitted(m.starts[i])
  }

  lemma StepAdmitsNobody(m: Manager, step: Step, i: nat)
    requires NoneAdmitted(m, i) && Enabled(m, step)
    ensures NoneAdmitted(Next(m, step), i)
  {
  }

  /** Once the manager is closed, a start that was not admitted yet never gets a session. */
  lemma ClosedAdmitsNobody(m: Manager, n: Manager, i: nat)
    requires !m.closing.Open? && i < |m.starts| && Unadmitted(m.starts[i]) && Leads(PROTOCOL, m, n)
    ensures i < |n.starts| && Unadmitted(n.starts[i])
  {
    var kept := (x: Manager) => NoneAdmitted(x, i);
    forall x, step | kept(x) && Enabled(x, step) ensures kept(Next(x, step)) {
      StepAdmitsNobody(x, step, i);
    }
    LeadsKeeps(PROTOCOL, kept, m, n);
  }

  /** ... and neither does one that begins later. */
  lemma LaterStartsAreUnadmitted(m: Manager, n: Manager, size: nat)
    requires !m.closing.Open? && size == |m.starts| && Leads(PROTOCOL, m, n)
    ensures |n.starts| >= size && forall i :: size <= i < |n.starts| ==> Unadmitted(n.starts[i])
  {
    var kept := (x: Manager) => !x.closing.Open? && |x.starts| >= size && forall i :: size <= i < |x.starts| ==> Unadmitted(x.starts[i]);
    forall x, step | kept(x) && Enabled(x, step) ensures kept(Next(x, step)) {
      LaterStart(x, step, size);
    }
    LeadsKeeps(PROTOCOL, kept, m, n);
  }

  lemma LaterStart(x: Manager, step: Step, size: nat)
    requires !x.closing.Open? && |x.starts| >= size && Enabled(x, step)
    requires forall i :: size <= i < |x.starts| ==> Unadmitted(x.starts[i])
    ensures !Next(x, step).closing.Open? && |Next(x, step).starts| >= size
    ensures forall i :: size <= i < |Next(x, step).starts| ==> Unadmitted(Next(x, step).starts[i])
  {
  }
}
