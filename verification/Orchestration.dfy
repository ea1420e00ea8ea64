/**
 The probe pool of one diagnostic run (internal/orchestrate/run.go:147-358) as a transition
 system: N workers drain a FIFO queue of jobs, and jobs wait on two one-shot channels that the
 "dns" and "tcp" jobs close.
 */
module Orchestration {
  import opened Lists
  import opened Options
  import opened Runs

  // ---- jobs and their waits ----

  datatype ApplicationProtocol = NoProtocol | HTTP | HTTPS | SMB | RDP | SSH | DNSService | CustomTCP | CustomTLS

  datatype JobName =
    | Dns | InterfaceState | DnsConfiguration | Tcp | DefaultRoute | TargetRoute | Gateway | Proxy | Enterprise
    | Path | Tls | Http | Ssh | Rdp | Smb | DnsProbe

  const FIXED_JOBS: seq<JobName> :=
    [Dns, InterfaceState, DnsConfiguration, Tcp, DefaultRoute, TargetRoute, Gateway, Proxy, Enterprise, Path]

  /** The queue, in the order in which jobs are taken. */
  function JobList(protocol: ApplicationProtocol, dnsProfile: bool): seq<JobName> {
    FIXED_JOBS
    + (match protocol
       case SSH => [Ssh, Tls, Http]
       case RDP => [Rdp, Tls, Http]
       case SMB => [Smb, Tls, Http]
       case _ => [Tls, Http])
    + if dnsProfile || protocol.DNSService? then [DnsProbe] else []
  }

  predicate NeedsResolved(job: JobName) {
    !job.Dns? && !job.InterfaceState? && !job.DnsConfiguration?
  }

  predicate NeedsTransport(job: JobName) {
    job.Path? || job.Tls? || job.Http? || job.Ssh? || job.Rdp? || job.Smb?
    || job.DefaultRoute? || job.TargetRoute? || job.Gateway?
  }

  /** Jobs that run under a packet capture. */
  predicate Captured(job: JobName) {
    job.Tcp? || job.Path?
  }

  const DNS_JOB: nat := 0
  const TCP_JOB: nat := 3

  /** The queue order is a topological order of the waits. */
  ghost predicate Topological(jobs: seq<JobName>) {
    && TCP_JOB < |jobs| && jobs[DNS_JOB] == Dns && jobs[TCP_JOB] == Tcp
    && (forall i :: 0 <= i < |jobs| && jobs[i].Dns? ==> i == DNS_JOB)
    && (forall i :: 0 <= i < |jobs| && jobs[i].Tcp? ==> i == TCP_JOB)
    && (forall i :: 0 <= i < |jobs| && NeedsTransport(jobs[i]) ==> TCP_JOB < i)
  }

  lemma JobListIsTopological(protocol: ApplicationProtocol, dnsProfile: bool)
    ensures Topological(JobList(protocol, dnsProfile))
  {
  }

  // ---- endpoints ----

  datatype Endpoint = Endpoint(address: string, port: nat)

  /** What the pool reads and writes of a target; `own` are its own bounded candidates. */
  datatype Target = Target(literal: bool, port: nat, own: seq<string>, probeCandidates: seq<string>,
                           selected: Option<Endpoint>, tested: Option<Endpoint>)

  const MAX_ENDPOINT_CANDIDATES: nat := 4

  /** Normalised candidate addresses: blanks dropped, the first of equal addresses kept. */
  function Distinct(addresses: seq<string>): (r: seq<string>)
    ensures "" !in r
    ensures forall a :: a in r <==> a in addresses && a != ""
    ensures forall i, j :: 0 <= i < j < |r| ==> r[i] != r[j]
  {
    AllAddedIs([], addresses);
    AllAdded([], addresses)
  }

  method NormalizeCandidates(addresses: seq<string>) returns (result: seq<string>)
    ensures result == Distinct(addresses)
  {
    result := [];
    var seen: set<string> := {};
    for i := 0 to |addresses|
      invariant result == Distinct(addresses[..i])
      invariant forall a :: a in seen <==> a in result
    {
      assert addresses[..i + 1][..i] == addresses[..i];
      if addresses[i] != "" && addresses[i] !in seen {
        seen := seen + {addresses[i]};
        result := result + [addresses[i]];
      }
    }
    assert addresses[..|addresses|] == addresses;
  }

  function Limited(addresses: seq<string>): (r: seq<string>)
    ensures |r| <= MAX_ENDPOINT_CANDIDATES && r <= Distinct(addresses)
  {
    var all := Distinct(addresses);
    if |all| > MAX_ENDPOINT_CANDIDATES then all[..MAX_ENDPOINT_CANDIDATES] else all
  }

  function ApplyCandidates(target: Target, candidates: seq<string>): Target {
    if candidates == [] then target
    else
      var probes := Limited(candidates);
      if probes == [] then target.(probeCandidates := probes)
      else target.(probeCandidates := probes, selected := Some(Endpoint(probes[0], target.port)))
  }

  /** The target after the wait for name resolution. */
  function Resolved(base: Target, published: seq<string>): Target {
    ApplyCandidates(base, if base.literal || published == [] then base.own else published)
  }

  /** ... and after the wait for the transport probe. */
  function Transported(target: Target, tested: Option<Endpoint>): Target {
    if tested.Some? then target.(tested := tested, selected := tested) else target
  }

  // ---- the pool ----

  datatype Outcome = Returned | WaitFailed | Panicked

  datatype Worker =
    | Ready
    | AwaitResolved(i: nat)
    | AwaitTransport(i: nat, target: Target)
    | Starting(i: nat, target: Target)     // packet capture start
    | Running(i: nat, target: Target)      // inside the probe
    | Publishing(i: nat, target: Target, candidates: seq<string>, endpoint: Option<Endpoint>)
    | Closing(i: nat, target: Target, outcome: Outcome)  // the deferred close of dns and tcp
    | Storing(i: nat, outcome: Outcome)
    | Exited

  predicate Holds(w: Worker) {
    !w.Ready? && !w.Exited?
  }

  datatype Pool = Pool(jobs: seq<JobName>, base: Target, next: nat, workers: seq<Worker>,
                       resolvedReady: bool, transportReady: bool, cancelled: bool, startPanicked: bool,
                       candidates: seq<string>, tested: Option<Endpoint>,
                       results: seq<Option<Outcome>>, executed: map<nat, Target>)

  function NewPool(jobs: seq<JobName>, base: Target, concurrency: nat): Pool {
    Pool(jobs, base, 0, seq(if concurrency > |jobs| then |jobs| else concurrency, _ => Ready),
         false, false, false, false, [], None, seq(|jobs|, _ => None), map[])
  }

  datatype Step =
    | Cancel
    | Take(w: nat)
    | Exit(w: nat)
    | Proceed(w: nat)       // a wait ends because its channel is closed
    | GiveUp(w: nat)        // a wait ends because the context is done
    | Started(w: nat)
    | StartPanics(w: nat)
    | Return(w: nat, candidates: seq<string>, endpoint: Option<Endpoint>)
    | Panic(w: nat)
    | Publish(w: nat)
    | Close(w: nat)
    | Store(w: nat)

  predicate Enabled(p: Pool, step: Step) {
    if step.Cancel? then !p.cancelled
    else
      step.w < |p.workers| &&
      var worker := p.workers[step.w];
      match step
      case Cancel => false
      case Take(_) => worker.Ready? && p.next < |p.jobs|
      case Exit(_) => worker.Ready? && p.next >= |p.jobs|
      case Proceed(_) => (worker.AwaitResolved? && p.resolvedReady) || (worker.AwaitTransport? && p.transportReady)
      case GiveUp(_) => (worker.AwaitResolved? || worker.AwaitTransport?) && p.cancelled
      case Started(_) => worker.Starting?
      case StartPanics(_) => worker.Starting?
      case Return(_, _, _) => worker.Running?
      case Panic(_) => worker.Running?
      case Publish(_) => worker.Publishing?
      case Close(_) => worker.Closing?
      case Store(_) => worker.Storing? && worker.i < |p.results|
  }

  /** Where job i goes once it knows its target. */
  function Launched(jobs: seq<JobName>, i: nat, target: Target): Worker {
    if i < |jobs| && Captured(jobs[i]) then Starting(i, target) else Running(i, target)
  }

  function AfterResolved(jobs: seq<JobName>, i: nat, target: Target): Worker {
    if i < |jobs| && NeedsTransport(jobs[i]) then AwaitTransport(i, target) else Launched(jobs, i, target)
  }

  predicate Publishes(jobs: seq<JobName>, i: nat) {
    i < |jobs| && (jobs[i].Dns? || jobs[i].Tcp?)
  }

  /** The worker after its step. */
  function Moved(p: Pool, step: Step): Worker
    requires !step.Cancel? && Enabled(p, step)
  {
    var worker := p.workers[step.w];
    match step
    case Take(_) =>
      if !NeedsResolved(p.jobs[p.next]) then Launched(p.jobs, p.next, p.base)
      else if p.base.literal then AfterResolved(p.jobs, p.next, Resolved(p.base, []))
      else AwaitResolved(p.next)
    case Exit(_) => Exited
    case Proceed(_) =>
      if worker.AwaitResolved? then AfterResolved(p.jobs, worker.i, Resolved(p.base, p.candidates))
      else Launched(p.jobs, worker.i, Transported(worker.target, p.tested))
    case GiveUp(_) => Storing(worker.i, WaitFailed)
    case Started(_) => Running(worker.i, worker.target)
    case StartPanics(_) => Storing(worker.i, Panicked)
    case Return(_, candidates, endpoint) =>
      if Publishes(p.jobs, worker.i) then Publishing(worker.i, worker.target, candidates, endpoint)
      else Storing(worker.i, Returned)
    case Panic(_) =>
      if Publishes(p.jobs, worker.i) then Closing(worker.i, worker.target, Panicked) else Storing(worker.i, Panicked)
    case Publish(_) => Closing(worker.i, worker.target, Returned)
    case Close(_) => Storing(worker.i, worker.outcome)
    case Store(_) => Ready
  }

  function Next(p: Pool, step: Step): Pool {
    if !Enabled(p, step) then p
    else if step.Cancel? then p.(cancelled := true)
    else
      var worker, moved := p.workers[step.w], Moved(p, step);
      p.(workers := p.workers[step.w := moved],
         executed := if moved.Running? then p.executed[moved.i := moved.target] else p.executed,
         next := if step.Take? then p.next + 1 else p.next,
         startPanicked := p.startPanicked || (step.StartPanics? && worker.i == TCP_JOB),
         candidates := if step.Publish? && worker.i == DNS_JOB then worker.candidates else p.candidates,
         tested := if step.Publish? && worker.i != DNS_JOB && worker.endpoint.Some? && worker.endpoint.value.address != ""
                   then worker.endpoint else p.tested,
         resolvedReady := p.resolvedReady || (step.Close? && worker.i == DNS_JOB),
         transportReady := p.transportReady || (step.Close? && worker.i != DNS_JOB),
         results := if step.Store? then p.results[worker.i := Some(worker.outcome)] else p.results)
  }

  const PROTOCOL: System<Pool, Step> := System(Enabled, Next)

  ghost predicate Reachable(p: Pool) {
    exists protocol, dnsProfile, base, concurrency ::
      concurrency >= 1 && Leads(PROTOCOL, NewPool(JobList(protocol, dnsProfile), base, concurrency), p)
  }

  // ---- the invariant ----

  ghost predicate Shape(p: Pool) {
    Topological(p.jobs) && |p.results| == |p.jobs| && p.next <= |p.jobs| && |p.workers| >= 1
  }

  ghost predicate Held(p: Pool, i: nat) {
    exists v :: 0 <= v < |p.workers| && Holds(p.workers[v]) && p.workers[v].i == i
  }

  /** Every taken job is in exactly one place: with one worker, or in its slot. */
  ghost predicate Slots(p: Pool) {
    && |p.results| == |p.jobs| && p.next <= |p.jobs|
    && (forall v :: 0 <= v < |p.workers| && Holds(p.workers[v]) ==>
          p.workers[v].i < p.next && p.results[p.workers[v].i].None?)
    && (forall v, w :: 0 <= v < w < |p.workers| && Holds(p.workers[v]) && Holds(p.workers[w]) ==>
          p.workers[v].i != p.workers[w].i)
    && (forall i :: 0 <= i < p.next && p.results[i].None? ==> Held(p, i))
    && (forall i :: p.next <= i < |p.results| ==> p.results[i].None?)
    && (forall v :: 0 <= v < |p.workers| && p.workers[v].Exited? ==> p.next == |p.jobs|)
  }

  /** The channels as seen by the holder of the job that closes them. */
  ghost predicate HolderSignals(p: Pool, worker: Worker) {
    Holds(worker) ==>
      && (worker.i == DNS_JOB ==> (p.resolvedReady <==> worker.Storing?))
      && (worker.i == TCP_JOB && !worker.Storing? ==> !p.transportReady)
      && (worker.i == TCP_JOB && worker.Storing? ==> p.transportReady || p.cancelled || p.startPanicked)
  }

  ghost predicate Signals(p: Pool) {
    && Shape(p)
    && (forall v :: 0 <= v < |p.workers| ==> HolderSignals(p, p.workers[v]))
    && (p.results[DNS_JOB].Some? ==> p.resolvedReady)
    && (p.results[TCP_JOB].Some? ==> p.transportReady || p.cancelled || p.startPanicked)
    && (p.next <= DNS_JOB ==> !p.resolvedReady)
    && (p.next <= TCP_JOB ==> !p.transportReady)
  }

  /** t is the target job i must execute with, and everything it depends on is published. */
  ghost predicate TargetOk(p: Pool, i: nat, t: Target) {
    && i < |p.jobs|
    && if !NeedsResolved(p.jobs[i]) then t == p.base
       else
         && (p.base.literal || p.resolvedReady)
         && if NeedsTransport(p.jobs[i]) then p.transportReady && t == Transported(Resolved(p.base, p.candidates), p.tested)
            else t == Resolved(p.base, p.candidates)
  }

  ghost predicate WorkerOk(p: Pool, worker: Worker) {
    match worker
    case AwaitResolved(i) => i < |p.jobs| && NeedsResolved(p.jobs[i]) && !p.base.literal
    case AwaitTransport(i, t) =>
      i < |p.jobs| && NeedsTransport(p.jobs[i]) && (p.base.literal || p.resolvedReady) && t == Resolved(p.base, p.candidates)
    case Starting(i, t) => TargetOk(p, i, t) && Captured(p.jobs[i])
    case Running(i, t) => TargetOk(p, i, t)
    case Publishing(i, _, _, _) => Publishes(p.jobs, i)
    case Closing(i, _, _) => Publishes(p.jobs, i)
    case _ => true
  }

  ghost predicate Targets(p: Pool) {
    && (forall v :: 0 <= v < |p.workers| ==> WorkerOk(p, p.workers[v]))
    && (forall i :: i in p.executed ==> TargetOk(p, i, p.executed[i]))
  }

  ghost predicate Inv(p: Pool) {
    Shape(p) && Slots(p) && Signals(p) && Targets(p)
  }

  lemma NewPoolInv(protocol: ApplicationProtocol, dnsProfile: bool, base: Target, concurrency: nat)
    requires concurrency >= 1
    ensures Inv(NewPool(JobList(protocol, dnsProfile), base, concurrency))
  {
    JobListIsTopological(protocol, dnsProfile);
  }

  /** What a step of worker w does to the slots: it takes a job, leaves, fills a slot, or moves on. */
  ghost predicate Advances(p: Pool, q: Pool, w: nat) {
    && w < |p.workers| == |q.workers|
    && q.jobs == p.jobs && q.base == p.base && |q.results| == |p.results|
    && (forall v :: 0 <= v < |p.workers| && v != w ==> q.workers[v] == p.workers[v])
    && var worker, moved := p.workers[w], q.workers[w];
       || (worker.Ready? && Holds(moved) && moved.i == p.next < |p.jobs| && q.next == p.next + 1 && q.results == p.results)
       || (worker.Ready? && moved.Exited? && p.next >= |p.jobs| && q.next == p.next && q.results == p.results)
       || (worker.Storing? && moved.Ready? && q.next == p.next && worker.i < |p.results|
           && q.results == p.results[worker.i := Some(worker.outcome)])
       || (Holds(worker) && Holds(moved) && moved.i == worker.i && q.next == p.next && q.results == p.results)
  }

  lemma MovedWorker(p: Pool, step: Step)
    requires Enabled(p, step) && !step.Cancel?
    ensures var worker, moved := p.workers[step.w], Moved(p, step);
            && (step.Take? ==> worker.Ready? && Holds(moved) && moved.i == p.next)
            && (step.Exit? ==> worker.Ready? && moved.Exited?)
            && (step.Store? ==> worker.Storing? && moved.Ready?)
            && (!step.Take? && !step.Exit? && !step.Store? ==> Holds(worker) && Holds(moved) && moved.i == worker.i)
  {
  }

  lemma NextParts(p: Pool, step: Step)
    requires Enabled(p, step) && !step.Cancel?
    ensures var q := Next(p, step);
            && q.workers == p.workers[step.w := Moved(p, step)]
            && q.executed == (if Moved(p, step).Running? then p.executed[Moved(p, step).i := Moved(p, step).target] else p.executed)
            && q.jobs == p.jobs && q.base == p.base
            && q.next == (if step.Take? then p.next + 1 else p.next)
            && q.results == if step.Store? then p.results[p.workers[step.w].i := Some(p.workers[step.w].outcome)] else p.results
  {
  }

  lemma NextAdvances(p: Pool, step: Step)
    requires Enabled(p, step) && !step.Cancel?
    ensures Advances(p, Next(p, step), step.w)
  {
    MovedWorker(p, step);
    NextParts(p, step);
  }

  lemma AdvanceKeepsHeld(p: Pool, q: Pool, w: nat, i: nat)
    requires Slots(p) && Advances(p, q, w) && i < q.next && q.results[i].None?
    ensures Held(q, i)
  {
    if i < p.next {
      assert Held(p, i);
      var v :| 0 <= v < |p.workers| && Holds(p.workers[v]) && p.workers[v].i == i;
      assert Holds(q.workers[v]) && q.workers[v].i == i;
    } else {
      assert Holds(q.workers[w]) && q.workers[w].i == i;
    }
  }

  lemma AdvanceKeepsSlots(p: Pool, q: Pool, w: nat)
    requires Slots(p) && Advances(p, q, w)
    ensures Slots(q)
  {
    forall i | 0 <= i < q.next && q.results[i].None? ensures Held(q, i) {
      AdvanceKeepsHeld(p, q, w, i);
    }
  }

  lemma CancelKeepsHeld(p: Pool, i: nat)
    requires Held(p, i)
    ensures Held(p.(cancelled := true), i)
  {
    var v :| 0 <= v < |p.workers| && Holds(p.workers[v]) && p.workers[v].i == i;
    assert Holds(p.(cancelled := true).workers[v]);
  }

  lemma StepKeepsSlots(p: Pool, step: Step)
    requires Slots(p) && Enabled(p, step)
    ensures Slots(Next(p, step))
  {
    if step.Cancel? {
      forall i | Held(p, i) ensures Held(p.(cancelled := true), i) {
        CancelKeepsHeld(p, i);
      }
    } else {
      NextAdvances(p, step);
      AdvanceKeepsSlots(p, Next(p, step), step.w);
    }
  }

  /** The signal part of a step, seen from the job that the moving worker holds. */
  lemma StepSignals(p: Pool, step: Step)
    requires Shape(p) && Enabled(p, step) && !step.Cancel?
    requires WorkerOk(p, p.workers[step.w]) && HolderSignals(p, p.workers[step.w])
    requires step.Take? && p.next <= DNS_JOB ==> !p.resolvedReady
    requires step.Take? && p.next <= TCP_JOB ==> !p.transportReady
    ensures var q := Next(p, step);
            && HolderSignals(q, q.workers[step.w])
            && (q.resolvedReady <==> p.resolvedReady || (step.Close? && p.workers[step.w].i == DNS_JOB))
            && (q.transportReady <==> p.transportReady || (step.Close? && p.workers[step.w].i == TCP_JOB))
            && q.cancelled == p.cancelled && (p.startPanicked ==> q.startPanicked)
  {
  }

  lemma StepKeepsSignals(p: Pool, step: Step)
    requires Inv(p) && Enabled(p, step)
    ensures Signals(Next(p, step))
  {
    if step.Cancel? {
      assert forall v :: 0 <= v < |p.workers| ==> HolderSignals(p, p.workers[v]) ==> HolderSignals(Next(p, step), p.workers[v]);
    } else {
      assert WorkerOk(p, p.workers[step.w]) && HolderSignals(p, p.workers[step.w]);
      StepSignals(p, step);
      NextAdvances(p, step);
      AdvanceKeepsSignals(p, Next(p, step), step.w, step.Close?);
    }
  }

  lemma AdvanceKeepsSignals(p: Pool, q: Pool, w: nat, closes: bool)
    requires Shape(p) && Slots(p) && Signals(p) && Advances(p, q, w)
    requires HolderSignals(q, q.workers[w])
    requires closes ==> Holds(p.workers[w])
    requires q.resolvedReady <==> p.resolvedReady || (closes && p.workers[w].i == DNS_JOB)
    requires q.transportReady <==> p.transportReady || (closes && p.workers[w].i == TCP_JOB)
    requires q.cancelled == p.cancelled && (p.startPanicked ==> q.startPanicked)
    ensures Signals(q)
  {
    assert HolderSignals(p, p.workers[w]);
    forall v | 0 <= v < |q.workers| ensures HolderSignals(q, q.workers[v]) {
      assert HolderSignals(p, p.workers[v]);
    }
  }

  /** Publication precedes the close, so nothing a waiter has read ever changes. */
  lemma StepKeepsPublished(p: Pool, step: Step)
    requires Inv(p) && Enabled(p, step)
    ensures var q := Next(p, step);
            && q.base == p.base && q.jobs == p.jobs
            && (p.resolvedReady ==> q.resolvedReady && q.candidates == p.candidates)
            && (p.transportReady ==> q.transportReady && q.tested == p.tested)
  {
    if !step.Cancel? {
      assert WorkerOk(p, p.workers[step.w]) && HolderSignals(p, p.workers[step.w]);
    }
  }

  lemma TargetStays(p: Pool, q: Pool, i: nat, t: Target)
    requires TargetOk(p, i, t) && q.base == p.base && q.jobs == p.jobs
    requires p.resolvedReady ==> q.resolvedReady && q.candidates == p.candidates
    requires p.transportReady ==> q.transportReady && q.tested == p.tested
    ensures TargetOk(q, i, t)
  {
  }

  /** What is demanded of a worker that has just moved. */
  ghost predicate MovedOk(q: Pool, moved: Worker) {
    WorkerOk(q, moved) && (moved.Running? ==> TargetOk(q, moved.i, moved.target))
  }

  lemma LaunchedOk(q: Pool, i: nat, t: Target)
    requires TargetOk(q, i, t)
    ensures MovedOk(q, Launched(q.jobs, i, t))
  {
  }

  lemma AfterResolvedOk(q: Pool, i: nat)
    requires i < |q.jobs| && NeedsResolved(q.jobs[i]) && (q.base.literal || q.resolvedReady)
    ensures MovedOk(q, AfterResolved(q.jobs, i, Resolved(q.base, q.candidates)))
  {
    if !NeedsTransport(q.jobs[i]) {
      LaunchedOk(q, i, Resolved(q.base, q.candidates));
    }
  }

  lemma StepMovesTarget(p: Pool, step: Step)
    requires Inv(p) && Enabled(p, step) && !step.Cancel?
    ensures MovedOk(Next(p, step), Moved(p, step))
  {
    var q := Next(p, step);
    assert WorkerOk(p, p.workers[step.w]);
    StepKeepsPublished(p, step);
    match step
    case Take(_) =>
      if !NeedsResolved(p.jobs[p.next]) {
        LaunchedOk(q, p.next, p.base);
      } else if p.base.literal {
        AfterResolvedOk(q, p.next);
      }
    case Proceed(w) =>
      if p.workers[w].AwaitResolved? {
        AfterResolvedOk(q, p.workers[w].i);
      } else {
        LaunchedOk(q, p.workers[w].i, Transported(p.workers[w].target, p.tested));
      }
    case Started(w) => TargetStays(p, q, p.workers[w].i, p.workers[w].target);
    case _ =>
  }

  lemma WorkerStays(p: Pool, q: Pool, worker: Worker)
    requires WorkerOk(p, worker) && q.base == p.base && q.jobs == p.jobs
    requires p.resolvedReady ==> q.resolvedReady && q.candidates == p.candidates
    requires p.transportReady ==> q.transportReady && q.tested == p.tested
    ensures WorkerOk(q, worker)
  {
    if worker.Starting? || worker.Running? {
      TargetStays(p, q, worker.i, worker.target);
    }
  }

  lemma StepKeepsTargets(p: Pool, step: Step)
    requires Inv(p) && Enabled(p, step)
    ensures Targets(Next(p, step))
  {
    var q := Next(p, step);
    StepKeepsPublished(p, step);
    if !step.Cancel? {
      NextParts(p, step);
      StepMovesTarget(p, step);
    }
    TargetsStay(p, q, if step.Cancel? then |p.workers| else step.w);
  }

  /** Targets keep, given that the one worker that moved (if any) is right. */
  lemma TargetsStay(p: Pool, q: Pool, w: nat)
    requires Targets(p) && |q.workers| == |p.workers| && q.base == p.base && q.jobs == p.jobs
    requires p.resolvedReady ==> q.resolvedReady && q.candidates == p.candidates
    requires p.transportReady ==> q.transportReady && q.tested == p.tested
    requires forall v :: 0 <= v < |p.workers| && v != w ==> q.workers[v] == p.workers[v]
    requires w < |p.workers| ==> WorkerOk(q, q.workers[w])
    requires forall i :: i in q.executed ==> (i in p.executed && q.executed[i] == p.executed[i]) || TargetOk(q, i, q.executed[i])
    ensures Targets(q)
  {
    forall v | 0 <= v < |q.workers| ensures WorkerOk(q, q.workers[v]) {
      if v != w {
        WorkerStays(p, q, p.workers[v]);
      }
    }
    forall i | i in q.executed ensures TargetOk(q, i, q.executed[i]) {
      if i in p.executed && q.executed[i] == p.executed[i] {
        TargetStays(p, q, i, p.executed[i]);
      }
    }
  }

  lemma StepKeepsInv(p: Pool, step: Step)
    requires Inv(p) && Enabled(p, step)
    ensures Inv(Next(p, step))
  {
    StepKeepsSlots(p, step);
    StepKeepsSignals(p, step);
    StepKeepsTargets(p, step);
  }

  lemma StepsKeepInv()
    ensures Keeps(PROTOCOL, Inv)
  {
    forall p, step | Inv(p) && Enabled(p, step) ensures Inv(Next(p, step)) {
      StepKeepsInv(p, step);
    }
  }

  lemma ReachableInv(p: Pool)
    requires Reachable(p)
    ensures Inv(p)
  {
    var protocol, dnsProfile, base, concurrency :|
      concurrency >= 1 && Leads(PROTOCOL, NewPool(JobList(protocol, dnsProfile), base, concurrency), p);
    NewPoolInv(protocol, dnsProfile, base, concurrency);
    StepsKeepInv();
    LeadsKeeps(PROTOCOL, Inv, NewPool(JobList(protocol, dnsProfile), base, concurrency), p);
  }

  // ---- exactly once ----

  /** The jobs taken are a prefix of the queue; each is with exactly one worker or in its slot. */
  lemma JobsAreNeitherLostNorShared(p: Pool, i: nat)
    requires Reachable(p) && i < |p.jobs|
    ensures |p.results| == |p.jobs| && p.next <= |p.jobs|
    ensures i >= p.next ==> p.results[i].None? && !Held(p, i)
    ensures i < p.next ==> (p.results[i].Some? <==> !Held(p, i))
    ensures forall v, w ::
              (0 <= v < w < |p.workers| && Holds(p.workers[v]) && Holds(p.workers[w]) ==> p.workers[v].i != p.workers[w].i)
  {
    ReachableInv(p);
  }

  /** A slot is empty when it is written ... */
  lemma SlotsAreWrittenOnce(p: Pool, w: nat)
    requires Reachable(p) && Enabled(p, Store(w))
    ensures p.results[p.workers[w].i].None?
  {
    ReachableInv(p);
  }

  /** ... and keeps what was written. */
  lemma ResultsAreFinal(p: Pool, q: Pool, i: nat)
    requires Reachable(p) && Leads(PROTOCOL, p, q) && i < |p.results| && p.results[i].Some?
    ensures i < |q.results| && q.results[i] == p.results[i]
  {
    ReachableInv(p);
    var written := (x: Pool) => Slots(x) && i < |x.results| && x.results[i] == p.results[i];
    forall x, step | written(x) && Enabled(x, step) ensures written(Next(x, step)) {
      StepKeepsSlots(x, step);
      if !step.Cancel? {
        NextAdvances(x, step);
      }
    }
    LeadsKeeps(PROTOCOL, written, p, q);
  }

  /** Neither channel is closed twice. */
  lemma ChannelsAreClosedOnce(p: Pool, w: nat)
    requires Reachable(p) && Enabled(p, Close(w))
    ensures (p.workers[w].i == DNS_JOB && !p.resolvedReady) || (p.workers[w].i == TCP_JOB && !p.transportReady)
  {
    ReachableInv(p);
    assert WorkerOk(p, p.workers[w]) && HolderSignals(p, p.workers[w]);
  }

  // ---- deadlock freedom ----

  predicate Waits(w: Worker) {
    w.AwaitResolved? || w.AwaitTransport?
  }

  lemma OwnStep(p: Pool, v: nat) returns (step: Step)
    requires Slots(p) && v < |p.workers| && !Waits(p.workers[v]) && !p.workers[v].Exited?
    ensures !step.Cancel? && Enabled(p, step)
  {
    match p.workers[v]
    case Ready => step := if p.next < |p.jobs| then Take(v) else Exit(v);
    case Starting(_, _) => step := Started(v);
    case Running(_, _) => step := Panic(v);
    case Publishing(_, _, _, _) => step := Publish(v);
    case Closing(_, _, _) => step := Close(v);
    case Storing(_, _) => step := Store(v);
  }

  lemma HolderOf(p: Pool, i: nat) returns (v: nat)
    requires Held(p, i)
    ensures v < |p.workers| && Holds(p.workers[v]) && p.workers[v].i == i
  {
    v :| 0 <= v < |p.workers| && Holds(p.workers[v]) && p.workers[v].i == i;
  }

  /** A worker that waits for name resolution can go on, or the dns job can. */
  lemma ResolvedStep(p: Pool, v: nat) returns (step: Step)
    requires Inv(p) && v < |p.workers| && p.workers[v].AwaitResolved?
    ensures !step.Cancel? && Enabled(p, step)
  {
    if p.resolvedReady {
      step := Proceed(v);
    } else {
      var u := HolderOf(p, DNS_JOB);
      assert WorkerOk(p, p.workers[u]) && HolderSignals(p, p.workers[u]);
      step := OwnStep(p, u);
    }
  }

  /** Nobody waits for ever: while a worker is left, somebody other than the canceller can act. */
  lemma NoDeadlock(p: Pool, v: nat) returns (step: Step)
    requires Reachable(p) && v < |p.workers| && !p.workers[v].Exited?
    requires p.startPanicked ==> p.cancelled
    ensures !step.Cancel? && Enabled(p, step)
  {
    ReachableInv(p);
    if !Waits(p.workers[v]) {
      step := OwnStep(p, v);
    } else if p.cancelled {
      step := GiveUp(v);
    } else if p.workers[v].AwaitResolved? {
      step := ResolvedStep(p, v);
    } else if p.transportReady {
      step := Proceed(v);
    } else {
      assert WorkerOk(p, p.workers[v]);
      var u := HolderOf(p, TCP_JOB);
      assert WorkerOk(p, p.workers[u]);
      if p.workers[u].AwaitResolved? {
        step := ResolvedStep(p, u);
      } else {
        step := OwnStep(p, u);
      }
    }
  }

  // ---- termination ----

  function Rank(w: Worker): nat {
    match w
    case Exited => 0
    case Ready => 1
    case Storing(_, _) => 2
    case Closing(_, _, _) => 3
    case Publishing(_, _, _, _) => 4
    case Running(_, _) => 5
    case Starting(_, _) => 6
    case AwaitTransport(_, _) => 7
    case AwaitResolved(_) => 8
  }

  function RankSum(workers: seq<Worker>): nat {
    if workers == [] then 0 else Rank(workers[0]) + RankSum(workers[1..])
  }

  lemma {:induction false} RankSumUpdate(workers: seq<Worker>, w: nat, moved: Worker)
    requires w < |workers|
    ensures RankSum(workers[w := moved]) + Rank(workers[w]) == RankSum(workers) + Rank(moved)
  {
    if w > 0 {
      RankSumUpdate(workers[1..], w - 1, moved);
      assert workers[w := moved][1..] == workers[1..][w - 1 := moved];
    } else {
      assert workers[w := moved][1..] == workers[1..];
    }
  }

  function Measure(p: Pool): nat {
    (if p.next <= |p.jobs| then 8 * (|p.jobs| - p.next) else 0) + RankSum(p.workers) + if p.cancelled then 0 else 1
  }

  lemma MovedRank(p: Pool, step: Step)
    requires Enabled(p, step) && !step.Cancel?
    ensures if step.Take? then Rank(Moved(p, step)) <= 8 else Rank(Moved(p, step)) < Rank(p.workers[step.w])
  {
  }

  lemma StepLowersMeasure(p: Pool, step: Step)
    requires p.next <= |p.jobs| && Enabled(p, step)
    ensures Measure(Next(p, step)) < Measure(p)
  {
    if !step.Cancel? {
      RankSumUpdate(p.workers, step.w, Moved(p, step));
      MovedRank(p, step);
      NextParts(p, step);
    }
  }

  lemma {:induction false} AllReady(workers: seq<Worker>)
    requires forall v :: 0 <= v < |workers| ==> workers[v].Ready?
    ensures RankSum(workers) == |workers|
  {
    if workers != [] {
      AllReady(workers[1..]);
    }
  }

  /** The pool finishes: no run is longer than eight steps a job, one a worker, and a cancel. */
  lemma RunsAreShort(protocol: ApplicationProtocol, dnsProfile: bool, base: Target, concurrency: nat, run: seq<Step>)
    requires concurrency >= 1
    requires Valid(PROTOCOL, NewPool(JobList(protocol, dnsProfile), base, concurrency), run)
    ensures |run| <= 9 * |JobList(protocol, dnsProfile)| + 1
  {
    var p := NewPool(JobList(protocol, dnsProfile), base, concurrency);
    NewPoolInv(protocol, dnsProfile, base, concurrency);
    StepsKeepInv();
    forall p, step | Inv(p) && Enabled(p, step) ensures Measure(Next(p, step)) < Measure(p) {
      StepLowersMeasure(p, step);
    }
    RunLength(PROTOCOL, Inv, Measure, p, run);
    AllReady(p.workers);
  }

  /** ... and where it can go no further, every worker has left and every slot is filled. */
  lemma StuckMeansDone(p: Pool)
    requires Reachable(p) && (forall step :: Enabled(p, step) ==> step.Cancel?)
    requires p.startPanicked ==> p.cancelled
    ensures forall v :: 0 <= v < |p.workers| ==> p.workers[v].Exited?
    ensures p.next == |p.jobs| == |p.results| && forall i :: 0 <= i < |p.results| ==> p.results[i].Some?
  {
    ReachableInv(p);
    forall v | 0 <= v < |p.workers| ensures p.workers[v].Exited? {
      if !p.workers[v].Exited? {
        var step := NoDeadlock(p, v);
        assert false;
      }
    }
    assert p.workers[0].Exited?;
    forall i | 0 <= i < |p.results| ensures p.results[i].Some? {
      assert !Held(p, i);
    }
  }

  const PATH_JOB: nat := 9

  /** A finished job that needed the transport had it, or the run was cancelled. */
  ghost predicate HadTransport(p: Pool, worker: Worker) {
    worker.Storing? && worker.i < |p.jobs| && NeedsTransport(p.jobs[worker.i]) ==> p.transportReady || p.cancelled
  }

  /** After a panic in its capture start the tcp job only has its result to store, and nothing closes its channel. */
  ghost predicate PanicSilences(p: Pool) {
    p.startPanicked ==>
      && !p.transportReady && p.next > TCP_JOB
      && forall v :: 0 <= v < |p.workers| && Holds(p.workers[v]) && p.workers[v].i == TCP_JOB ==> p.workers[v].Storing?
  }

  ghost predicate Waited(p: Pool) {
    && |p.results| == |p.jobs| > PATH_JOB && p.jobs[PATH_JOB].Path?
    && (forall v :: 0 <= v < |p.workers| ==> HadTransport(p, p.workers[v]))
    && (forall i :: 0 <= i < |p.jobs| && p.results[i].Some? && NeedsTransport(p.jobs[i]) ==> p.transportReady || p.cancelled)
    && PanicSilences(p)
  }

  lemma MovedHadTransport(p: Pool, step: Step)
    requires Inv(p) && Enabled(p, step) && !step.Cancel?
    ensures HadTransport(Next(p, step), Moved(p, step))
  {
    assert WorkerOk(p, p.workers[step.w]);
  }

  lemma StepKeepsSilence(p: Pool, step: Step)
    requires Inv(p) && PanicSilences(p) && Enabled(p, step)
    ensures PanicSilences(Next(p, step))
  {
    if !step.Cancel? {
      var worker := p.workers[step.w];
      assert WorkerOk(p, worker) && HolderSignals(p, worker);
      NextAdvances(p, step);
      NextParts(p, step);
      StepSilence(p, step);
    }
  }

  lemma StepSilence(p: Pool, step: Step)
    requires Enabled(p, step) && !step.Cancel? && Shape(p)
    requires WorkerOk(p, p.workers[step.w]) && HolderSignals(p, p.workers[step.w])
    ensures var q, worker := Next(p, step), p.workers[step.w];
            && (q.startPanicked && !p.startPanicked ==> worker.Starting? && worker.i == TCP_JOB && q.workers[step.w].Storing?
                                                        && !q.transportReady)
            && (q.transportReady && !p.transportReady ==> worker.Closing? && worker.i == TCP_JOB)
            && (worker.Storing? ==> q.workers[step.w].Ready?)
  {
  }

  lemma StepKeepsWaited(p: Pool, step: Step)
    requires Inv(p) && Waited(p) && Enabled(p, step)
    ensures Waited(Next(p, step))
  {
    StepKeepsSilence(p, step);
    if !step.Cancel? {
      var q := Next(p, step);
      MovedHadTransport(p, step);
      NextParts(p, step);
      assert HadTransport(p, p.workers[step.w]);
      assert p.transportReady ==> q.transportReady;
      assert q.cancelled == p.cancelled;
      forall v | 0 <= v < |q.workers| ensures HadTransport(q, q.workers[v]) {
        assert HadTransport(p, p.workers[v]);
      }
    }
  }

  lemma ReachableWaited(p: Pool)
    requires Reachable(p)
    ensures Inv(p) && Waited(p)
  {
    var protocol, dnsProfile, base, concurrency :|
      concurrency >= 1 && Leads(PROTOCOL, NewPool(JobList(protocol, dnsProfile), base, concurrency), p);
    NewPoolInv(protocol, dnsProfile, base, concurrency);
    var both := (x: Pool) => Inv(x) && Waited(x);
    forall x, step | both(x) && Enabled(x, step) ensures both(Next(x, step)) {
      StepKeepsInv(x, step);
      StepKeepsWaited(x, step);
    }
    assert Keeps(PROTOCOL, both);
    LeadsKeeps(PROTOCOL, both, NewPool(JobList(protocol, dnsProfile), base, concurrency), p);
  }

  ghost predicate AllFilled(p: Pool) {
    forall i :: 0 <= i < |p.results| ==> p.results[i].Some?
  }

  /**
   Where the pool can go no further without a cancel, all slots are filled exactly when no capture
   start of the tcp job panicked, or the run was cancelled: the queue always holds a job that waits
   for the transport.
   */
  lemma AllFilledIff(p: Pool)
    requires Reachable(p) && (forall step :: Enabled(p, step) ==> step.Cancel?)
    ensures AllFilled(p) <==> (p.startPanicked ==> p.cancelled)
  {
    ReachableWaited(p);
    if p.startPanicked ==> p.cancelled {
      StuckMeansDone(p);
    }
    assert NeedsTransport(p.jobs[PATH_JOB]);
  }

  /** The tcp job is over, but its channel was never closed. */
  ghost predicate Unsignalled(p: Pool) {
    Inv(p) && p.next > TCP_JOB && !Held(p, TCP_JOB) && !p.transportReady
  }

  lemma UnsignalledStays(x: Pool, step: Step)
    requires Unsignalled(x) && Enabled(x, step)
    ensures Unsignalled(Next(x, step))
  {
    StepKeepsInv(x, step);
    if !step.Cancel? {
      NextAdvances(x, step);
      assert WorkerOk(x, x.workers[step.w]);
      StillUnheld(x, Next(x, step), step.w);
      if Holds(x.workers[step.w]) {
        assert x.workers[step.w].i != TCP_JOB;
      }
    }
  }

  lemma StillUnheld(p: Pool, q: Pool, w: nat)
    requires Advances(p, q, w) && p.next > TCP_JOB && !Held(p, TCP_JOB)
    ensures !Held(q, TCP_JOB)
  {
    forall u | 0 <= u < |q.workers| && Holds(q.workers[u]) ensures q.workers[u].i != TCP_JOB {
      if Holds(p.workers[u]) {
        assert p.workers[u].i != TCP_JOB;
      }
    }
  }

  lemma WaiterStays(x: Pool, step: Step, v: nat)
    requires Unsignalled(x) && Enabled(x, step) && v < |x.workers| && x.workers[v].AwaitTransport?
    ensures v < |Next(x, step).workers|
    ensures Next(x, step).cancelled || Next(x, step).workers[v] == x.workers[v]
  {
    if !step.Cancel? {
      NextParts(x, step);
    }
  }

  /** The tcp channel stays open, and worker v waits for it unless the run was cancelled. */
  ghost predicate Blocked(x: Pool, v: nat, waiting: Worker) {
    Unsignalled(x) && v < |x.workers| && waiting.AwaitTransport? && (x.cancelled || x.workers[v] == waiting)
  }

  lemma StepStaysBlocked(x: Pool, step: Step, v: nat, waiting: Worker)
    requires Blocked(x, v, waiting) && Enabled(x, step)
    ensures Blocked(Next(x, step), v, waiting)
  {
    UnsignalledStays(x, step);
    if x.workers[v] == waiting {
      WaiterStays(x, step, v);
    } else {
      NextKeepsCancelled(x, step);
    }
  }

  lemma NextKeepsCancelled(x: Pool, step: Step)
    requires Enabled(x, step)
    ensures |Next(x, step).workers| == |x.workers| && (x.cancelled ==> Next(x, step).cancelled)
  {
    if !step.Cancel? {
      NextParts(x, step);
    }
  }

  lemma BlockedForever(p: Pool, q: Pool, v: nat, waiting: Worker)
    requires Blocked(p, v, waiting) && Leads(PROTOCOL, p, q)
    ensures Blocked(q, v, waiting)
  {
    var blocked := (x: Pool) => Blocked(x, v, waiting);
    forall x, step | blocked(x) && Enabled(x, step) ensures blocked(Next(x, step)) {
      StepStaysBlocked(x, step, v, waiting);
    }
    assert Keeps(PROTOCOL, blocked);
    LeadsKeeps(PROTOCOL, blocked, p, q);
  }

  /** The assumption on capture start is needed: after a panic there, waiters stay until a cancel. */
  lemma StartPanicBlocksWaiters(p: Pool, q: Pool, v: nat)
    requires Reachable(p) && Leads(PROTOCOL, p, q) && !q.cancelled
    requires p.startPanicked && !Held(p, TCP_JOB) && !p.transportReady
    requires v < |p.workers| && p.workers[v].AwaitTransport?
    ensures v < |q.workers| && q.workers[v] == p.workers[v]
    ensures !Enabled(q, Proceed(v)) && !Enabled(q, GiveUp(v))
  {
    ReachableInv(p);
    assert WorkerOk(p, p.workers[v]) && p.next > TCP_JOB;
    BlockedForever(p, q, v, p.workers[v]);
  }

  /** The first k workers hold the first k jobs of a run on a literal address. */
  ghost predicate LinedUp(p: Pool, k: nat) {
    && p.jobs == JobList(NoProtocol, false) && p.base.literal && |p.workers| == 5 && |p.results| == |p.jobs|
    && p.next == k && !p.cancelled && !p.transportReady
    && (forall v :: k <= v < 5 ==> p.workers[v].Ready?)
    && (forall v :: 0 <= v < k && v < 5 ==> Holds(p.workers[v]) && p.workers[v].i == v)
    && (k > 3 ==> p.workers[3].Starting?) && (k > 4 ==> p.workers[4].AwaitTransport?)
  }

  lemma LineUp(p: Pool, k: nat)
    requires LinedUp(p, k) && k < 5
    ensures Enabled(p, Take(k)) && LinedUp(Next(p, Take(k)), k + 1)
  {
    NextParts(p, Take(k));
    MovedWorker(p, Take(k));
  }

  /** Such a state does occur. */
  lemma StartPanicIsReachable(base: Target) returns (p: Pool, v: nat)
    requires base.literal
    ensures Reachable(p) && !p.cancelled && p.startPanicked && !Held(p, TCP_JOB) && !p.transportReady
    ensures v < |p.workers| && p.workers[v].AwaitTransport?
  {
    var p0 := NewPool(JobList(NoProtocol, false), base, 5);
    LineUp(p0, 0);
    var p1 := Next(p0, Take(0));
    LineUp(p1, 1);
    var p2 := Next(p1, Take(1));
    LineUp(p2, 2);
    var p3 := Next(p2, Take(2));
    LineUp(p3, 3);
    var p4 := Next(p3, Take(3));
    LineUp(p4, 4);
    var p5 := Next(p4, Take(4));
    p := PanicInStart(p5);
    v := 4;
    Prepend(PROTOCOL, p4, Take(4), p);
    Prepend(PROTOCOL, p3, Take(3), p);
    Prepend(PROTOCOL, p2, Take(2), p);
    Prepend(PROTOCOL, p1, Take(1), p);
    Prepend(PROTOCOL, p0, Take(0), p);
  }

  lemma PanicInStart(p: Pool) returns (q: Pool)
    requires LinedUp(p, 5)
    ensures Leads(PROTOCOL, p, q) && !q.cancelled && q.startPanicked && !Held(q, TCP_JOB) && !q.transportReady
    ensures |q.workers| == 5 && q.workers[4].AwaitTransport?
  {
    var panicked := Next(p, StartPanics(3));
    q := Next(panicked, Store(3));
    Stay(PROTOCOL, q);
    Prepend(PROTOCOL, panicked, Store(3), q);
    Prepend(PROTOCOL, p, StartPanics(3), q);
  }

  // ---- waits and endpoints ----

  ghost predicate DenialsExplained(p: Pool) {
    && (forall j :: 0 <= j < |p.results| && p.results[j] == Some(WaitFailed) ==> p.cancelled)
    && (forall v :: 0 <= v < |p.workers| && (p.workers[v].Storing? || p.workers[v].Closing?) && p.workers[v].outcome.WaitFailed?
          ==> p.cancelled)
  }

  lemma StepExplainsDenials(p: Pool, step: Step)
    requires DenialsExplained(p) && Enabled(p, step)
    ensures DenialsExplained(Next(p, step))
  {
    if !step.Cancel? {
      NextParts(p, step);
      var worker, moved := p.workers[step.w], Moved(p, step);
      assert (moved.Storing? || moved.Closing?) && moved.outcome.WaitFailed? ==> p.cancelled;
      assert Next(p, step).cancelled == p.cancelled;
    }
  }

  /** A job is denied its probe only in a cancelled run. */
  lemma WaitsFailOnlyWhenCancelled(p: Pool, i: nat)
    requires Reachable(p) && i < |p.results| && p.results[i] == Some(WaitFailed)
    ensures p.cancelled
  {
    var protocol, dnsProfile, base, concurrency :|
      concurrency >= 1 && Leads(PROTOCOL, NewPool(JobList(protocol, dnsProfile), base, concurrency), p);
    forall x, step | DenialsExplained(x) && Enabled(x, step) ensures DenialsExplained(Next(x, step)) {
      StepExplainsDenials(x, step);
    }
    LeadsKeeps(PROTOCOL, DenialsExplained, NewPool(JobList(protocol, dnsProfile), base, concurrency), p);
  }

  /** The endpoint the transport-dependent jobs of a pool are given. */
  function Agreed(p: Pool): Option<Endpoint> {
    if p.tested.Some? then p.tested else Resolved(p.base, p.candidates).selected
  }

  /** Endpoint agreement: every transport-dependent probe that runs gets the same endpoint. */
  lemma EndpointAgreement(p: Pool, i: nat, j: nat)
    requires Reachable(p) && i in p.executed && j in p.executed
    requires i < |p.jobs| && j < |p.jobs| && NeedsTransport(p.jobs[i]) && NeedsTransport(p.jobs[j])
    ensures p.executed[i].selected == p.executed[j].selected == Agreed(p)
  {
    ReachableInv(p);
    assert TargetOk(p, i, p.executed[i]) && TargetOk(p, j, p.executed[j]);
  }

  /** ... which is settled before the first of them runs and never revised. */
  lemma AgreementIsFinal(p: Pool, q: Pool, i: nat)
    requires Reachable(p) && Leads(PROTOCOL, p, q)
    requires i in p.executed && i < |p.jobs| && NeedsTransport(p.jobs[i])
    ensures Agreed(q) == Agreed(p)
  {
    ReachableInv(p);
    assert TargetOk(p, i, p.executed[i]);
    var settled := (x: Pool) => Inv(x) && x.base == p.base && x.transportReady && x.tested == p.tested
                                && (p.base.literal || (x.resolvedReady && x.candidates == p.candidates));
    forall x, step | settled(x) && Enabled(x, step) ensures settled(Next(x, step)) {
      StepKeepsInv(x, step);
      StepKeepsPublished(x, step);
    }
    LeadsKeeps(PROTOCOL, settled, p, q);
  }

  /** Without a tested endpoint it is the first usable candidate, one of at most four. */
  lemma AgreedIsFirstCandidate(p: Pool)
    requires p.tested.None?
    ensures var candidates := if p.base.literal || p.candidates == [] then p.base.own else p.candidates;
            if exists a :: a in candidates && a != ""
            then Agreed(p) == Some(Endpoint(Distinct(candidates)[0], p.base.port))
            else Agreed(p) == p.base.selected
  {
  }
}
