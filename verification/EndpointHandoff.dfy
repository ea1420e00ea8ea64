/**
 What the probes of one diagnostic run are given and leave behind, in terms of what earlier probes
 returned in that run (internal/orchestrate/run.go:161-179, 285-357, 425-553).
 */
module EndpointHandoff {
  import opened Lists
  import opened Options
  import opened Runs
  import opened Orchestration

  // ---- how a job ended in a run ----

  /** The step ends the probe of a job: it returned, panicked, was not started or gave up waiting. */
  predicate Ends(p: Pool, step: Step, job: nat) {
    && (step.Return? || step.Panic? || step.StartPanics? || step.GiveUp?)
    && step.w < |p.workers| && Holds(p.workers[step.w]) && p.workers[step.w].i == job
  }

  /** The first such step of a run; there is no other. */
  function EndOf(p: Pool, run: seq<Step>, job: nat): Option<Step>
    decreases |run|
  {
    if run == [] then None else if Ends(p, run[0], job) then Some(run[0]) else EndOf(Next(p, run[0]), run[1..], job)
  }

  predicate Returns(end: Option<Step>) {
    end.Some? && end.value.Return?
  }

  /** The tcp probe came back with an endpoint that has an address. */
  predicate ReturnsEndpoint(end: Option<Step>, e: Endpoint) {
    Returns(end) && end.value.endpoint == Some(e) && e.address != ""
  }

  predicate OutcomeFits(end: Option<Step>, outcome: Outcome) {
    && end.Some?
    && (outcome.Returned? <==> end.value.Return?)
    && (outcome.WaitFailed? <==> end.value.GiveUp?)
    && (outcome.Panicked? <==> end.value.Panic? || end.value.StartPanics?)
  }

  /** What the job has published is what its probe returned: candidates for dns, an endpoint for tcp. */
  ghost predicate Published(p: Pool, job: nat, end: Option<Step>) {
    && (job == DNS_JOB ==> p.candidates == if Returns(end) then end.value.candidates else [])
    && (job == TCP_JOB ==>
          && (forall e :: p.tested == Some(e) <==> ReturnsEndpoint(end, e))
          && (p.tested.None? <==> forall e :: !ReturnsEndpoint(end, e)))
  }

  // ---- the invariant ----

  ghost predicate HolderTells(p: Pool, job: nat, end: Option<Step>, worker: Worker) {
    match worker
    case Publishing(_, _, candidates, endpoint) =>
      Returns(end) && end.value.candidates == candidates && end.value.endpoint == endpoint && Published(p, job, None)
    case Closing(_, _, outcome) => OutcomeFits(end, outcome) && Published(p, job, end)
    case Storing(_, outcome) => OutcomeFits(end, outcome) && Published(p, job, end)
    case _ => end.None? && Published(p, job, None)
  }

  ghost predicate Tells(p: Pool, job: nat, end: Option<Step>) {
    && (p.next <= job ==> end.None? && Published(p, job, None))
    && (forall v :: 0 <= v < |p.workers| && Holds(p.workers[v]) && p.workers[v].i == job ==> HolderTells(p, job, end, p.workers[v]))
    && (job < |p.results| && p.results[job].Some? ==> OutcomeFits(end, p.results[job].value) && Published(p, job, end))
  }

  function Later(p: Pool, job: nat, end: Option<Step>, step: Step): Option<Step> {
    if end.None? && Ends(p, step, job) then Some(step) else end
  }

  lemma PublishedKept(p: Pool, q: Pool, job: nat, end: Option<Step>)
    requires Published(p, job, end)
    requires (job == DNS_JOB ==> q.candidates == p.candidates) && (job == TCP_JOB ==> q.tested == p.tested)
    ensures Published(q, job, end)
  {
  }

  /** Only the publication of the job itself changes what it has published. */
  lemma OthersPublishNothing(p: Pool, step: Step, job: nat)
    requires Inv(p) && Enabled(p, step)
    requires step.Publish? ==> p.workers[step.w].i != job
    ensures job == DNS_JOB ==> Next(p, step).candidates == p.candidates
    ensures job == TCP_JOB ==> Next(p, step).tested == p.tested
  {
    if step.Publish? {
      assert WorkerOk(p, p.workers[step.w]);
    }
  }

  /** The worker that holds the job and moves. */
  lemma HolderMoves(p: Pool, step: Step, job: nat, end: Option<Step>)
    requires Inv(p) && Enabled(p, step) && !step.Cancel? && !step.Publish? && !step.Store?
    requires Holds(p.workers[step.w]) && p.workers[step.w].i == job && HolderTells(p, job, end, p.workers[step.w])
    ensures HolderTells(Next(p, step), job, Later(p, job, end, step), Moved(p, step))
  {
    OthersPublishNothing(p, step, job);
    var q := Next(p, step);
    PublishedIsNothing(p, job, end, step);
    forall e | Published(p, job, e) ensures Published(q, job, e) {
      PublishedKept(p, q, job, e);
    }
  }

  /** A probe that did not return has published nothing. */
  lemma PublishedIsNothing(p: Pool, job: nat, end: Option<Step>, step: Step)
    ensures !step.Return? && Published(p, job, None) ==> Published(p, job, Some(step))
  {
  }

  lemma HolderPublishes(p: Pool, step: Step, job: nat, end: Option<Step>)
    requires Inv(p) && Enabled(p, step) && step.Publish? && p.workers[step.w].i == job && HolderTells(p, job, end, p.workers[step.w])
    ensures HolderTells(Next(p, step), job, end, Moved(p, step))
  {
    assert WorkerOk(p, p.workers[step.w]);
  }

  lemma TakenTells(p: Pool, step: Step, end: Option<Step>)
    requires Inv(p) && Enabled(p, step) && step.Take? && Tells(p, p.next, end)
    ensures HolderTells(Next(p, step), p.next, end, Moved(p, step))
  {
    OthersPublishNothing(p, step, p.next);
    PublishedKept(p, Next(p, step), p.next, None);
  }

  lemma PublishedStays(p: Pool, step: Step, job: nat)
    requires Inv(p) && Enabled(p, step) && (step.Publish? ==> p.workers[step.w].i != job)
    ensures forall e :: Published(p, job, e) ==> Published(Next(p, step), job, e)
  {
    OthersPublishNothing(p, step, job);
    forall e | Published(p, job, e) ensures Published(Next(p, step), job, e) {
      PublishedKept(p, Next(p, step), job, e);
    }
  }

  lemma OthersTell(p: Pool, q: Pool, job: nat, end: Option<Step>, w: nat)
    requires Advances(p, q, w) && Tells(p, job, end) && forall e :: Published(p, job, e) ==> Published(q, job, e)
    requires (Holds(p.workers[w]) ==> p.workers[w].i != job) && (Holds(q.workers[w]) ==> q.workers[w].i != job)
    ensures Tells(q, job, end)
  {
    forall v | 0 <= v < |q.workers| && Holds(q.workers[v]) && q.workers[v].i == job ensures HolderTells(q, job, end, q.workers[v]) {
      assert v != w && q.workers[v] == p.workers[v];
      assert HolderTells(p, job, end, p.workers[v]);
    }
  }

  /** A worker moves that does not hold the job, and does not take it. */
  lemma ElsewhereTells(p: Pool, step: Step, job: nat, end: Option<Step>)
    requires Inv(p) && Enabled(p, step) && Tells(p, job, end) && !step.Cancel?
    requires (Holds(p.workers[step.w]) ==> p.workers[step.w].i != job) && (step.Take? ==> p.next != job)
    ensures Later(p, job, end, step) == end && Tells(Next(p, step), job, end)
  {
    NextAdvances(p, step);
    PublishedStays(p, step, job);
    OthersTell(p, Next(p, step), job, end, step.w);
  }

  /** Only the mover holds the job, and it is right about it. */
  lemma MoverTells(p: Pool, q: Pool, job: nat, end: Option<Step>, w: nat)
    requires Slots(p) && Advances(p, q, w) && q.next > job && (Holds(q.workers[w]) ==> HolderTells(q, job, end, q.workers[w]))
    requires (Holds(p.workers[w]) && p.workers[w].i == job) || (!Holds(p.workers[w]) && p.next == job)
    requires job < |q.results| && q.results[job].Some? ==> OutcomeFits(end, q.results[job].value) && Published(q, job, end)
    ensures Tells(q, job, end)
  {
    assert forall v :: 0 <= v < |q.workers| && Holds(q.workers[v]) && q.workers[v].i == job ==> v == w;
  }

  lemma TakeTells(p: Pool, step: Step, end: Option<Step>)
    requires Inv(p) && Enabled(p, step) && step.Take? && Tells(p, p.next, end)
    ensures Tells(Next(p, step), p.next, Later(p, p.next, end, step))
  {
    NextAdvances(p, step);
    TakenTells(p, step, end);
    MoverTells(p, Next(p, step), p.next, end, step.w);
  }

  lemma StoreTells(p: Pool, step: Step, job: nat, end: Option<Step>)
    requires Inv(p) && Enabled(p, step) && step.Store? && Tells(p, job, end) && p.workers[step.w].i == job
    ensures Tells(Next(p, step), job, Later(p, job, end, step))
  {
    NextAdvances(p, step);
    PublishedStays(p, step, job);
    assert HolderTells(p, job, end, p.workers[step.w]);
    MoverTells(p, Next(p, step), job, end, step.w);
  }

  lemma HeldTells(p: Pool, step: Step, job: nat, end: Option<Step>)
    requires Inv(p) && Enabled(p, step) && !step.Cancel? && !step.Take? && !step.Store? && Tells(p, job, end)
    requires Holds(p.workers[step.w]) && p.workers[step.w].i == job
    ensures Tells(Next(p, step), job, Later(p, job, end, step))
  {
    NextAdvances(p, step);
    NextParts(p, step);
    if step.Publish? {
      HolderPublishes(p, step, job, end);
    } else {
      HolderMoves(p, step, job, end);
    }
    MoverTells(p, Next(p, step), job, Later(p, job, end, step), step.w);
  }

  /** The worker moves that holds the job or takes it. */
  lemma HolderStepTells(p: Pool, step: Step, job: nat, end: Option<Step>)
    requires Inv(p) && Enabled(p, step) && Tells(p, job, end) && !step.Cancel?
    requires (Holds(p.workers[step.w]) && p.workers[step.w].i == job) || (step.Take? && p.next == job)
    ensures Tells(Next(p, step), job, Later(p, job, end, step))
  {
    if step.Take? {
      TakeTells(p, step, end);
    } else if step.Store? {
      StoreTells(p, step, job, end);
    } else {
      HeldTells(p, step, job, end);
    }
  }

  lemma CancelTells(p: Pool, job: nat, end: Option<Step>)
    requires Tells(p, job, end)
    ensures Tells(p.(cancelled := true), job, end)
  {
    var q := p.(cancelled := true);
    forall e | Published(p, job, e) ensures Published(q, job, e) {
      PublishedKept(p, q, job, e);
    }
    forall v | 0 <= v < |q.workers| && Holds(q.workers[v]) && q.workers[v].i == job ensures HolderTells(q, job, end, q.workers[v]) {
      assert HolderTells(p, job, end, p.workers[v]);
    }
  }

  lemma StepTells(p: Pool, step: Step, job: nat, end: Option<Step>)
    requires Inv(p) && Enabled(p, step) && Tells(p, job, end)
    ensures Tells(Next(p, step), job, Later(p, job, end, step))
  {
    if step.Cancel? {
      CancelTells(p, job, end);
    } else if (Holds(p.workers[step.w]) && p.workers[step.w].i == job) || (step.Take? && p.next == job) {
      HolderStepTells(p, step, job, end);
    } else {
      ElsewhereTells(p, step, job, end);
    }
  }

  lemma {:induction false} RunTells(p: Pool, run: seq<Step>, job: nat, end: Option<Step>)
    requires Inv(p) && Valid(PROTOCOL, p, run) && Tells(p, job, end)
    ensures Tells(After(PROTOCOL, p, run), job, if end.Some? then end else EndOf(p, run, job))
    decreases |run|
  {
    if run != [] {
      StepTells(p, run[0], job, end);
      StepKeepsInv(p, run[0]);
      RunTells(Next(p, run[0]), run[1..], job, Later(p, job, end, run[0]));
    }
  }

  /** A run of the pool from its beginning. */
  ghost predicate IsRun(start: Pool, run: seq<Step>) {
    Valid(PROTOCOL, start, run) &&
    exists protocol, dnsProfile, base, concurrency ::
      concurrency >= 1 && start == NewPool(JobList(protocol, dnsProfile), base, concurrency)
  }

  lemma EveryRunTells(start: Pool, run: seq<Step>, job: nat)
    requires IsRun(start, run)
    ensures Reachable(After(PROTOCOL, start, run)) && Inv(After(PROTOCOL, start, run))
    ensures Tells(After(PROTOCOL, start, run), job, EndOf(start, run, job))
  {
    var protocol, dnsProfile, base, concurrency :|
      concurrency >= 1 && start == NewPool(JobList(protocol, dnsProfile), base, concurrency);
    NewPoolInv(protocol, dnsProfile, base, concurrency);
    assert Leads(PROTOCOL, start, After(PROTOCOL, start, run));
    ReachableInv(After(PROTOCOL, start, run));
    RunTells(start, run, job, None);
  }

  // ---- what is published ----

  /**
   Once the dns job has closed its channel the published candidates are those its probe returned,
   none if it did not; once the tcp job has closed its own, an endpoint is published exactly if its
   probe returned it, with an address.
   */
  lemma PublishedIsReturned(start: Pool, run: seq<Step>)
    requires IsRun(start, run)
    ensures var p := After(PROTOCOL, start, run);
            && (p.resolvedReady ==> Published(p, DNS_JOB, EndOf(start, run, DNS_JOB)))
            && (p.transportReady ==> Published(p, TCP_JOB, EndOf(start, run, TCP_JOB)))
  {
    var p := After(PROTOCOL, start, run);
    EveryRunTells(start, run, DNS_JOB);
    EveryRunTells(start, run, TCP_JOB);
    if p.resolvedReady {
      ReadyIsPublished(p, DNS_JOB, EndOf(start, run, DNS_JOB));
    }
    if p.transportReady {
      ReadyIsPublished(p, TCP_JOB, EndOf(start, run, TCP_JOB));
    }
  }

  lemma ReadyIsPublished(p: Pool, job: nat, end: Option<Step>)
    requires Inv(p) && Tells(p, job, end) && (job == DNS_JOB || job == TCP_JOB)
    requires if job == DNS_JOB then p.resolvedReady else p.transportReady
    ensures Published(p, job, end)
  {
    if p.results[job].None? {
      var v := HolderOf(p, job);
      assert HolderSignals(p, p.workers[v]) && HolderTells(p, job, end, p.workers[v]);
    }
  }

  // ---- what slots hold ----

  /** A filled slot says how the probe of its job ended in the run: returned, denied its wait, or panicked. */
  lemma SlotsTellEnds(start: Pool, run: seq<Step>, i: nat)
    requires IsRun(start, run) && i < |After(PROTOCOL, start, run).results|
    ensures var p := After(PROTOCOL, start, run);
            p.results[i].Some? ==> OutcomeFits(EndOf(start, run, i), p.results[i].value)
  {
    EveryRunTells(start, run, i);
  }

  // ---- what probes are given ----

  /** The candidates that a run offers: a literal target's own, else those the dns probe returned, else the target's own. */
  function Offered(base: Target, end: Option<Step>): seq<string> {
    if !base.literal && Returns(end) && end.value.candidates != [] then end.value.candidates else base.own
  }

  /** e is the first usable candidate, at the target's port. */
  ghost predicate FirstUsable(candidates: seq<string>, port: nat, e: Endpoint) {
    exists k :: 0 <= k < |candidates| && candidates[k] != "" && (forall j :: 0 <= j < k ==> candidates[j] == "")
                && e == Endpoint(candidates[k], port)
  }

  lemma {:induction false} FirstOfAll(candidates: seq<string>)
    ensures Distinct(candidates) != [] <==> exists k :: 0 <= k < |candidates| && candidates[k] != ""
    ensures Distinct(candidates) != [] ==> FirstUsable(candidates, 0, Endpoint(Distinct(candidates)[0], 0))
  {
    if candidates != [] {
      var front, last := candidates[..|candidates| - 1], candidates[|candidates| - 1];
      FirstOfAll(front);
      assert forall k :: 0 <= k < |front| ==> front[k] == candidates[k];
      if k :| 0 <= k < |front| && front[k] != "" && (forall j :: 0 <= j < k ==> front[j] == "") && Distinct(front) != []
             && Endpoint(Distinct(front)[0], 0) == Endpoint(front[k], 0) {
        assert candidates[k] == front[k] && Distinct(candidates)[0] == Distinct(front)[0];
      }
    }
  }

  lemma FirstIsUsable(candidates: seq<string>, port: nat)
    requires Distinct(candidates) != []
    ensures FirstUsable(candidates, port, Endpoint(Distinct(candidates)[0], port))
  {
    FirstOfAll(candidates);
    var k :| 0 <= k < |candidates| && candidates[k] != "" && (forall j :: 0 <= j < k ==> candidates[j] == "")
             && Endpoint(Distinct(candidates)[0], 0) == Endpoint(candidates[k], 0);
  }

  /** The target that offered candidates make of the base: at most four different ones to probe, the first one selected. */
  ghost predicate Fits(base: Target, candidates: seq<string>, t: Target) {
    && t == base.(probeCandidates := t.probeCandidates, selected := t.selected)
    && (candidates == [] ==> t == base)
    && (candidates != [] ==>
          && |t.probeCandidates| <= 4 && NoRepetition(t.probeCandidates)
          && (forall a :: a in t.probeCandidates ==> a in candidates && a != "")
          && (|t.probeCandidates| < 4 ==> forall a :: a in candidates && a != "" ==> a in t.probeCandidates)
          && (if t.probeCandidates == [] then t.selected == base.selected
              else t.selected.Some? && FirstUsable(candidates, base.port, t.selected.value) && t.selected.value.address == t.probeCandidates[0]))
  }

  lemma AppliedFits(base: Target, candidates: seq<string>)
    ensures Fits(base, candidates, ApplyCandidates(base, candidates))
  {
    if Limited(candidates) != [] {
      FirstIsUsable(candidates, base.port);
    }
  }

  /** ... and for the probes behind the transport: that one too, or with the endpoint that the tcp probe returned. */
  ghost predicate FitsBehind(base: Target, candidates: seq<string>, tcp: Option<Step>, t: Target) {
    && (forall e :: ReturnsEndpoint(tcp, e) ==>
          exists u :: Fits(base, candidates, u) && t == u.(tested := Some(e), selected := Some(e)))
    && ((forall e :: !ReturnsEndpoint(tcp, e)) ==> Fits(base, candidates, t))
  }

  const AT_ONCE: set<JobName> := {Dns, InterfaceState, DnsConfiguration}
  const BEHIND_TRANSPORT: set<JobName> := {DefaultRoute, TargetRoute, Gateway, Path, Tls, Http, Ssh, Rdp, Smb}

  lemma ResolvedFits(p: Pool, end: Option<Step>)
    requires p.base.literal || Published(p, DNS_JOB, end)
    ensures Fits(p.base, Offered(p.base, end), Resolved(p.base, p.candidates))
  {
    AppliedFits(p.base, Offered(p.base, end));
  }

  lemma TransportedFits(base: Target, candidates: seq<string>, u: Target, tested: Option<Endpoint>, tcp: Option<Step>)
    requires Fits(base, candidates, u)
    requires forall e :: tested == Some(e) <==> ReturnsEndpoint(tcp, e)
    requires tested.None? <==> forall e :: !ReturnsEndpoint(tcp, e)
    ensures FitsBehind(base, candidates, tcp, Transported(u, tested))
  {
  }

  /**
   What a probe is executed with: the first three jobs get the target as it came; the tcp, proxy
   and context probes the target that the offered candidates make of it; the probes behind the
   transport that one too, or the endpoint the tcp probe returned as tested and selected.
   */
  lemma ExecutedWith(start: Pool, run: seq<Step>, i: nat)
    requires IsRun(start, run) && i in After(PROTOCOL, start, run).executed && i < |start.jobs|
    ensures var t, tcp := After(PROTOCOL, start, run).executed[i], EndOf(start, run, TCP_JOB);
            var offered := Offered(start.base, EndOf(start, run, DNS_JOB));
            if start.jobs[i] in AT_ONCE then t == start.base
            else if start.jobs[i] !in BEHIND_TRANSPORT then Fits(start.base, offered, t)
            else FitsBehind(start.base, offered, tcp, t)
  {
    var p := After(PROTOCOL, start, run);
    EveryRunTells(start, run, i);
    PublishedIsReturned(start, run);
    RunKeepsJobs(start, run);
    assert TargetOk(p, i, p.executed[i]);
    WaitsAre(start.jobs[i]);
    if start.jobs[i] !in AT_ONCE {
      ResolvedFits(p, EndOf(start, run, DNS_JOB));
      if start.jobs[i] in BEHIND_TRANSPORT {
        TransportedFits(p.base, Offered(p.base, EndOf(start, run, DNS_JOB)), Resolved(p.base, p.candidates), p.tested, EndOf(start, run, TCP_JOB));
      }
    }
  }

  lemma WaitsAre(job: JobName)
    ensures NeedsResolved(job) <==> job !in AT_ONCE
    ensures NeedsTransport(job) <==> job in BEHIND_TRANSPORT
  {
  }

  /** Exactly the tcp and path probes run behind the start of a packet capture. */
  lemma CapturedAfterStart(p: Pool, step: Step)
    requires Reachable(p) && Enabled(p, step) && !step.Cancel? && Moved(p, step).Running? && Moved(p, step).i < |p.jobs|
    ensures step.Started? <==> p.jobs[Moved(p, step).i] in {Tcp, Path}
  {
    ReachableInv(p);
    assert WorkerOk(p, p.workers[step.w]);
  }

  /** The place of a job in any queue. */
  function Place(job: JobName): nat {
    match job
    case Dns => 0
    case InterfaceState => 1
    case DnsConfiguration => 2
    case Tcp => 3
    case DefaultRoute => 4
    case TargetRoute => 5
    case Gateway => 6
    case Proxy => 7
    case Enterprise => 8
    case Path => 9
    case Ssh => 10
    case Rdp => 10
    case Smb => 10
    case Tls => 11
    case Http => 12
    case DnsProbe => 13
  }

  ghost predicate Ascends(jobs: seq<JobName>) {
    forall i, j :: 0 <= i < j < |jobs| ==> Place(jobs[i]) < Place(jobs[j])
  }

  lemma AscendsAppend(a: seq<JobName>, b: seq<JobName>, k: nat)
    requires Ascends(a) && Ascends(b) && (forall x :: x in a ==> Place(x) < k) && (forall x :: x in b ==> k <= Place(x))
    ensures Ascends(a + b)
  {
  }

  function ServiceJobs(protocol: ApplicationProtocol): seq<JobName> {
    match protocol
    case SSH => [Ssh, Tls, Http]
    case RDP => [Rdp, Tls, Http]
    case SMB => [Smb, Tls, Http]
    case _ => [Tls, Http]
  }

  lemma FixedAre(job: JobName)
    ensures Ascends(FIXED_JOBS) && (job in FIXED_JOBS <==> Place(job) < 10)
  {
    assert forall i :: 0 <= i < |FIXED_JOBS| ==> Place(FIXED_JOBS[i]) == i;
    assert Place(job) < 10 ==> FIXED_JOBS[Place(job)] == job;
  }

  lemma ServiceJobsAre(protocol: ApplicationProtocol, job: JobName)
    ensures Ascends(ServiceJobs(protocol))
    ensures job in ServiceJobs(protocol) <==>
              job.Tls? || job.Http? || (job.Ssh? && protocol.SSH?) || (job.Rdp? && protocol.RDP?) || (job.Smb? && protocol.SMB?)
  {
    var jobs := ServiceJobs(protocol);
    assert |jobs| == 2 || |jobs| == 3;
    assert jobs[|jobs| - 2] == Tls && jobs[|jobs| - 1] == Http;
  }

  function LastJobs(protocol: ApplicationProtocol, dnsProfile: bool): seq<JobName> {
    if dnsProfile || protocol.DNSService? then [DnsProbe] else []
  }

  lemma ListIs(protocol: ApplicationProtocol, dnsProfile: bool)
    ensures JobList(protocol, dnsProfile) == FIXED_JOBS + ServiceJobs(protocol) + LastJobs(protocol, dnsProfile)
  {
  }

  lemma PartsAscend(a: seq<JobName>, b: seq<JobName>, c: seq<JobName>)
    requires Ascends(a) && Ascends(b) && Ascends(c)
    requires forall x :: (x in a ==> Place(x) < 10) && (x in b ==> 10 <= Place(x) < 13) && (x in c ==> 13 <= Place(x))
    ensures Ascends(a + b + c)
    ensures forall x :: x in a + b + c <==> x in a || x in b || x in c
  {
    AscendsAppend(a, b, 10);
    AscendsAppend(a + b, c, 13);
  }

  /** The queue holds every job of the protocol once, the name resolution first and the application probes last. */
  lemma EveryJobOnce(protocol: ApplicationProtocol, dnsProfile: bool, job: JobName)
    ensures Ascends(JobList(protocol, dnsProfile))
    ensures job in JobList(protocol, dnsProfile) <==>
              match job
              case Ssh => protocol.SSH?
              case Rdp => protocol.RDP?
              case Smb => protocol.SMB?
              case DnsProbe => dnsProfile || protocol.DNSService?
              case _ => true
  {
    ListIs(protocol, dnsProfile);
    FixedAre(job);
    ServiceJobsAre(protocol, job);
    forall x ensures (x in FIXED_JOBS ==> Place(x) < 10) && (x in ServiceJobs(protocol) ==> 10 <= Place(x) < 13) {
      FixedAre(x);
      ServiceJobsAre(protocol, x);
    }
    PartsAscend(FIXED_JOBS, ServiceJobs(protocol), LastJobs(protocol, dnsProfile));
  }

  lemma {:induction false} RunKeepsJobs(p: Pool, run: seq<Step>)
    requires Valid(PROTOCOL, p, run)
    ensures After(PROTOCOL, p, run).jobs == p.jobs && After(PROTOCOL, p, run).base == p.base
    decreases |run|
  {
    if run != [] {
      if !run[0].Cancel? {
        NextParts(p, run[0]);
      }
      RunKeepsJobs(Next(p, run[0]), run[1..]);
    }
  }

  /** In short: when the tcp probe returned an endpoint, every probe behind the transport is given exactly that one. */
  lemma DependentsGetTested(start: Pool, run: seq<Step>, i: nat, e: Endpoint)
    requires IsRun(start, run) && i in After(PROTOCOL, start, run).executed && i < |start.jobs| && start.jobs[i] in BEHIND_TRANSPORT
    requires ReturnsEndpoint(EndOf(start, run, TCP_JOB), e)
    ensures After(PROTOCOL, start, run).executed[i].selected == Some(e)
  {
    ExecutedWith(start, run, i);
  }
}
