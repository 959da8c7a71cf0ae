/**
 * Command jobs, client sessions and probe runs: what each command does to the three registries
 * as a whole, and what holds over every sequence of commands.
 */
module Lifecycle {
  import opened Options

  type JobId = nat
  type ClientId = nat
  type ProbeId = nat
  type StreamKey = nat

  datatype JobStatus = JobCreated | Running | Streaming | Completed | JobFailed | Cancelled | Interrupted | TimedOut
  datatype Category = Snapshot | ProbeCategory | Mutation
  datatype ProbeStatus = ProbeCreated | Active | Paused | Stopped | ProbeFailed

  /** A job; `client` is None for the empty session id. */
  datatype Job = Job(
    client: Option<ClientId>, category: Category, status: JobStatus, foreground: bool,
    updatedAt: int, completedAt: Option<int>)

  datatype Client = Client(foreground: Option<JobId>, lastAccess: int)

  datatype Probe = Probe(status: ProbeStatus, job: Option<JobId>, updatedAt: int, stoppedAt: Option<int>)

  /** A tracked probe context; `managed` types are stopped by their command's handler. */
  datatype Context = Context(probe: ProbeId, managed: bool)

  datatype Registries = Registries(
    jobs: map<JobId, Job>, clients: map<ClientId, Client>, probes: map<ProbeId, Probe>, contexts: map<StreamKey, Context>)

  const EMPTY := Registries(map[], map[], map[], map[])

  predicate JobOver(s: JobStatus) {
    s in {Completed, JobFailed, Cancelled, Interrupted, TimedOut}
  }

  predicate ProbeOver(s: ProbeStatus) {
    s == Stopped || s == ProbeFailed
  }

  predicate LegalJob(from: JobStatus, to: JobStatus) {
    match from
    case JobCreated => to == Running
    case Running => to == Streaming || JobOver(to)
    case Streaming => JobOver(to)
    case _ => false
  }

  predicate LegalProbe(from: ProbeStatus, to: ProbeStatus) {
    match from
    case ProbeCreated => to == Active
    case Active => to == Paused || ProbeOver(to)
    case Paused => to == Active || ProbeOver(to)
    case _ => false
  }

  // ----- small steps shared by the commands

  /** `JobRegistry.set_status`. */
  function SetJob(r: Registries, id: JobId, status: JobStatus, now: int): Registries {
    if id in r.jobs && LegalJob(r.jobs[id].status, status)
    then r.(jobs := r.jobs[id := r.jobs[id].(
           status := status, updatedAt := now,
           completedAt := if JobOver(status) then Some(now) else r.jobs[id].completedAt)])
    else r
  }

  /** `ProbeRegistry.set_status`. */
  function SetProbe(r: Registries, id: ProbeId, status: ProbeStatus, now: int): Registries {
    if id in r.probes && LegalProbe(r.probes[id].status, status)
    then r.(probes := r.probes[id := r.probes[id].(
           status := status, updatedAt := now,
           stoppedAt := if ProbeOver(status) then Some(now) else r.probes[id].stoppedAt)])
    else r
  }

  /** `clear_foreground_job` with an expected job. */
  function ClearForeground(r: Registries, client: Option<ClientId>, job: JobId, now: int): Registries {
    if client.Some? && client.value in r.clients && r.clients[client.value].foreground == Some(job)
    then r.(clients := r.clients[client.value := Client(None, now)])
    else r
  }

  /** When a job counts as old: it is over, and that was long enough ago. */
  predicate OldJob(j: Job, age: int, now: int) {
    JobOver(j.status) && now - j.completedAt.Or(j.updatedAt) > age
  }

  function CleanedJobs(r: Registries, completedOnly: bool, age: int, now: int): Registries {
    r.(jobs := map k | k in r.jobs && !(OldJob(r.jobs[k], age, now) && (completedOnly ==> r.jobs[k].status == Completed)) :: r.jobs[k])
  }

  predicate OldProbe(p: Probe, completedOnly: bool, age: int, now: int) {
    p.status != Active && (completedOnly ==> ProbeOver(p.status)) && now - p.stoppedAt.Or(p.updatedAt) > age
  }

  function CleanedProbes(r: Registries, completedOnly: bool, age: int, now: int): Registries {
    r.(probes := map k | k in r.probes && !OldProbe(r.probes[k], completedOnly, age, now) :: r.probes[k])
  }

  function CleanedClients(r: Registries, idle: int, now: int): Registries {
    r.(clients := map k | k in r.clients && (r.clients[k].foreground.Some? || now - r.clients[k].lastAccess <= idle) :: r.clients[k])
  }

  // ----- probe runs in the background

  /** What a handler or a streaming thread does to the probes. */
  datatype Effect =
    | NoEffect
    | StartsProbe(key: StreamKey, probe: ProbeId, managed: bool)
    | EndsProbe(endKey: StreamKey, failed: bool)

  /** A probe context is entered and tracked, or is left and forgotten. */
  function Affected(r: Registries, e: Effect, job: Option<JobId>, now: int): Registries {
    match e
    case NoEffect => r
    case StartsProbe(key, probe, managed) =>
      r.(probes := r.probes[probe := Probe(Active, job, now, None)], contexts := r.contexts[key := Context(probe, managed)])
    case EndsProbe(key, failed) =>
      if key in r.contexts
      then SetProbe(r, r.contexts[key].probe, if failed then ProbeFailed else Stopped, now).(contexts := r.contexts - {key})
      else r
  }

  /** Several effects, one after the other. */
  function AffectedAll(r: Registries, es: seq<Effect>, job: Option<JobId>, now: int): (s: Registries)
    ensures s.jobs == r.jobs && s.clients == r.clients
    decreases |es|
  {
    if es == [] then r else AffectedAll(Affected(r, es[0], job, now), es[1..], job, now)
  }

  /** New probes have ids of their own. */
  predicate FreshEffects(r: Registries, es: seq<Effect>, job: Option<JobId>, now: int)
    decreases |es|
  {
    es == [] ||
    ((es[0].StartsProbe? ==> es[0].probe !in r.probes) && FreshEffects(Affected(r, es[0], job, now), es[1..], job, now))
  }

  /** What stopping a managed probe through its handler does: report, and perhaps end the context. */
  datatype StopOutcome = StopOutcome(ok: bool, ends: bool, failed: bool)

  predicate Tracks(r: Registries, probe: ProbeId) {
    exists key :: key in r.contexts && r.contexts[key].probe == probe
  }

  /** `_stop_probe_resources` with the context `key` of the probe, if there is one. */
  function StopResources(r: Registries, key: Option<StreamKey>, o: StopOutcome, now: int): (x: (bool, Registries))
    ensures x.1.jobs == r.jobs && x.1.clients == r.clients && x.1.probes.Keys == r.probes.Keys
  {
    if key.None? || key.value !in r.contexts then (true, r)
    else if r.contexts[key.value].managed
    then (o.ok, if o.ends then Affected(r, EndsProbe(key.value, o.failed), None, now) else r)
    else (true, Affected(r, EndsProbe(key.value, false), None, now))
  }

  /** A job ends, and its client stops waiting for it. */
  function EndJob(r: Registries, id: JobId, status: JobStatus, now: int): Registries
    requires id in r.jobs
  {
    ClearForeground(SetJob(r, id, status, now), r.jobs[id].client, id, now)
  }

  /** `_finish_probe_job`. */
  function FinishJob(r: Registries, probe: ProbeId, status: JobStatus, now: int): Registries {
    if probe in r.probes && r.probes[probe].job.Some? && r.probes[probe].job.value in r.jobs then
      var id := r.probes[probe].job.value;
      var j := r.jobs[id];
      if JobOver(j.status) || !LegalJob(j.status, status) then r
      else if j.foreground then EndJob(r, id, status, now)
      else SetJob(r, id, status, now)
    else r
  }

  // ----- the commands

  /** How a handler's `execute` ends; `RaisedLate` is an exception after the job got its final status. */
  datatype Outcome = Ok(success: bool) | ErrorResult | Raised | RaisedLate(success: bool)

  datatype Request = Request(
    client: Option<ClientId>, category: Category, allowsConcurrent: bool, background: bool, start: bool)

  /** Does the one-foreground-job rule apply to this request? */
  predicate Guarded(q: Request) {
    (q.category != Snapshot || !q.allowsConcurrent) && !q.background && q.client.Some?
  }

  predicate Streams(q: Request, success: bool) {
    q.category == ProbeCategory && q.start && success
  }

  function FinalStatus(q: Request, o: Outcome): JobStatus {
    match o
    case Ok(success) => if Streams(q, success) then Streaming else Completed
    case ErrorResult => JobFailed
    case Raised => JobFailed
    case RaisedLate(success) => if Streams(q, success) then JobFailed else Completed
  }

  /** Is there a job that keeps this guarded request out? */
  predicate Blocked(r: Registries, q: Request) {
    && Guarded(q) && q.client.value in r.clients && r.clients[q.client.value].foreground.Some?
    && r.clients[q.client.value].foreground.value in r.jobs
    && !JobOver(r.jobs[r.clients[q.client.value].foreground.value].status)
  }

  /**
   * A dispatched command as a whole. Unless it is refused, the job ends up with its final status,
   * and a registered client that waits for it points at it exactly while it streams.
   */
  function Dispatched(r: Registries, id: JobId, q: Request, o: Outcome, es: seq<Effect>, now: int): (bool, Registries) {
    var c := CleanedJobs(r, false, 600, now);
    var looked := !q.background && q.client.Some? && q.client.value in c.clients;
    if Blocked(c, q) then (false, c.(clients := c.clients[q.client.value := c.clients[q.client.value].(lastAccess := now)]))
    else
      var status := FinalStatus(q, o);
      var job := Job(q.client, q.category, status, !q.background, now, if JobOver(status) then Some(now) else None);
      var d := AffectedAll(c, es, Some(id), now);
      (true,
       d.(jobs := d.jobs[id := job],
          clients := if looked then d.clients[q.client.value := Client(if status == Streaming then Some(id) else None, now)]
                     else d.clients))
  }

  /** `job.interrupt`; `probe` is the probe found for the job and `key` its context. */
  function JobInterrupted(r: Registries, id: JobId, probe: Option<ProbeId>, key: Option<StreamKey>, o: StopOutcome, now: int): (bool, Registries) {
    if id !in r.jobs || JobOver(r.jobs[id].status) || r.jobs[id].category != ProbeCategory then (false, r)
    else
      var (ok, s) := if probe.Some? then StopResources(r, key, o, now) else (true, r);
      if !ok then (false, s)
      else
        var t := if probe.Some? then SetProbe(s, probe.value, Stopped, now) else s;
        if !LegalJob(r.jobs[id].status, Interrupted) then (false, t)
        else (true, EndJob(t, id, Interrupted, now))
  }

  /** `probe.stop`; `key` is the context of the probe. */
  function ProbeStopped(r: Registries, probe: ProbeId, key: Option<StreamKey>, o: StopOutcome, now: int): (bool, Registries) {
    if probe !in r.probes then (false, r)
    else if ProbeOver(r.probes[probe].status) then (true, FinishJob(r, probe, Completed, now))
    else
      var (ok, s) := StopResources(r, key, o, now);
      if !ok then (false, s)
      else if probe in s.probes && !ProbeOver(s.probes[probe].status) && !LegalProbe(s.probes[probe].status, Stopped) then (false, s)
      else (true, FinishJob(SetProbe(s, probe, Stopped, now), probe, Completed, now))
  }

  datatype Command =
    | Dispatch(id: JobId, q: Request, o: Outcome, es: seq<Effect>)
    | Interrupt(id: JobId, found: Option<ProbeId>, key: Option<StreamKey>, stop: StopOutcome)
    | CleanJobs(completedOnly: bool, age: int)
    | StopProbe(probe: ProbeId, key: Option<StreamKey>, stop: StopOutcome)
    | CleanProbes(completedOnly: bool, age: int)
    | NewClient(client: ClientId)
    | CloseClient(client: ClientId)
    | CleanClients(idle: int)
    | InBackground(es: seq<Effect>, owner: Option<JobId>)

  /** Ids of new objects are fresh, and looked-up objects are those there are. */
  ghost predicate Sensible(r: Registries, c: Command, now: int) {
    match c
    case Dispatch(id, _, _, es) => id !in r.jobs && FreshEffects(CleanedJobs(r, false, 600, now), es, Some(id), now)
    case Interrupt(id, found, key, _) =>
      ProbeOf(r, id, found) && (found.Some? ==> KeyOf(r, found.value, key))
    case StopProbe(probe, key, _) => KeyOf(r, probe, key)
    case NewClient(client) => client !in r.clients && forall j :: j in r.jobs ==> r.jobs[j].client != Some(client)
    case InBackground(es, owner) => FreshEffects(r, es, owner, now)
    case _ => true
  }

  /** `found` is a probe of the job, or there is none. */
  ghost predicate ProbeOf(r: Registries, id: JobId, found: Option<ProbeId>) {
    if found.Some? then found.value in r.probes && r.probes[found.value].job == Some(id)
    else forall p :: p in r.probes ==> r.probes[p].job != Some(id)
  }

  /** `key` is a context of the probe, or there is none. */
  ghost predicate KeyOf(r: Registries, probe: ProbeId, key: Option<StreamKey>) {
    if key.Some? then key.value in r.contexts && r.contexts[key.value].probe == probe else !Tracks(r, probe)
  }

  function Apply(r: Registries, c: Command, now: int): Registries {
    match c
    case Dispatch(id, q, o, es) => Dispatched(r, id, q, o, es, now).1
    case Interrupt(id, found, key, stop) => JobInterrupted(r, id, found, key, stop, now).1
    case CleanJobs(completedOnly, age) => CleanedJobs(r, completedOnly, age, now)
    case StopProbe(probe, key, stop) => ProbeStopped(r, probe, key, stop, now).1
    case CleanProbes(completedOnly, age) => CleanedProbes(r, completedOnly, age, now)
    case NewClient(client) => r.(clients := r.clients[client := Client(None, now)])
    case CloseClient(client) => r.(clients := r.clients - {client})
    case CleanClients(idle) => CleanedClients(r, idle, now)
    case InBackground(es, owner) => AffectedAll(r, es, owner, now)
  }

  // ----- what the commands do, said without the functions that compute it

  /** The order of a life: created, running, streaming, over. */
  function JobStage(s: JobStatus): nat {
    if s == JobCreated then 0 else if s == Running then 1 else if s == Streaming then 2 else 3
  }

  /** A job only moves on, and never past running without running. */
  lemma JobsMoveOn(from: JobStatus, to: JobStatus)
    ensures LegalJob(from, to) <==> JobStage(from) < JobStage(to) && (from == JobCreated ==> to == Running)
    ensures JobStage(to) == 3 <==> to !in {JobCreated, Running, Streaming}
  {
  }

  /** A probe is activated first; it may pause and resume until it is over. */
  lemma ProbesMoveOn(from: ProbeStatus, to: ProbeStatus)
    ensures LegalProbe(from, to) <==>
              || (from == ProbeCreated && to == Active)
              || (from in {Active, Paused} && to != from && to != ProbeCreated)
  {
  }

  /** How a dispatched job has ended, or that it streams. */
  lemma DispatchOutcome(r: Registries, id: JobId, q: Request, o: Outcome, es: seq<Effect>, now: int)
    requires id !in r.jobs && Dispatched(r, id, q, o, es, now).0
    ensures var s := Dispatched(r, id, q, o, es, now).1;
      && id in s.jobs && s.jobs[id].client == q.client && s.jobs[id].foreground == !q.background
      && EndsAs(q, o, s.jobs[id].status)
      && (s.jobs[id].completedAt == Some(now) <==> s.jobs[id].status != Streaming)
  {
  }

  /**
   * The status that the outcome of a handler calls for: an error or an exception fails the job, the
   * successful start of a probe streams, everything else completes; and an exception after that
   * fails a job that streams and leaves one that has completed.
   */
  predicate EndsAs(q: Request, o: Outcome, status: JobStatus) {
    && (o == ErrorResult || o == Raised ==> status == JobFailed)
    && (o.Ok? ==> status == if q.category == ProbeCategory && q.start && o.success then Streaming else Completed)
    && (o.RaisedLate? ==> status == if q.category == ProbeCategory && q.start && o.success then JobFailed else Completed)
  }

  /** When a request is turned away. */
  lemma RefusedIff(r: Registries, id: JobId, q: Request, o: Outcome, es: seq<Effect>, now: int)
    requires Good(r) && id !in r.jobs
    ensures !Dispatched(r, id, q, o, es, now).0 <==>
              && !q.background && (q.category != Snapshot || !q.allowsConcurrent)
              && q.client.Some? && q.client.value in r.clients && r.clients[q.client.value].foreground.Some?
  {
    if q.client.Some? && q.client.value in r.clients {
      assert PointsWell(r, q.client.value);
    }
  }

  /**
   * What a request does to the rest: jobs that ended more than ten minutes ago are forgotten, and a
   * registered foreground client is accessed and, if the request is admitted, waits for the job
   * exactly while that streams. No other job or client changes, and a refusal changes nothing else.
   */
  lemma DispatchRest(r: Registries, id: JobId, q: Request, o: Outcome, es: seq<Effect>, now: int)
    requires id !in r.jobs
    ensures var (ok, s) := Dispatched(r, id, q, o, es, now);
      && (forall j :: j != id ==>
            (j in s.jobs <==> j in r.jobs && (r.jobs[j].status in {JobCreated, Running, Streaming}
                                              || now <= r.jobs[j].completedAt.Or(r.jobs[j].updatedAt) + 600)))
      && (forall j :: j in s.jobs && j != id ==> s.jobs[j] == r.jobs[j])
      && s.clients.Keys == r.clients.Keys
      && (forall c :: c in r.clients && (q.background || q.client != Some(c)) ==> s.clients[c] == r.clients[c])
      && (!ok ==> id !in s.jobs && s.probes == r.probes && s.contexts == r.contexts)
    ensures var (ok, s) := Dispatched(r, id, q, o, es, now);
      forall c :: c in r.clients && !q.background && q.client == Some(c) ==>
        && s.clients[c].lastAccess == now
        && s.clients[c].foreground == if !ok then r.clients[c].foreground
                                      else if s.jobs[id].status == Streaming then Some(id) else None
  {
    CleanedMeans(r, false, 600, now);
  }

  /** Cleanup removes what ended more than `age` ago, and nothing else. */
  lemma CleanedMeans(r: Registries, completedOnly: bool, age: int, now: int)
    ensures forall k :: k in CleanedJobs(r, completedOnly, age, now).jobs <==>
              k in r.jobs && (r.jobs[k].status in {JobCreated, Running, Streaming}
                              || now <= r.jobs[k].completedAt.Or(r.jobs[k].updatedAt) + age
                              || (completedOnly && r.jobs[k].status != Completed))
    ensures forall k :: k in CleanedProbes(r, completedOnly, age, now).probes <==>
              k in r.probes && (r.probes[k].status == Active
                                || now <= r.probes[k].stoppedAt.Or(r.probes[k].updatedAt) + age
                                || (completedOnly && r.probes[k].status in {ProbeCreated, Paused}))
    ensures forall k :: k in CleanedClients(r, age, now).clients <==>
              k in r.clients && (r.clients[k].foreground.Some? || now <= r.clients[k].lastAccess + age)
  {
    forall k | k in r.jobs
      ensures JobOver(r.jobs[k].status) <==> r.jobs[k].status !in {JobCreated, Running, Streaming}
    {
      JobsMoveOn(r.jobs[k].status, r.jobs[k].status);
    }
  }

  /** A streaming thread that ends without an exception leaves its probe stopped, otherwise failed. */
  lemma ContextEnds(r: Registries, key: StreamKey, failed: bool, job: Option<JobId>, now: int)
    requires key in r.contexts && r.contexts[key].probe in r.probes
    requires r.probes[r.contexts[key].probe].status in {Active, Paused}
    ensures var s, p := Affected(r, EndsProbe(key, failed), job, now), r.contexts[key].probe;
      && key !in s.contexts && p in s.probes
      && s.probes[p].status == (if failed then ProbeFailed else Stopped) && s.probes[p].stoppedAt == Some(now)
      && forall q :: q in r.probes && q != p ==> q in s.probes && s.probes[q] == r.probes[q]
  {
  }

  /** A probe that is started is active, tracked, and belongs to the job that started it. */
  lemma ContextStarts(r: Registries, key: StreamKey, probe: ProbeId, managed: bool, job: Option<JobId>, now: int)
    requires probe !in r.probes
    ensures var s := Affected(r, StartsProbe(key, probe, managed), job, now);
      && probe in s.probes && s.probes[probe].status == Active && s.probes[probe].job == job
      && s.probes[probe].stoppedAt == None && KeyOf(s, probe, Some(key))
      && forall q :: q in r.probes ==> q in s.probes && s.probes[q] == r.probes[q]
  {
  }

  // ----- invariants

  /** A client points at no job, or at a registered foreground job of its own that is not over. */
  ghost predicate PointsWell(r: Registries, c: ClientId)
    requires c in r.clients
  {
    var f := r.clients[c].foreground;
    f.Some? ==>
      && f.value in r.jobs && !JobOver(r.jobs[f.value].status)
      && r.jobs[f.value].foreground && r.jobs[f.value].client == Some(c)
  }

  /** Between commands every job streams or is over. */
  ghost predicate Good(r: Registries) {
    && (forall c :: c in r.clients ==> PointsWell(r, c))
    && (forall j :: j in r.jobs ==> r.jobs[j].status == Streaming || JobOver(r.jobs[j].status))
  }

  /** Every unfinished foreground job of `c` is the one it points at; so there is at most one. */
  ghost predicate Tracked(r: Registries, c: ClientId) {
    c in r.clients &&
    forall j :: j in r.jobs && !JobOver(r.jobs[j].status) && r.jobs[j].foreground && r.jobs[j].client == Some(c)
      ==> r.clients[c].foreground == Some(j)
  }

  /** What no step undoes: jobs and probes that are over stay as they are while registered, and no unfinished job and no active probe disappears. */
  ghost predicate Progress(r: Registries, s: Registries) {
    && (forall j :: j in r.jobs && JobOver(r.jobs[j].status) && j in s.jobs ==> s.jobs[j] == r.jobs[j])
    && (forall j :: j in r.jobs && !JobOver(r.jobs[j].status) ==> j in s.jobs)
    && (forall p :: p in r.probes && ProbeOver(r.probes[p].status) && p in s.probes ==> s.probes[p] == r.probes[p])
    && (forall p :: p in r.probes && r.probes[p].status == Active ==> p in s.probes)
  }

  // ----- every command keeps the invariants

  lemma SameJobsGood(r: Registries, s: Registries)
    requires Good(r) && s.jobs == r.jobs && s.clients == r.clients
    ensures Good(s)
  {
    forall c | c in s.clients ensures PointsWell(s, c) {
      assert PointsWell(r, c);
    }
  }

  lemma CleanJobsGood(r: Registries, completedOnly: bool, age: int, now: int)
    requires Good(r)
    ensures Good(CleanedJobs(r, completedOnly, age, now))
  {
    var s := CleanedJobs(r, completedOnly, age, now);
    forall c | c in s.clients ensures PointsWell(s, c) {
      assert PointsWell(r, c);
    }
  }

  /** What ending a job changes. */
  lemma EndJobShape(r: Registries, id: JobId, status: JobStatus, now: int)
    requires Good(r) && id in r.jobs && JobOver(status)
    ensures var s := EndJob(r, id, status, now);
      && s.jobs.Keys == r.jobs.Keys && JobOver(s.jobs[id].status)
      && (forall j :: j in s.jobs && (j != id || JobOver(r.jobs[id].status)) ==> s.jobs[j] == r.jobs[j])
      && s.jobs[id].client == r.jobs[id].client && s.jobs[id].foreground == r.jobs[id].foreground
  {
    SetJobShape(r, id, status, now);
  }

  lemma SetJobShape(r: Registries, id: JobId, status: JobStatus, now: int)
    requires Good(r) && id in r.jobs && JobOver(status)
    ensures var s := SetJob(r, id, status, now);
      && s.jobs.Keys == r.jobs.Keys && JobOver(s.jobs[id].status)
      && (forall j :: j in s.jobs && (j != id || JobOver(r.jobs[id].status)) ==> s.jobs[j] == r.jobs[j])
      && s.jobs[id].client == r.jobs[id].client && s.jobs[id].foreground == r.jobs[id].foreground
    ensures EndJob(r, id, status, now).jobs == SetJob(r, id, status, now).jobs
  {
  }

  /** A job that ends, and the pointer that goes with it. */
  lemma EndJobGood(r: Registries, id: JobId, status: JobStatus, now: int)
    requires Good(r) && id in r.jobs && JobOver(status)
    ensures Good(EndJob(r, id, status, now))
  {
    var s := EndJob(r, id, status, now);
    EndJobShape(r, id, status, now);
    forall c | c in s.clients ensures PointsWell(s, c) {
      EndPointsWell(r, id, status, now, c);
    }
  }

  lemma EndPointsWell(r: Registries, id: JobId, status: JobStatus, now: int, c: ClientId)
    requires id in r.jobs && JobOver(status) && c in r.clients && PointsWell(r, c)
    ensures c in EndJob(r, id, status, now).clients && PointsWell(EndJob(r, id, status, now), c)
  {
  }

  /** A job that is not in the foreground has no pointer to clear. */
  lemma BackgroundJobGood(r: Registries, id: JobId, status: JobStatus, now: int)
    requires Good(r) && id in r.jobs && JobOver(status) && !r.jobs[id].foreground
    ensures Good(SetJob(r, id, status, now))
  {
    var s := SetJob(r, id, status, now);
    forall c | c in s.clients ensures PointsWell(s, c) {
      assert PointsWell(r, c);
    }
  }

  lemma FinishJobGood(r: Registries, probe: ProbeId, status: JobStatus, now: int)
    requires Good(r) && JobOver(status)
    ensures Good(FinishJob(r, probe, status, now))
  {
    if probe in r.probes && r.probes[probe].job.Some? && r.probes[probe].job.value in r.jobs {
      var id := r.probes[probe].job.value;
      if r.jobs[id].foreground {
        EndJobGood(r, id, status, now);
      } else {
        BackgroundJobGood(r, id, status, now);
      }
    }
  }

  /** The job of a probe is over once it has been finished. */
  lemma FinishJobEnds(r: Registries, probe: ProbeId, status: JobStatus, now: int)
    requires Good(r) && JobOver(status) && probe in r.probes
    ensures var s := FinishJob(r, probe, status, now);
      && s.probes == r.probes
      && (r.probes[probe].job.Some? && r.probes[probe].job.value in s.jobs ==> JobOver(s.jobs[r.probes[probe].job.value].status))
  {
  }

  lemma StopResourcesGood(r: Registries, key: Option<StreamKey>, o: StopOutcome, now: int)
    requires Good(r)
    ensures Good(StopResources(r, key, o, now).1)
  {
    SameJobsGood(r, StopResources(r, key, o, now).1);
  }

  lemma DispatchGood(r: Registries, id: JobId, q: Request, o: Outcome, es: seq<Effect>, now: int)
    requires Good(r) && id !in r.jobs
    ensures Good(Dispatched(r, id, q, o, es, now).1)
  {
    var c := CleanedJobs(r, false, 600, now);
    CleanJobsGood(r, false, 600, now);
    var s := Dispatched(r, id, q, o, es, now).1;
    forall k | k in s.clients ensures PointsWell(s, k) {
      assert PointsWell(c, k);
    }
  }

  lemma InterruptGood(r: Registries, id: JobId, found: Option<ProbeId>, key: Option<StreamKey>, o: StopOutcome, now: int)
    requires Good(r)
    ensures Good(JobInterrupted(r, id, found, key, o, now).1)
  {
    StopResourcesGood(r, key, o, now);
    var s := if found.Some? then StopResources(r, key, o, now).1 else r;
    var t := if found.Some? then SetProbe(s, found.value, Stopped, now) else s;
    SameJobsGood(r, s);
    SameJobsGood(r, t);
    if id in t.jobs {
      EndJobGood(t, id, Interrupted, now);
    }
  }

  lemma StopProbeGood(r: Registries, probe: ProbeId, key: Option<StreamKey>, o: StopOutcome, now: int)
    requires Good(r)
    ensures Good(ProbeStopped(r, probe, key, o, now).1)
  {
    FinishJobGood(r, probe, Completed, now);
    StopResourcesGood(r, key, o, now);
    var s := StopResources(r, key, o, now).1;
    SameJobsGood(s, SetProbe(s, probe, Stopped, now));
    FinishJobGood(SetProbe(s, probe, Stopped, now), probe, Completed, now);
  }

  /** Every command keeps all pointers well-placed. */
  lemma ApplyGood(r: Registries, c: Command, now: int)
    requires Good(r) && Sensible(r, c, now)
    ensures Good(Apply(r, c, now))
  {
    match c
    case Dispatch(id, q, o, es) => DispatchGood(r, id, q, o, es, now);
    case Interrupt(id, found, key, stop) => InterruptGood(r, id, found, key, stop, now);
    case CleanJobs(completedOnly, age) => CleanJobsGood(r, completedOnly, age, now);
    case StopProbe(probe, key, stop) => StopProbeGood(r, probe, key, stop, now);
    case CleanProbes(completedOnly, age) => SameJobsGood(r, CleanedProbes(r, completedOnly, age, now));
    case InBackground(es, owner) => SameJobsGood(r, AffectedAll(r, es, owner, now));
    case _ =>
      var s := Apply(r, c, now);
      forall k | k in s.clients ensures PointsWell(s, k) {
        if k in r.clients {
          assert PointsWell(r, k);
        }
      }
  }

  lemma {:induction false} EffectsProgress(r: Registries, es: seq<Effect>, job: Option<JobId>, now: int)
    requires FreshEffects(r, es, job, now)
    ensures Progress(r, AffectedAll(r, es, job, now))
    ensures r.probes.Keys <= AffectedAll(r, es, job, now).probes.Keys
    decreases |es|
  {
    if es != [] {
      var s := Affected(r, es[0], job, now);
      EffectsProgress(s, es[1..], job, now);
    }
  }

  /** Ending one job keeps what is over. */
  lemma EndProgress(r: Registries, s: Registries, id: JobId, status: JobStatus, now: int)
    requires Progress(r, s) && s.jobs == r.jobs && id in s.jobs
    ensures Progress(r, SetJob(s, id, status, now)) && Progress(r, EndJob(s, id, status, now))
  {
    var t := SetJob(s, id, status, now);
    assert t.probes == s.probes && t.jobs.Keys == s.jobs.Keys;
    assert EndJob(s, id, status, now).jobs == t.jobs && EndJob(s, id, status, now).probes == t.probes;
  }

  lemma JobStepProgress(r: Registries, s: Registries, probe: ProbeId, id: JobId, status: JobStatus, now: int)
    requires Progress(r, s) && s.jobs == r.jobs
    ensures Progress(r, FinishJob(s, probe, status, now))
    ensures id in s.jobs ==> Progress(r, EndJob(s, id, status, now))
  {
    if id in s.jobs {
      EndProgress(r, s, id, status, now);
    }
    if probe in s.probes && s.probes[probe].job.Some? && s.probes[probe].job.value in s.jobs {
      EndProgress(r, s, s.probes[probe].job.value, status, now);
    }
  }

  lemma StopResourcesProgress(r: Registries, key: Option<StreamKey>, o: StopOutcome, probe: ProbeId, now: int)
    ensures var s := StopResources(r, key, o, now).1;
      Progress(r, s) && Progress(r, SetProbe(s, probe, Stopped, now))
  {
  }

  /** No command undoes the end of a job or a probe, or loses an unfinished job or an active probe. */
  lemma ApplyProgress(r: Registries, c: Command, now: int)
    requires Sensible(r, c, now)
    ensures Progress(r, Apply(r, c, now))
  {
    match c
    case Dispatch(id, q, o, es) => EffectsProgress(CleanedJobs(r, false, 600, now), es, Some(id), now);
    case InBackground(es, owner) => EffectsProgress(r, es, owner, now);
    case Interrupt(id, found, key, stop) => InterruptProgress(r, id, found, key, stop, now);
    case StopProbe(probe, key, stop) => StopProgress(r, probe, key, stop, now);
    case _ =>
  }

  lemma InterruptProgress(r: Registries, id: JobId, found: Option<ProbeId>, key: Option<StreamKey>, o: StopOutcome, now: int)
    ensures Progress(r, JobInterrupted(r, id, found, key, o, now).1)
  {
    StopResourcesProgress(r, key, o, found.Or(0), now);
    var s := StopResources(r, key, o, now).1;
    JobStepProgress(r, SetProbe(s, found.Or(0), Stopped, now), found.Or(0), id, Interrupted, now);
    JobStepProgress(r, r, 0, id, Interrupted, now);
  }

  lemma StopProgress(r: Registries, probe: ProbeId, key: Option<StreamKey>, o: StopOutcome, now: int)
    ensures Progress(r, ProbeStopped(r, probe, key, o, now).1)
  {
    StopResourcesProgress(r, key, o, probe, now);
    var s := StopResources(r, key, o, now).1;
    JobStepProgress(r, SetProbe(s, probe, Stopped, now), probe, 0, Completed, now);
    JobStepProgress(r, r, probe, 0, Completed, now);
  }

  // ----- whole runs

  datatype Timed = Timed(command: Command, now: int)

  /** The registries after a sequence of commands. */
  ghost function After(run: seq<Timed>): Registries
    decreases |run|
  {
    if run == [] then EMPTY
    else Apply(After(run[..|run| - 1]), run[|run| - 1].command, run[|run| - 1].now)
  }

  ghost predicate IsRun(run: seq<Timed>)
    decreases |run|
  {
    run == [] ||
    (IsRun(run[..|run| - 1]) && Sensible(After(run[..|run| - 1]), run[|run| - 1].command, run[|run| - 1].now))
  }

  /**
   * Over every run of commands, each client points at no job or at an unfinished foreground job
   * of its own that is registered, and no command leaves a job merely created or running.
   */
  lemma {:induction false} PointersOverRuns(run: seq<Timed>)
    requires IsRun(run)
    ensures Good(After(run))
  {
    if run != [] {
      PointersOverRuns(run[..|run| - 1]);
      ApplyGood(After(run[..|run| - 1]), run[|run| - 1].command, run[|run| - 1].now);
    }
  }

  /** A job that is over at some point of a run is unchanged at any later point where it is registered all along. */
  lemma {:induction false} OverIsOver(run: seq<Timed>, n: nat, j: JobId)
    requires IsRun(run) && n <= |run|
    requires forall i :: n <= i <= |run| ==> j in After(run[..i]).jobs
    requires JobOver(After(run[..n]).jobs[j].status)
    ensures j in After(run).jobs && After(run).jobs[j] == After(run[..n]).jobs[j]
    decreases |run|
  {
    assert run[..|run|] == run;
    if n < |run| {
      var before := run[..|run| - 1];
      assert forall i :: 0 <= i <= |before| ==> before[..i] == run[..i];
      OverIsOver(before, n, j);
      ApplyProgress(After(before), run[|run| - 1].command, run[|run| - 1].now);
    }
  }

  /** The same for probes: stopped or failed, they stay so for as long as they are registered. */
  lemma {:induction false} ProbeOverIsOver(run: seq<Timed>, n: nat, p: ProbeId)
    requires IsRun(run) && n <= |run|
    requires forall i :: n <= i <= |run| ==> p in After(run[..i]).probes
    requires ProbeOver(After(run[..n]).probes[p].status)
    ensures p in After(run).probes && After(run).probes[p] == After(run[..n]).probes[p]
    decreases |run|
  {
    assert run[..|run|] == run;
    if n < |run| {
      var before := run[..|run| - 1];
      assert forall i :: 0 <= i <= |before| ==> before[..i] == run[..i];
      ProbeOverIsOver(before, n, p);
      ApplyProgress(After(before), run[|run| - 1].command, run[|run| - 1].now);
    }
  }

  /** A job is over after one of the commands from the `n`-th on. */
  ghost predicate JobEnds(run: seq<Timed>, n: nat, j: JobId) {
    exists i :: n <= i <= |run| && j in After(run[..i]).jobs && JobOver(After(run[..i]).jobs[j].status)
  }

  /** A job that is registered at some point of a run is still registered unless it has ended. */
  lemma {:induction false} NoUnfinishedJobLost(run: seq<Timed>, n: nat, j: JobId)
    requires IsRun(run) && n <= |run| && j in After(run[..n]).jobs
    ensures j in After(run).jobs || JobEnds(run, n, j)
    decreases |run|
  {
    assert run[..|run|] == run;
    if n < |run| {
      var before := run[..|run| - 1];
      assert before[..n] == run[..n];
      NoUnfinishedJobLost(before, n, j);
      JobLostLast(run, n, j);
    }
  }

  lemma JobLostLast(run: seq<Timed>, n: nat, j: JobId)
    requires IsRun(run) && n < |run|
    requires var before := run[..|run| - 1]; j in After(before).jobs || JobEnds(before, n, j)
    ensures j in After(run).jobs || JobEnds(run, n, j)
  {
    var before := run[..|run| - 1];
    if JobEnds(before, n, j) {
      var i :| n <= i <= |before| && j in After(before[..i]).jobs && JobOver(After(before[..i]).jobs[j].status);
      assert before[..i] == run[..i];
    } else {
      assert run[..|run| - 1] == before;
      ApplyProgress(After(before), run[|run| - 1].command, run[|run| - 1].now);
    }
  }

  /** A probe is not active after one of the commands from the `n`-th on. */
  ghost predicate ProbeRests(run: seq<Timed>, n: nat, p: ProbeId) {
    exists i :: n <= i <= |run| && p in After(run[..i]).probes && After(run[..i]).probes[p].status != Active
  }

  /** A probe that is registered at some point of a run is still registered unless it left the active state. */
  lemma {:induction false} NoActiveProbeLost(run: seq<Timed>, n: nat, p: ProbeId)
    requires IsRun(run) && n <= |run| && p in After(run[..n]).probes
    ensures p in After(run).probes || ProbeRests(run, n, p)
    decreases |run|
  {
    assert run[..|run|] == run;
    if n < |run| {
      var before := run[..|run| - 1];
      assert before[..n] == run[..n];
      NoActiveProbeLost(before, n, p);
      ProbeLostLast(run, n, p);
    }
  }

  lemma ProbeLostLast(run: seq<Timed>, n: nat, p: ProbeId)
    requires IsRun(run) && n < |run|
    requires var before := run[..|run| - 1]; p in After(before).probes || ProbeRests(before, n, p)
    ensures p in After(run).probes || ProbeRests(run, n, p)
  {
    var before := run[..|run| - 1];
    if ProbeRests(before, n, p) {
      var i :| n <= i <= |before| && p in After(before[..i]).probes && After(before[..i]).probes[p].status != Active;
      assert before[..i] == run[..i];
    } else {
      assert run[..|run| - 1] == before;
      ApplyProgress(After(before), run[|run| - 1].command, run[|run| - 1].now);
    }
  }

  lemma ClientStep(r: Registries, command: Command, now: int, c: ClientId)
    requires c in Apply(r, command, now).clients
    ensures command == NewClient(c) || (c in r.clients && command != CloseClient(c))
  {
  }

  /** Over every run a registered client was registered by a command, and not closed since. */
  lemma {:induction false} ClientWasNew(run: seq<Timed>, c: ClientId) returns (n: nat)
    requires IsRun(run) && c in After(run).clients
    ensures n < |run| && run[n].command == NewClient(c)
    ensures forall i :: n < i < |run| ==> run[i].command != CloseClient(c)
    decreases |run|
  {
    var before, last := run[..|run| - 1], |run| - 1;
    ClientStep(After(before), run[last].command, run[last].now, c);
    if run[last].command == NewClient(c) {
      n := last;
    } else {
      n := ClientWasNew(before, c);
      assert forall i :: 0 <= i < last ==> before[i] == run[i];
    }
  }

  /** Over every run a job that its dispatch left completed had a handler that reported no error. */
  lemma CompletedHadNoError(run: seq<Timed>, n: nat, id: JobId, q: Request, o: Outcome, es: seq<Effect>)
    requires IsRun(run) && n < |run| && run[n].command == Dispatch(id, q, o, es)
    requires id in After(run[..n + 1]).jobs && After(run[..n + 1]).jobs[id].status == Completed
    ensures o != ErrorResult && o != Raised
  {
    RunPrefix(run, n + 1);
    assert run[..n + 1][..n] == run[..n];
    if Dispatched(After(run[..n]), id, q, o, es, run[n].now).0 {
      DispatchOutcome(After(run[..n]), id, q, o, es, run[n].now);
    }
  }

  lemma {:induction false} RunPrefix(run: seq<Timed>, n: nat)
    requires IsRun(run) && n <= |run|
    ensures IsRun(run[..n])
    decreases |run|
  {
    if n < |run| {
      RunPrefix(run[..|run| - 1], n);
      assert run[..|run| - 1][..n] == run[..n];
    } else {
      assert run[..n] == run;
    }
  }

  // ----- one foreground job at a time

  /** A command with which a client may lose track of a job: a foreground request that is not guarded. */
  predicate Untracked(c: Command, client: ClientId) {
    c.Dispatch? && c.q.client == Some(client) && !c.q.background && !Guarded(c.q)
  }

  lemma TrackDispatch(r: Registries, id: JobId, q: Request, o: Outcome, es: seq<Effect>, client: ClientId, now: int)
    requires Good(r) && Tracked(r, client) && id !in r.jobs
    requires q.client == Some(client) && !q.background ==> Guarded(q)
    ensures Tracked(Dispatched(r, id, q, o, es, now).1, client)
  {
    assert PointsWell(r, client);
  }

  lemma TrackSame(r: Registries, s: Registries, client: ClientId)
    requires Tracked(r, client) && s.jobs == r.jobs && s.clients == r.clients
    ensures Tracked(s, client)
  {
  }

  lemma TrackEnd(r: Registries, id: JobId, status: JobStatus, client: ClientId, now: int)
    requires Tracked(r, client) && JobOver(status) && id in r.jobs && LegalJob(r.jobs[id].status, status)
    ensures Tracked(EndJob(r, id, status, now), client)
    ensures !r.jobs[id].foreground ==> Tracked(SetJob(r, id, status, now), client)
  {
  }

  lemma TrackFinish(r: Registries, probe: ProbeId, status: JobStatus, client: ClientId, now: int)
    requires Tracked(r, client) && JobOver(status)
    ensures Tracked(FinishJob(r, probe, status, now), client)
  {
    if probe in r.probes && r.probes[probe].job.Some? && r.probes[probe].job.value in r.jobs {
      var id := r.probes[probe].job.value;
      if LegalJob(r.jobs[id].status, status) {
        TrackEnd(r, id, status, client, now);
      }
    }
  }

  lemma TrackInterrupt(r: Registries, id: JobId, found: Option<ProbeId>, key: Option<StreamKey>, o: StopOutcome, client: ClientId, now: int)
    requires Tracked(r, client)
    ensures Tracked(JobInterrupted(r, id, found, key, o, now).1, client)
  {
    var s := if found.Some? then StopResources(r, key, o, now).1 else r;
    var t := if found.Some? then SetProbe(s, found.value, Stopped, now) else s;
    TrackSame(r, s, client);
    TrackSame(r, t, client);
    if id in t.jobs && LegalJob(t.jobs[id].status, Interrupted) {
      TrackEnd(t, id, Interrupted, client, now);
    }
  }

  lemma TrackStop(r: Registries, probe: ProbeId, key: Option<StreamKey>, o: StopOutcome, client: ClientId, now: int)
    requires Tracked(r, client)
    ensures Tracked(ProbeStopped(r, probe, key, o, now).1, client)
  {
    var s := StopResources(r, key, o, now).1;
    TrackFinish(r, probe, Completed, client, now);
    TrackSame(r, s, client);
    TrackSame(r, SetProbe(s, probe, Stopped, now), client);
    TrackFinish(SetProbe(s, probe, Stopped, now), probe, Completed, client, now);
  }

  /** Guarded commands keep a registered client's jobs tracked. */
  lemma ApplyTracks(r: Registries, c: Command, client: ClientId, now: int)
    requires Good(r) && Sensible(r, c, now) && Tracked(r, client)
    requires !Untracked(c, client) && client in Apply(r, c, now).clients
    ensures Tracked(Apply(r, c, now), client)
  {
    match c
    case Dispatch(id, q, o, es) => TrackDispatch(r, id, q, o, es, client, now);
    case Interrupt(id, found, key, stop) => TrackInterrupt(r, id, found, key, stop, client, now);
    case StopProbe(probe, key, stop) => TrackStop(r, probe, key, stop, client, now);
    case InBackground(es, owner) => TrackSame(r, AffectedAll(r, es, owner, now), client);
    case CleanProbes(completedOnly, age) => TrackSame(r, CleanedProbes(r, completedOnly, age, now), client);
    case _ =>
  }

  /**
   * If a client issues no unguarded foreground request from its creation on, then while it is
   * registered it has at most one unfinished foreground job, the one it points at.
   */
  lemma {:induction false} OneForegroundJob(run: seq<Timed>, n: nat, client: ClientId)
    requires IsRun(run) && n < |run| && run[n].command == NewClient(client)
    requires forall i :: n < i < |run| ==> !Untracked(run[i].command, client)
    requires forall i :: n < i <= |run| ==> client in After(run[..i]).clients
    ensures Tracked(After(run), client)
    decreases |run|
  {
    assert run[..|run|] == run;
    var before := run[..|run| - 1];
    if n < |before| {
      forall i | n < i <= |before| ensures client in After(before[..i]).clients {
        assert before[..i] == run[..i];
      }
      OneForegroundJob(before, n, client);
      TrackedNext(run, client);
    } else {
      NewClientTracked(run, client);
    }
  }

  lemma NewClientTracked(run: seq<Timed>, client: ClientId)
    requires IsRun(run) && run != [] && run[|run| - 1].command == NewClient(client)
    ensures Tracked(After(run), client)
  {
    PointersOverRuns(run[..|run| - 1]);
  }

  /** The last command of a run keeps a client's jobs tracked. */
  lemma TrackedNext(run: seq<Timed>, client: ClientId)
    requires IsRun(run) && run != [] && Tracked(After(run[..|run| - 1]), client)
    requires !Untracked(run[|run| - 1].command, client) && client in After(run).clients
    ensures Tracked(After(run), client)
  {
    PointersOverRuns(run[..|run| - 1]);
    ApplyTracks(After(run[..|run| - 1]), run[|run| - 1].command, client, run[|run| - 1].now);
  }

  /** An unguarded foreground request that runs loses track of the client's job exactly when there is one. */
  lemma UntrackedIff(r: Registries, id: JobId, q: Request, o: Outcome, es: seq<Effect>, client: ClientId, now: int)
    requires Good(r) && Tracked(r, client) && id !in r.jobs
    requires q.client == Some(client) && !q.background && !Guarded(q)
    ensures Tracked(Dispatched(r, id, q, o, es, now).1, client) <==> r.clients[client].foreground.None?
  {
    assert PointsWell(r, client);
    var s := Dispatched(r, id, q, o, es, now).1;
    if r.clients[client].foreground.Some? {
      var j := r.clients[client].foreground.value;
      assert j in s.jobs && s.jobs[j] == r.jobs[j];
    }
  }

  const WATCH := Request(Some(0), ProbeCategory, false, false, true)
  const SEARCH := Request(Some(0), Snapshot, true, false, false)

  /** A watch, a search, and another watch by one client: two of its foreground jobs stream. */
  lemma TwoForegroundJobs()
    ensures var r0 := Apply(EMPTY, NewClient(0), 0);
            var r1 := Apply(r0, Dispatch(1, WATCH, Ok(true), []), 0);
            var r2 := Apply(r1, Dispatch(2, SEARCH, Ok(true), []), 0);
            var r3 := Apply(r2, Dispatch(3, WATCH, Ok(true), []), 0);
      && Sensible(EMPTY, NewClient(0), 0) && Sensible(r0, Dispatch(1, WATCH, Ok(true), []), 0)
      && Sensible(r1, Dispatch(2, SEARCH, Ok(true), []), 0) && Sensible(r2, Dispatch(3, WATCH, Ok(true), []), 0)
      && r3.jobs.Keys == {1, 2, 3}
      && (forall j :: j in {1, 3} ==> r3.jobs[j].status == Streaming && r3.jobs[j].foreground && r3.jobs[j].client == Some(0))
  {
    var r0 := Apply(EMPTY, NewClient(0), 0);
    var r1 := Apply(r0, Dispatch(1, WATCH, Ok(true), []), 0);
    var first := Job(Some(0), ProbeCategory, Streaming, true, 0, None);
    assert r1.jobs == map[1 := first] && r1.clients == map[0 := Client(Some(1), 0)];
    var r2 := Apply(r1, Dispatch(2, SEARCH, Ok(true), []), 0);
    assert CleanedJobs(r1, false, 600, 0).jobs == r1.jobs;
    assert r2.jobs == map[1 := first, 2 := Job(Some(0), Snapshot, Completed, true, 0, Some(0))];
    assert r2.clients == map[0 := Client(None, 0)];
    assert CleanedJobs(r2, false, 600, 0).jobs == r2.jobs;
  }

  // ----- what a successful stop achieves

  lemma NobodyWaits(s: Registries, job: Option<JobId>)
    requires Good(s) && job.Some? && job.value in s.jobs && JobOver(s.jobs[job.value].status)
    ensures forall c :: c in s.clients ==> s.clients[c].foreground != job
  {
    forall c | c in s.clients ensures s.clients[c].foreground != job {
      assert PointsWell(s, c);
    }
  }

  /** The handler of a managed probe let its context fail. */
  predicate EndsFailed(r: Registries, probe: ProbeId, key: Option<StreamKey>, o: StopOutcome) {
    && key.Some? && key.value in r.contexts && r.contexts[key.value].probe == probe
    && r.contexts[key.value].managed && o.ends && o.failed
  }

  /** The registries right before a successful probe.stop finishes the job. */
  lemma StopEndsProbe(r: Registries, probe: ProbeId, key: Option<StreamKey>, o: StopOutcome, now: int) returns (t: Registries)
    requires Good(r) && ProbeStopped(r, probe, key, o, now).0
    ensures Good(t) && probe in t.probes && ProbeOver(t.probes[probe].status) && t.probes[probe].job == r.probes[probe].job
    ensures t.jobs == r.jobs
    ensures !ProbeOver(r.probes[probe].status) ==>
              t.probes[probe].status == if EndsFailed(r, probe, key, o) then ProbeFailed else Stopped
    ensures ProbeStopped(r, probe, key, o, now).1 == FinishJob(t, probe, Completed, now)
  {
    if ProbeOver(r.probes[probe].status) {
      t := r;
    } else {
      var s := StopResources(r, key, o, now).1;
      SameJobsGood(r, s);
      t := SetProbe(s, probe, Stopped, now);
      SameJobsGood(s, t);
    }
  }

  /**
   * After a successful probe.stop the probe is over, its job is over if it is registered, and no
   * client points at that job.
   */
  lemma StopAchieves(r: Registries, probe: ProbeId, key: Option<StreamKey>, o: StopOutcome, now: int)
    requires Good(r) && ProbeStopped(r, probe, key, o, now).0
    ensures var s := ProbeStopped(r, probe, key, o, now).1;
      && probe in r.probes && probe in s.probes && ProbeOver(s.probes[probe].status) && s.probes[probe].job == r.probes[probe].job
      && (s.probes[probe].job.Some? && s.probes[probe].job.value in s.jobs ==>
            && JobOver(s.jobs[s.probes[probe].job.value].status)
            && forall c :: c in s.clients ==> s.clients[c].foreground != s.probes[probe].job)
  {
    var t := StopEndsProbe(r, probe, key, o, now);
    var s := FinishJob(t, probe, Completed, now);
    FinishJobGood(t, probe, Completed, now);
    FinishJobEnds(t, probe, Completed, now);
    var job := t.probes[probe].job;
    if job.Some? && job.value in s.jobs {
      NobodyWaits(s, job);
    }
  }

  /** Unless something else ended them first, a successful probe.stop leaves the job completed and the probe stopped. */
  lemma StopStatuses(r: Registries, probe: ProbeId, key: Option<StreamKey>, o: StopOutcome, now: int)
    requires Good(r) && ProbeStopped(r, probe, key, o, now).0
    ensures var s := ProbeStopped(r, probe, key, o, now).1;
      && probe in s.probes
      && (!ProbeOver(r.probes[probe].status) ==>
            s.probes[probe].status == if EndsFailed(r, probe, key, o) then ProbeFailed else Stopped)
      && (forall j :: r.probes[probe].job == Some(j) && j in r.jobs && !JobOver(r.jobs[j].status) ==>
            j in s.jobs && s.jobs[j].status == Completed && s.jobs[j].completedAt == Some(now))
  {
    var t := StopEndsProbe(r, probe, key, o, now);
    FinishCompletes(t, probe, now);
  }

  lemma FinishCompletes(t: Registries, probe: ProbeId, now: int)
    requires Good(t) && probe in t.probes
    ensures var s := FinishJob(t, probe, Completed, now);
      && s.probes == t.probes
      && (forall j :: t.probes[probe].job == Some(j) && j in t.jobs && !JobOver(t.jobs[j].status) ==>
            j in s.jobs && s.jobs[j].status == Completed && s.jobs[j].completedAt == Some(now))
  {
  }

  /**
   * When probe.stop succeeds: for a registered probe that is over, or has been activated and whose
   * managed resources, if it has any, can be stopped.
   */
  lemma StopIff(r: Registries, probe: ProbeId, key: Option<StreamKey>, o: StopOutcome, now: int)
    ensures ProbeStopped(r, probe, key, o, now).0 <==>
              && probe in r.probes && r.probes[probe].status != ProbeCreated
              && ((r.probes[probe].status in {Active, Paused}
                   && key.Some? && key.value in r.contexts && r.contexts[key.value].managed) ==> o.ok)
  {
  }

  /** It touches no other probe and no other probe's context, and a tracked probe is stopped through its context. */
  lemma StopTouchesOwn(r: Registries, probe: ProbeId, key: Option<StreamKey>, o: StopOutcome, now: int)
    requires Sensible(r, StopProbe(probe, key, o), now)
    ensures var s := ProbeStopped(r, probe, key, o, now).1;
      && (forall p :: p in r.probes && p != probe ==> p in s.probes && s.probes[p] == r.probes[p])
      && (forall k :: k in r.contexts && r.contexts[k].probe != probe ==> k in s.contexts && s.contexts[k] == r.contexts[k])
      && (forall j :: j in r.jobs && (probe in r.probes ==> r.probes[probe].job != Some(j)) ==>
            j in s.jobs && s.jobs[j] == r.jobs[j])
    ensures forall k :: k in r.contexts && r.contexts[k].probe == probe ==>
              key.Some? && key.value in r.contexts && r.contexts[key.value].probe == probe
  {
    KeyFound(r, probe, key);
    if probe in r.probes {
      if ProbeOver(r.probes[probe].status) {
        FinishTouchesOwn(r, probe, now);
      } else {
        var (ok, s) := StopResources(r, key, o, now);
        ResourcesTouchOwn(r, probe, key, o, now);
        FinishTouchesOwn(SetProbe(s, probe, Stopped, now), probe, now);
      }
    }
  }

  lemma KeyFound(r: Registries, probe: ProbeId, key: Option<StreamKey>)
    requires KeyOf(r, probe, key)
    ensures forall k :: k in r.contexts && r.contexts[k].probe == probe ==>
              key.Some? && key.value in r.contexts && r.contexts[key.value].probe == probe
  {
    forall k | k in r.contexts && r.contexts[k].probe == probe ensures key.Some? {
      assert Tracks(r, probe);
    }
  }

  lemma ResourcesTouchOwn(r: Registries, probe: ProbeId, key: Option<StreamKey>, o: StopOutcome, now: int)
    requires KeyOf(r, probe, key)
    ensures var s := StopResources(r, key, o, now).1;
      && (forall p :: p in r.probes ==> p in s.probes && s.probes[p].job == r.probes[p].job)
      && (forall p :: p in r.probes && p != probe ==> s.probes[p] == r.probes[p])
      && (forall k :: k in r.contexts && r.contexts[k].probe != probe ==> k in s.contexts && s.contexts[k] == r.contexts[k])
  {
  }

  lemma FinishTouchesOwn(r: Registries, probe: ProbeId, now: int)
    requires probe in r.probes
    ensures var s := FinishJob(r, probe, Completed, now);
      && s.probes == r.probes && s.contexts == r.contexts
      && forall j :: j in r.jobs && r.probes[probe].job != Some(j) ==> j in s.jobs && s.jobs[j] == r.jobs[j]
  {
  }

  /**
   * When job.interrupt succeeds: for a registered job of a probe that runs or streams, whose managed
   * resources, if it has any, can be stopped.
   */
  lemma InterruptIff(r: Registries, id: JobId, found: Option<ProbeId>, key: Option<StreamKey>, o: StopOutcome, now: int)
    ensures JobInterrupted(r, id, found, key, o, now).0 <==>
              && id in r.jobs && r.jobs[id].status in {Running, Streaming} && r.jobs[id].category == ProbeCategory
              && (found.Some? && key.Some? && key.value in r.contexts && r.contexts[key.value].managed ==> o.ok)
  {
  }

  /** It touches no probe of another job and no other probe's context. */
  lemma InterruptTouchesOwn(r: Registries, id: JobId, found: Option<ProbeId>, key: Option<StreamKey>, o: StopOutcome, now: int)
    requires Sensible(r, Interrupt(id, found, key, o), now)
    ensures var s := JobInterrupted(r, id, found, key, o, now).1;
      && (forall p :: p in r.probes && r.probes[p].job != Some(id) ==> p in s.probes && s.probes[p] == r.probes[p])
      && (forall k :: k in r.contexts && (r.contexts[k].probe in r.probes ==> r.probes[r.contexts[k].probe].job != Some(id)) ==>
            k in s.contexts && s.contexts[k] == r.contexts[k])
  {
    if id in r.jobs && !JobOver(r.jobs[id].status) && r.jobs[id].category == ProbeCategory && found.Some? {
      ResourcesTouchOwn(r, found.value, key, o, now);
    }
  }

  /** What it looks up: a probe of the job if there is one, and a context of that probe if there is one. */
  lemma InterruptFinds(r: Registries, id: JobId, found: Option<ProbeId>, key: Option<StreamKey>, o: StopOutcome, now: int)
    requires Sensible(r, Interrupt(id, found, key, o), now)
    ensures forall p :: p in r.probes && r.probes[p].job == Some(id) ==>
              found.Some? && found.value in r.probes && r.probes[found.value].job == Some(id)
    ensures forall k :: k in r.contexts && found == Some(r.contexts[k].probe) ==>
              key.Some? && key.value in r.contexts && found == Some(r.contexts[key.value].probe)
  {
    if found.Some? {
      KeyFound(r, found.value, key);
    }
  }

  /** After a successful job.interrupt the job is interrupted, and no client points at it. */
  lemma InterruptAchieves(r: Registries, id: JobId, found: Option<ProbeId>, key: Option<StreamKey>, o: StopOutcome, now: int)
    requires Good(r) && JobInterrupted(r, id, found, key, o, now).0
    ensures var s := JobInterrupted(r, id, found, key, o, now).1;
      && id in s.jobs && s.jobs[id].status == Interrupted && s.jobs[id].completedAt == Some(now)
      && (forall j :: j in r.jobs && j != id ==> j in s.jobs && s.jobs[j] == r.jobs[j])
      && (forall c :: c in s.clients ==> s.clients[c].foreground != Some(id))
  {
    InterruptGood(r, id, found, key, o, now);
    NobodyWaits(JobInterrupted(r, id, found, key, o, now).1, Some(id));
  }

  /** And the probe that was found for it is over, if it had been activated. */
  lemma InterruptEndsProbe(r: Registries, id: JobId, found: ProbeId, key: Option<StreamKey>, o: StopOutcome, now: int)
    requires Good(r) && JobInterrupted(r, id, Some(found), key, o, now).0
    requires found in r.probes && r.probes[found].status != ProbeCreated
    ensures var s := JobInterrupted(r, id, Some(found), key, o, now).1;
      found in s.probes && ProbeOver(s.probes[found].status)
  {
  }
}
