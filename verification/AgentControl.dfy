/**
 * The command dispatcher and the handlers that step the registries, each proved to have the
 * effect that `Lifecycle` gives for the command as a whole.
 */
module AgentControl {
  import opened Options
  import opened Lifecycle

  /** A job that has been dispatched and run. */
  function Concluded(q: Request, o: Outcome, now: int): Job {
    var status := FinalStatus(q, o);
    Job(q.client, q.category, status, !q.background, now, if JobOver(status) then Some(now) else None)
  }

  /** A job that job.interrupt goes to work on. */
  predicate Interruptible(r: Registries, id: JobId) {
    id in r.jobs && !JobOver(r.jobs[id].status) && r.jobs[id].category == ProbeCategory
  }

  /** The agent's registries, each a dictionary that its methods update. */
  class Agent {
    var jobs: map<JobId, Job>
    var clients: map<ClientId, Client>
    var probes: map<ProbeId, Probe>
    var contexts: map<StreamKey, Context>

    constructor ()
      ensures View() == EMPTY
    {
      jobs, clients, probes, contexts := map[], map[], map[], map[];
    }

    ghost function View(): Registries
      reads this
    {
      Registries(jobs, clients, probes, contexts)
    }

    // ----- registry operations

    method SetJobStatus(id: JobId, status: JobStatus, now: int) returns (ok: bool)
      modifies this`jobs
      ensures ok <==> id in old(jobs) && LegalJob(old(jobs)[id].status, status)
      ensures View() == SetJob(old(View()), id, status, now)
    {
      if id !in jobs {
        return false;
      }
      var job := jobs[id];
      if !LegalJob(job.status, status) {
        return false;
      }
      job := job.(status := status, updatedAt := now);
      if JobOver(status) {
        job := job.(completedAt := Some(now));
      }
      jobs := jobs[id := job];
      ok := true;
    }

    method SetProbeStatus(id: ProbeId, status: ProbeStatus, now: int) returns (ok: bool)
      modifies this`probes
      ensures ok <==> id in old(probes) && LegalProbe(old(probes)[id].status, status)
      ensures View() == SetProbe(old(View()), id, status, now)
    {
      if id !in probes {
        return false;
      }
      var probe := probes[id];
      if !LegalProbe(probe.status, status) {
        return false;
      }
      probe := probe.(status := status, updatedAt := now);
      if ProbeOver(status) {
        probe := probe.(stoppedAt := Some(now));
      }
      probes := probes[id := probe];
      ok := true;
    }

    method SetForegroundJob(client: ClientId, job: JobId, now: int) returns (ok: bool)
      modifies this`clients
      ensures ok == (client in old(clients))
      ensures clients == if ok then old(clients)[client := Client(Some(job), now)] else old(clients)
    {
      if client !in clients {
        return false;
      }
      clients := clients[client := Client(Some(job), now)];
      ok := true;
    }

    /** Clears the pointer only if it is at the expected job. */
    method ClearForegroundJob(client: Option<ClientId>, expected: JobId, now: int) returns (ok: bool)
      modifies this`clients
      ensures View() == ClearForeground(old(View()), client, expected, now)
      ensures ok <==> client.Some? && client.value in old(clients) && old(clients)[client.value].foreground == Some(expected)
    {
      if client.None? || client.value !in clients {
        return false;
      }
      if clients[client.value].foreground != Some(expected) {
        return false;
      }
      clients := clients[client.value := Client(None, now)];
      ok := true;
    }

    /** Looks a client up, which counts as an access. */
    method GetClient(client: ClientId, now: int) returns (found: Option<Client>)
      modifies this`clients
      ensures client in old(clients) ==>
                clients == old(clients)[client := old(clients)[client].(lastAccess := now)] && found == Some(clients[client])
      ensures client !in old(clients) ==> clients == old(clients) && found.None?
    {
      if client !in clients {
        return None;
      }
      clients := clients[client := clients[client].(lastAccess := now)];
      found := Some(clients[client]);
    }

    /** Removes jobs that are over and old, all of them or only the completed ones. */
    method CleanupJobs(completedOnly: bool, age: int, now: int) returns (removed: set<JobId>)
      modifies this`jobs
      ensures View() == CleanedJobs(old(View()), completedOnly, age, now)
      ensures removed == old(jobs).Keys - jobs.Keys
    {
      ghost var start := jobs;
      removed := {};
      var todo := jobs.Keys;
      while todo != {}
        invariant todo <= start.Keys && removed <= start.Keys - todo && jobs == start - removed
        invariant forall k :: k in start.Keys - todo ==>
                    (k in removed <==> OldJob(start[k], age, now) && (completedOnly ==> start[k].status == Completed))
      {
        var k :| k in todo;
        todo := todo - {k};
        var job := jobs[k];
        if !JobOver(job.status) || (completedOnly && job.status != Completed) {
          continue;
        }
        var overAt := if job.completedAt.Some? then job.completedAt.value else job.updatedAt;
        if now - overAt <= age {
          continue;
        }
        removed := removed + {k};
        jobs := jobs - {k};
      }
    }

    /** Removes probes that are old and not active; paused and created ones only on request. */
    method CleanupProbes(completedOnly: bool, age: int, now: int) returns (removed: set<ProbeId>)
      modifies this`probes
      ensures View() == CleanedProbes(old(View()), completedOnly, age, now)
      ensures removed == old(probes).Keys - probes.Keys
    {
      ghost var start := probes;
      removed := {};
      var todo := probes.Keys;
      while todo != {}
        invariant todo <= start.Keys && removed <= start.Keys - todo && probes == start - removed
        invariant forall k :: k in start.Keys - todo ==> (k in removed <==> OldProbe(start[k], completedOnly, age, now))
      {
        var k :| k in todo;
        todo := todo - {k};
        var probe := probes[k];
        if probe.status == Active || (completedOnly && !ProbeOver(probe.status)) {
          continue;
        }
        var overAt := if probe.stoppedAt.Some? then probe.stoppedAt.value else probe.updatedAt;
        if now - overAt <= age {
          continue;
        }
        removed := removed + {k};
        probes := probes - {k};
      }
    }

    /** Closes clients that have been idle and wait for no job. */
    method CleanupIdle(idle: int, now: int) returns (removed: set<ClientId>)
      modifies this`clients
      ensures View() == CleanedClients(old(View()), idle, now)
      ensures removed == old(clients).Keys - clients.Keys
    {
      ghost var start := clients;
      removed := {};
      var todo := clients.Keys;
      while todo != {}
        invariant todo <= start.Keys && removed <= start.Keys - todo && clients == start - removed
        invariant forall k :: k in start.Keys - todo ==>
                    (k in removed <==> start[k].foreground.None? && now - start[k].lastAccess > idle)
      {
        var k :| k in todo;
        todo := todo - {k};
        if clients[k].foreground.Some? || now - clients[k].lastAccess <= idle {
          continue;
        }
        removed := removed + {k};
        clients := clients - {k};
      }
    }

    // ----- probe contexts

    /** A context is entered: the probe is created, made active and tracked. */
    method EnterContext(key: StreamKey, probe: ProbeId, managed: bool, job: Option<JobId>, now: int)
      modifies this`probes, this`contexts
      ensures View() == Affected(old(View()), StartsProbe(key, probe, managed), job, now)
    {
      probes := probes[probe := Probe(ProbeCreated, job, now, None)];
      var ok := SetProbeStatus(probe, Active, now);
      contexts := contexts[key := Context(probe, managed)];
    }

    /** A tracked context is forgotten and left, with an exception or without. */
    method StopContext(key: StreamKey, failed: bool, now: int)
      modifies this`probes, this`contexts
      ensures View() == Affected(old(View()), EndsProbe(key, failed), None, now)
    {
      if key !in contexts {
        return;
      }
      var probe := contexts[key].probe;
      contexts := contexts - {key};
      var ok := SetProbeStatus(probe, if failed then ProbeFailed else Stopped, now);
    }

    /** The handler of a command, as far as probes are concerned: whatever contexts it enters and leaves. */
    method RunEffects(es: seq<Effect>, job: Option<JobId>, now: int)
      modifies this`probes, this`contexts
      ensures View() == AffectedAll(old(View()), es, job, now)
      decreases |es|
    {
      if es != [] {
        match es[0] {
          case NoEffect =>
          case StartsProbe(key, probe, managed) => EnterContext(key, probe, managed, job, now);
          case EndsProbe(key, failed) => StopContext(key, failed, now);
        }
        assert View() == Affected(old(View()), es[0], job, now);
        RunEffects(es[1..], job, now);
      }
    }

    /** The stream key of a tracked context of this probe. */
    method FindContext(probe: ProbeId) returns (key: Option<StreamKey>)
      ensures KeyOf(View(), probe, key)
      ensures key.Some? ==> key.value in contexts && contexts[key.value].probe == probe
      ensures key.None? ==> forall k :: k in contexts ==> contexts[k].probe != probe
    {
      var todo := contexts.Keys;
      while todo != {}
        invariant todo <= contexts.Keys
        invariant forall k :: k in contexts && k !in todo ==> contexts[k].probe != probe
      {
        var k :| k in todo;
        if contexts[k].probe == probe {
          return Some(k);
        }
        todo := todo - {k};
      }
      key := None;
    }

    /** A probe that belongs to this job. */
    method FindProbeByJob(id: JobId) returns (found: Option<ProbeId>)
      ensures ProbeOf(View(), id, found)
      ensures found.Some? ==> found.value in probes && probes[found.value].job == Some(id)
      ensures found.None? ==> forall p :: p in probes ==> probes[p].job != Some(id)
    {
      var todo := probes.Keys;
      while todo != {}
        invariant todo <= probes.Keys
        invariant forall p :: p in probes && p !in todo ==> probes[p].job != Some(id)
      {
        var p :| p in todo;
        if probes[p].job == Some(id) {
          return Some(p);
        }
        todo := todo - {p};
      }
      found := None;
    }

    /** Stops what backs a probe: through its handler when the type is managed, else directly. */
    method StopProbeResources(probe: ProbeId, o: StopOutcome, now: int) returns (ok: bool, ghost key: Option<StreamKey>)
      modifies this`probes, this`contexts
      ensures KeyOf(old(View()), probe, key)
      ensures (ok, View()) == StopResources(old(View()), key, o, now)
    {
      var context := FindContext(probe);
      key := context;
      if context.None? {
        return true, key;
      }
      if contexts[context.value].managed {
        if o.ends {
          StopContext(context.value, o.failed, now);
        }
        return o.ok, key;
      }
      StopContext(context.value, false, now);
      ok := true;
    }

    /** Moves the job of a probe to its final status, and its client's pointer with it. */
    method FinishProbeJob(probe: ProbeId, status: JobStatus, now: int)
      modifies this`jobs, this`clients
      ensures View() == FinishJob(old(View()), probe, status, now)
    {
      if probe !in probes || probes[probe].job.None? {
        return;
      }
      var id := probes[probe].job.value;
      if id !in jobs || JobOver(jobs[id].status) {
        return;
      }
      var ok := SetJobStatus(id, status, now);
      if !ok {
        return;
      }
      if jobs[id].foreground && jobs[id].client.Some? {
        var cleared := ClearForegroundJob(jobs[id].client, id, now);
      }
    }

    // ----- commands

    /** job.interrupt, with the probe and the context that are looked up for the job. */
    method HandleJobInterrupt(id: JobId, o: StopOutcome, now: int)
        returns (ok: bool, ghost probe: Option<ProbeId>, ghost key: Option<StreamKey>)
      modifies this
      ensures (ok, View()) == JobInterrupted(old(View()), id, probe, key, o, now)
      ensures Interruptible(old(View()), id) ==>
                ProbeOf(old(View()), id, probe) && (probe.Some? ==> KeyOf(old(View()), probe.value, key))
    {
      probe, key := None, None;
      if id !in jobs {
        return false, probe, key;
      }
      var job := jobs[id];
      if JobOver(job.status) || job.category != ProbeCategory {
        return false, probe, key;
      }
      var found := FindProbeByJob(id);
      probe := found;
      if found.Some? {
        var stopped;
        stopped, key := StopProbeResources(found.value, o, now);
        if !stopped {
          return false, probe, key;
        }
        if found.value in probes && !ProbeOver(probes[found.value].status) {
          var ended := SetProbeStatus(found.value, Stopped, now);
        }
      }
      var done := SetJobStatus(id, Interrupted, now);
      if !done {
        return false, probe, key;
      }
      if job.client.Some? {
        var cleared := ClearForegroundJob(job.client, id, now);
      }
      ok := true;
    }

    /** probe.stop, with the context that is looked up for the probe. */
    method HandleProbeStop(probe: ProbeId, o: StopOutcome, now: int) returns (ok: bool, ghost key: Option<StreamKey>)
      modifies this
      ensures (ok, View()) == ProbeStopped(old(View()), probe, key, o, now)
      ensures probe in old(probes) && !ProbeOver(old(probes)[probe].status) ==> KeyOf(old(View()), probe, key)
    {
      key := None;
      if probe !in probes {
        return false, key;
      }
      if ProbeOver(probes[probe].status) {
        FinishProbeJob(probe, Completed, now);
        return true, key;
      }
      var stopped;
      stopped, key := StopProbeResources(probe, o, now);
      if !stopped {
        return false, key;
      }
      var success := true;
      if probe in probes && !ProbeOver(probes[probe].status) {
        success := SetProbeStatus(probe, Stopped, now);
      }
      if !success {
        return false, key;
      }
      FinishProbeJob(probe, Completed, now);
      ok := true;
    }

    /** Is the client waiting for a job that is not over? Looking counts as an access. */
    method ForegroundTaken(client: ClientId, now: int) returns (found: bool, taken: bool)
      modifies this`clients
      ensures found == (client in old(clients))
      ensures clients == if found then old(clients)[client := old(clients)[client].(lastAccess := now)] else old(clients)
      ensures taken ==> found
      ensures found ==>
                (taken <==> old(clients)[client].foreground.Some?
                            && old(clients)[client].foreground.value in jobs
                            && !JobOver(jobs[old(clients)[client].foreground.value].status))
    {
      var session := GetClient(client, now);
      found := session.Some?;
      taken := false;
      if found && session.value.foreground.Some? {
        var existing := session.value.foreground.value;
        taken := existing in jobs && !JobOver(jobs[existing].status);
      }
    }

    /** Gives a running job the status its handler's outcome calls for, and stops waiting for it if it is over. */
    method ConcludeJob(id: JobId, q: Request, o: Outcome, now: int)
      requires id in jobs && jobs[id].status == Running && jobs[id].completedAt.None? && jobs[id].updatedAt == now
      modifies this`jobs, this`clients
      ensures var status := FinalStatus(q, o);
        && jobs == old(jobs)[id := old(jobs)[id].(status := status, completedAt := if JobOver(status) then Some(now) else None)]
        && clients == if JobOver(status) && !q.background then ClearForeground(old(View()), q.client, id, now).clients else old(clients)
    {
      match o {
        case ErrorResult =>
          var failed := SetJobStatus(id, JobFailed, now);
        case Raised =>
          var failed := SetJobStatus(id, JobFailed, now);
        case Ok(success) =>
          var done := SetJobStatus(id, if Streams(q, success) then Streaming else Completed, now);
        case RaisedLate(success) =>
          var done := SetJobStatus(id, if Streams(q, success) then Streaming else Completed, now);
          var failed := SetJobStatus(id, JobFailed, now);
      }
      if JobOver(jobs[id].status) && !q.background {
        var cleared := ClearForegroundJob(q.client, id, now);
      }
    }

    /** The execution of a registered job, from `created` to its final status. */
    method RunJob(id: JobId, q: Request, o: Outcome, es: seq<Effect>, looked: bool, now: int)
      requires id in jobs && jobs[id] == Job(q.client, q.category, JobCreated, !q.background, now, None)
      requires looked <==> !q.background && q.client.Some? && q.client.value in clients
      modifies this
      ensures jobs == old(jobs)[id := Concluded(q, o, now)]
      ensures clients == if looked then old(clients)[q.client.value := Client(if FinalStatus(q, o) == Streaming then Some(id) else None, now)]
                         else old(clients)
      ensures probes == AffectedAll(old(View()), es, Some(id), now).probes
      ensures contexts == AffectedAll(old(View()), es, Some(id), now).contexts
    {
      if looked {
        var pointed := SetForegroundJob(q.client.value, id, now);
      }
      var running := SetJobStatus(id, Running, now);
      EffectsAlone(old(View()), View(), es, Some(id), now);
      RunEffects(es, Some(id), now);
      ConcludeJob(id, q, o, now);
    }

    /** Looks for the client of a foreground request; blocked when it already waits for a job. */
    method LookUp(q: Request, now: int) returns (blocked: bool, looked: bool)
      modifies this`clients
      ensures blocked <==> Blocked(old(View()), q)
      ensures looked <==> !q.background && q.client.Some? && q.client.value in old(clients)
      ensures clients == if looked then old(clients)[q.client.value := old(clients)[q.client.value].(lastAccess := now)] else old(clients)
    {
      var found := false;
      if Guarded(q) {
        var taken;
        found, taken := ForegroundTaken(q.client.value, now);
        if taken {
          return true, true;
        }
      }
      if !q.background && q.client.Some? && !found {
        var session := GetClient(q.client.value, now);
        found := session.Some?;
      }
      blocked := false;
      looked := !q.background && q.client.Some? && found;
    }

    /** A command that goes through the dispatcher; false when the client already waits for a job. */
    method ExecuteCommand(id: JobId, q: Request, o: Outcome, es: seq<Effect>, now: int) returns (ok: bool)
      requires Good(View()) && id !in jobs
      modifies this
      ensures (ok, View()) == Dispatched(old(View()), id, q, o, es, now)
      ensures ok ==> id in jobs && EndsAs(q, o, jobs[id].status)
    {
      var removed := CleanupJobs(false, 600, now);
      CleanJobsGood(old(View()), false, 600, now);
      var blocked, looked := LookUp(q, now);
      if blocked {
        assert View() == Dispatched(old(View()), id, q, o, es, now).1;
        return false;
      }
      jobs := jobs[id := Job(q.client, q.category, JobCreated, !q.background, now, None)];
      ghost var before := View();
      RunJob(id, q, o, es, looked, now);
      AdmittedIs(old(View()), before, View(), id, q, o, es, now);
      ok := true;
    }
  }

  /** What an admitted command leaves, put together from its parts. */
  lemma AdmittedIs(r: Registries, before: Registries, t: Registries, id: JobId, q: Request, o: Outcome, es: seq<Effect>, now: int)
    requires var c := CleanedJobs(r, false, 600, now);
      && !Blocked(c, q) && before.probes == c.probes && before.contexts == c.contexts
      && t.jobs == c.jobs[id := Concluded(q, o, now)]
      && t.clients == if !q.background && q.client.Some? && q.client.value in c.clients
                      then c.clients[q.client.value := Client(if FinalStatus(q, o) == Streaming then Some(id) else None, now)]
                      else c.clients
    requires t.probes == AffectedAll(before, es, Some(id), now).probes
    requires t.contexts == AffectedAll(before, es, Some(id), now).contexts
    ensures Dispatched(r, id, q, o, es, now) == (true, t)
    ensures EndsAs(q, o, t.jobs[id].status)
  {
    EffectsAlone(CleanedJobs(r, false, 600, now), before, es, Some(id), now);
  }

  lemma EffectAlone(r: Registries, s: Registries, e: Effect, job: Option<JobId>, now: int)
    requires r.probes == s.probes && r.contexts == s.contexts
    ensures Affected(r, e, job, now).probes == Affected(s, e, job, now).probes
    ensures Affected(r, e, job, now).contexts == Affected(s, e, job, now).contexts
  {
  }

  /** What effects do to the probes does not depend on the other registries. */
  lemma {:induction false} EffectsAlone(r: Registries, s: Registries, es: seq<Effect>, job: Option<JobId>, now: int)
    requires r.probes == s.probes && r.contexts == s.contexts
    ensures AffectedAll(r, es, job, now).probes == AffectedAll(s, es, job, now).probes
    ensures AffectedAll(r, es, job, now).contexts == AffectedAll(s, es, job, now).contexts
    decreases |es|
  {
    if es != [] {
      EffectAlone(r, s, es[0], job, now);
      EffectsAlone(Affected(r, es[0], job, now), Affected(s, es[0], job, now), es[1..], job, now);
    }
  }
}
