/** The polling scheduler of cron jobs: schedule states, tracked jobs and the containers it launches. */
module CronScheduler {
  import opened Wrappers
  import opened Model
  import opened Sequences

  type Time = int

  /** An app and one of its services. */
  type Key = (Id, Id)

  datatype ScheduleState = ScheduleState(schedule: string, deployment: Id, nextRun: Time)

  datatype RunningJob = RunningJob(container: ContainerId, deployment: Id)

  /** A cron service as stored now; `image` is what its running deployment resolves to. */
  datatype CronService = CronService(id: Id, schedule: Option<string>, image: Option<string>)

  /** An app with its newest running deployment; reading that may fail. */
  datatype AppView = AppView(id: Id, running: Result<Option<Id>, ()>, services: seq<CronService>)

  /** The next occurrence of a schedule strictly after a time, if the schedule is valid and has one. */
  type CronEngine = (string, Time) -> Option<Time>

  ghost predicate StrictlyLater(next: CronEngine) {
    forall schedule, t :: next(schedule, t).Some? ==> next(schedule, t).value > t
  }

  /** A launch attempt: the slot it consumes and when. */
  datatype Attempt = Attempt(slot: Time, at: Time)

  ghost predicate Increasing(attempts: seq<Attempt>) {
    forall i, j :: 0 <= i < j < |attempts| ==> attempts[i].slot < attempts[j].slot
  }

  /** Slots are consumed once due, and before the clock moves past now. */
  ghost predicate NeverEarly(attempts: seq<Attempt>, now: Time) {
    forall a <- attempts :: a.slot <= a.at <= now
  }

  ghost function AttemptsOf(attempts: map<Key, seq<Attempt>>, key: Key): seq<Attempt> {
    if key in attempts then attempts[key] else []
  }

  ghost function TriesOf(tries: map<Key, nat>, key: Key): nat {
    if key in tries then tries[key] else 0
  }

  /** A slot after every consumed one. */
  ghost predicate Unconsumed(attempts: seq<Attempt>, slot: Time) {
    forall a <- attempts :: a.slot < slot
  }

  lemma ConsumeInOrder(attempts: seq<Attempt>, slot: Time, at: Time, now: Time)
    requires Increasing(attempts) && NeverEarly(attempts, now)
    requires Unconsumed(attempts, slot) && slot <= at <= now
    ensures Increasing(attempts + [Attempt(slot, at)]) && NeverEarly(attempts + [Attempt(slot, at)], now)
  {
    forall i | 0 <= i < |attempts| ensures attempts[i].slot < slot {
      assert attempts[i] in attempts;
    }
  }

  /** A slot computed from now lies after everything consumed so far. */
  lemma FreshSlotIsUnconsumed(next: CronEngine, schedule: string, attempts: seq<Attempt>, now: Time)
    requires StrictlyLater(next) && NeverEarly(attempts, now) && next(schedule, now).Some?
    ensures Unconsumed(attempts, next(schedule, now).value)
  {
  }

  /** The keys a pass over the apps treats as active. */
  predicate IsActive(apps: seq<AppView>, key: Key) {
    exists app <- apps :: app.id == key.0 && app.running.Ok? && app.running.value.Some?
      && exists service <- app.services :: service.id == key.1 && service.schedule.Some?
  }

  /** A pass, with what it reads and which containers it finds running, or a restart of the process. */
  datatype Event = Poll(apps: Result<seq<AppView>, ()>, runs: ContainerId -> bool) | Restarted

  /** The attempts only grow: every key keeps what it consumed, in order. */
  ghost predicate Extends(before: map<Key, seq<Attempt>>, after: map<Key, seq<Attempt>>) {
    forall key :: AttemptsOf(before, key) <= AttemptsOf(after, key)
  }

  /** One more slot of this key, and nothing else, is consumed. */
  ghost predicate Consumed(before: map<Key, seq<Attempt>>, after: map<Key, seq<Attempt>>, key: Key, slot: Time) {
    exists at :: after == before[key := AttemptsOf(before, key) + [Attempt(slot, at)]]
  }

  ghost predicate Grew(before: map<Key, seq<Attempt>>, after: map<Key, seq<Attempt>>, key: Key) {
    |AttemptsOf(before, key)| < |AttemptsOf(after, key)|
  }

  lemma ExtendsFurther(first: map<Key, seq<Attempt>>, before: map<Key, seq<Attempt>>, after: map<Key, seq<Attempt>>,
                       key: Key)
    requires Extends(first, before)
    requires after == before || exists slot :: Consumed(before, after, key, slot)
    ensures Extends(first, after)
  {
    forall k ensures AttemptsOf(first, k) <= AttemptsOf(after, k) {
      assert AttemptsOf(first, k) <= AttemptsOf(before, k);
    }
  }

  lemma ExtendsThrough(a: map<Key, seq<Attempt>>, b: map<Key, seq<Attempt>>, c: map<Key, seq<Attempt>>)
    requires Extends(a, b) && Extends(b, c)
    ensures Extends(a, c)
  {
    forall k ensures AttemptsOf(a, k) <= AttemptsOf(c, k) {
      assert AttemptsOf(a, k) <= AttemptsOf(b, k) <= AttemptsOf(c, k);
    }
  }

  /** The schedule state is for this schedule and deployment. */
  ghost predicate IsStateFor(schedules: map<Key, ScheduleState>, key: Key, schedule: string, deployment: Id) {
    key in schedules && schedules[key].schedule == schedule && schedules[key].deployment == deployment
  }

  ghost predicate SameExcept<V>(before: map<Key, V>, after: map<Key, V>, key: Key) {
    forall k: Key :: k != key ==> (k in after <==> k in before) && (k in after ==> after[k] == before[k])
  }

  lemma SameExceptThrough<V>(a: map<Key, V>, b: map<Key, V>, c: map<Key, V>, key: Key)
    requires SameExcept(a, b, key) && SameExcept(b, c, key)
    ensures SameExcept(a, c, key)
  {
  }

  /** The schedule has an occurrence after any time. */
  ghost predicate NeverEnds(next: CronEngine, schedule: string) {
    forall t :: next(schedule, t).Some?
  }

  /** The state is an old one, or its slot the next occurrence after a reading of the clock between two times. */
  ghost predicate KeptOrComputed(next: CronEngine, before: map<Key, ScheduleState>, state: ScheduleState, key: Key,
                                 from: Time, to: Time) {
    || (key in before && state == before[key])
    || exists t :: from <= t <= to && next(state.schedule, t) == Some(state.nextRun)
  }

  lemma KeptOrComputedThrough(next: CronEngine, before: map<Key, ScheduleState>, mid: map<Key, ScheduleState>,
                              state: ScheduleState, key: Key, from: Time, via: Time, to: Time)
    requires key in mid && from <= via <= to
    requires KeptOrComputed(next, before, mid[key], key, from, via) && KeptOrComputed(next, mid, state, key, via, to)
    ensures KeptOrComputed(next, before, state, key, from, to)
  {
  }

  /** No two services of the view share a key. */
  ghost predicate DistinctKeys(apps: seq<AppView>) {
    && (forall i, j :: 0 <= i < j < |apps| ==> apps[i].id != apps[j].id)
    && (forall app <- apps :: DistinctServices(app.services))
  }

  ghost predicate DistinctServices(services: seq<CronService>) {
    forall i, j :: 0 <= i < j < |services| ==> services[i].id != services[j].id
  }

  /** The scheduled services of an app have a state for their schedule and the running deployment. */
  ghost predicate Scheduled(next: CronEngine, schedules: map<Key, ScheduleState>, app: Id, deployment: Id,
                            services: seq<CronService>) {
    forall s <- services :: s.schedule.Some? && NeverEnds(next, s.schedule.value) ==>
      && (app, s.id) in schedules && schedules[(app, s.id)].schedule == s.schedule.value
      && schedules[(app, s.id)].deployment == deployment
  }

  ghost predicate AllScheduled(next: CronEngine, schedules: map<Key, ScheduleState>, apps: seq<AppView>) {
    forall app <- apps :: app.running.Ok? && app.running.value.Some? ==>
      Scheduled(next, schedules, app.id, app.running.value.value, app.services)
  }

  ghost predicate OtherAppsSame(before: map<Key, ScheduleState>, after: map<Key, ScheduleState>, app: Id) {
    forall k: Key :: k.0 != app ==> (k in after <==> k in before) && (k in after ==> after[k] == before[k])
  }

  lemma AttemptGrows(before: map<Key, seq<Attempt>>, after: map<Key, seq<Attempt>>, key: Key, slot: Time)
    requires Consumed(before, after, key, slot)
    ensures Grew(before, after, key)
  {
  }

  lemma ScheduledNext(next: CronEngine, before: map<Key, ScheduleState>, after: map<Key, ScheduleState>,
                      app: AppView, deployment: Id, i: nat)
    requires i < |app.services| && DistinctServices(app.services)
    requires Scheduled(next, before, app.id, deployment, app.services[..i])
    requires SameExcept(before, after, (app.id, app.services[i].id))
    requires app.services[i].schedule.Some? && NeverEnds(next, app.services[i].schedule.value) ==>
               IsStateFor(after, (app.id, app.services[i].id), app.services[i].schedule.value, deployment)
    ensures Scheduled(next, after, app.id, deployment, app.services[..i + 1])
  {
  }

  lemma AllScheduledNext(next: CronEngine, before: map<Key, ScheduleState>, after: map<Key, ScheduleState>,
                         apps: seq<AppView>, i: nat)
    requires i < |apps| && DistinctKeys(apps) && AllScheduled(next, before, apps[..i])
    requires OtherAppsSame(before, after, apps[i].id)
    requires apps[i].running.Ok? && apps[i].running.value.Some? ==>
               Scheduled(next, after, apps[i].id, apps[i].running.value.value, apps[i].services)
    ensures AllScheduled(next, after, apps[..i + 1])
  {
    forall app <- apps[..i] | app.running.Ok? && app.running.value.Some?
      ensures Scheduled(next, after, app.id, app.running.value.value, app.services)
    {
      assert app.id != apps[i].id;
      assert Scheduled(next, before, app.id, app.running.value.value, app.services);
    }
    TakeNext(apps, i);
  }

  lemma RetainKeepsScheduled(next: CronEngine, schedules: map<Key, ScheduleState>, apps: seq<AppView>, active: set<Key>)
    requires forall key: Key :: key in active <==> IsActive(apps, key)
    ensures AllScheduled(next, schedules, apps) ==>
              AllScheduled(next, map k <- schedules | k in active :: schedules[k], apps)
  {
    var kept := map k <- schedules | k in active :: schedules[k];
    if AllScheduled(next, schedules, apps) {
      forall app <- apps | app.running.Ok? && app.running.value.Some?
        ensures Scheduled(next, kept, app.id, app.running.value.value, app.services)
      {
        assert Scheduled(next, schedules, app.id, app.running.value.value, app.services);
        forall s <- app.services | s.schedule.Some? && NeverEnds(next, s.schedule.value)
          ensures IsStateFor(kept, (app.id, s.id), s.schedule.value, app.running.value.value)
        {
          assert IsActive(apps, (app.id, s.id));
        }
      }
    }
  }

  class Scheduler {
    const next: CronEngine
    var schedules: map<Key, ScheduleState>
    var jobs: map<Key, RunningJob>
    var live: map<ContainerId, Key>  // the cron containers that exist, and what they were launched for
    var clock: Time
    ghost var attempts: map<Key, seq<Attempt>>
    ghost var orphans: set<ContainerId>  // containers that existed when the process last started
    ghost var tries: map<Key, nat>       // how often a launch was attempted

    constructor (next: CronEngine, clock: Time)
      requires StrictlyLater(next)
      ensures Valid() && this.next == next && attempts == map[] && live == map[] && orphans == {}
      ensures tries == map[]
    {
      this.next, this.clock := next, clock;
      schedules, jobs, live, attempts, orphans, tries := map[], map[], map[], map[], {}, map[];
    }

    /** Every container that is no orphan is tracked by the job of its own key. */
    ghost predicate Tracked()
      reads this
    {
      forall n <- live :: n in orphans || (live[n] in jobs && jobs[live[n]].container == n)
    }

    /** So a key has at most one container of this process. */
    lemma OneContainerPerKey(a: ContainerId, b: ContainerId)
      requires Valid() && a in live && b in live && live[a] == live[b] && a !in orphans && b !in orphans
      ensures a == b && live[a] in jobs && jobs[live[a]].container == a
    {
    }

    /**
     The process starts again: its maps are gone, the containers are not. Nothing tracks those, so tracking is
     complete exactly when there were none; consumed slots stay consumed.
     */
    method Restart()
      requires Valid()
      modifies this`schedules, this`jobs, this`orphans
      ensures Valid() && schedules == map[] && jobs == map[] && orphans == live.Keys
      ensures (forall n <- live :: live[n] in jobs) <==> old(live) == map[]
    {
      schedules, jobs, orphans := map[], map[], live.Keys;
      assert live != map[] ==> exists n :: n in live;
    }

    /** No key was launched more often than slots of it were consumed. */
    ghost predicate LaunchesConsume()
      reads this`tries, this`attempts
    {
      forall key <- tries :: tries[key] <= |AttemptsOf(attempts, key)|
    }

    ghost predicate Valid()
      reads this
    {
      && StrictlyLater(next) && Tracked()
      && (forall key <- attempts :: Increasing(attempts[key]) && NeverEarly(attempts[key], clock))
      && LaunchesConsume()
      && (forall key <- schedules :: Unconsumed(AttemptsOf(attempts, key), schedules[key].nextRun))
    }

    /** Reads the clock, which never goes back. */
    method Now() returns (now: Time)
      requires Valid()
      modifies this`clock
      ensures Valid() && now == clock >= old(clock)
    {
      now :| now >= clock;
      clock := now;
    }

    method Remove(name: ContainerId)
      requires Valid()
      modifies this`live
      ensures Valid() && live == old(live) - {name}
    {
      live := live - {name};
    }

    /** Drops finished jobs with their containers. A container that cannot be inspected does not count as running. */
    method ReconcileRunningJobs(runs: ContainerId -> bool)
      requires Valid()
      modifies this`jobs, this`live
      ensures Valid()
      ensures jobs.Keys <= old(jobs).Keys && forall key <- jobs :: jobs[key] == old(jobs)[key]
      ensures forall key <- old(jobs) ::
                key in jobs <==> old(jobs)[key].container in old(live) && runs(old(jobs)[key].container)
      ensures live.Keys <= old(live).Keys && forall n <- live :: live[n] == old(live)[n]
      ensures forall key <- old(jobs) :: key !in jobs ==> old(jobs)[key].container !in live
      ensures forall n <- old(live) :: n !in live ==>
                exists key <- old(jobs) :: key !in jobs && old(jobs)[key].container == n
    {
      var rest, finished := jobs.Keys, {};
      while rest != {}
        invariant Valid() && jobs == old(jobs) && rest <= jobs.Keys && finished <= jobs.Keys - rest
        invariant live.Keys <= old(live).Keys && forall n <- live :: live[n] == old(live)[n]
        invariant forall key <- finished :: jobs[key].container !in live
        invariant forall key <- jobs.Keys - rest ::
                    key !in finished <==> jobs[key].container in old(live) && runs(jobs[key].container)
        invariant forall n <- old(live) :: n !in live ==>
                    !runs(n) && exists key <- finished :: jobs[key].container == n
      {
        var key :| key in rest;
        rest := rest - {key};
        if jobs[key].container !in live || !runs(jobs[key].container) {
          Remove(jobs[key].container);
          finished := finished + {key};
        }
      }
      ghost var tracked := jobs;
      jobs := jobs - finished;
      forall n <- old(live) | n !in live
        ensures exists key <- old(jobs) :: key !in jobs && old(jobs)[key].container == n
      {
        var key :| key in finished && tracked[key].container == n;
        assert key in old(jobs) && key !in jobs;
      }
    }

    /**
     Pulls and creates the container. Its name has only second precision, so it may be taken: then creating
     fails and the clean-up removes the container that holds the name.
     */
    method LaunchCronJob(key: Key) returns (launched: bool, name: ContainerId)
      requires Valid() && key !in jobs && TriesOf(tries, key) < |AttemptsOf(attempts, key)|
      modifies this`live, this`orphans, this`tries
      ensures tries == old(tries)[key := TriesOf(old(tries), key) + 1]
      ensures orphans == if launched then old(orphans) - {name} else old(orphans)
      ensures !launched ==> Valid() && (live == old(live) || live == old(live) - {name})
      ensures launched ==> name !in old(live) && live == old(live)[name := key]
    {
      var prepared, created, leaves: bool := *, *, *;
      name := *;
      tries := tries[key := TriesOf(tries, key) + 1];
      if !prepared {
        return false, name;
      }
      if name !in live && (created || leaves) {
        live := live[name := key];
        if created {
          orphans := orphans - {name};
          return true, name;
        }
      }
      live := live - {name};
      launched := false;
    }

    /** Rebuilds the schedule state of a key when the schedule or the deployment changed. */
    method RefreshState(key: Key, deployment: Id, schedule: string)
      requires Valid()
      modifies this`schedules, this`clock
      ensures Valid() && clock >= old(clock)
      ensures IsStateFor(old(schedules), key, schedule, deployment) ==> schedules == old(schedules)
      ensures !IsStateFor(old(schedules), key, schedule, deployment) ==>
                schedules == match next(schedule, clock)
                  case None => old(schedules) - {key}
                  case Some(slot) => old(schedules)[key := ScheduleState(schedule, deployment, slot)]
      ensures SameExcept(old(schedules), schedules, key)
      ensures key in schedules ==>
                && IsStateFor(schedules, key, schedule, deployment)
                && KeptOrComputed(next, old(schedules), schedules[key], key, old(clock), clock)
    {
      if key !in schedules || schedules[key].schedule != schedule || schedules[key].deployment != deployment {
        var now := Now();
        var slot := next(schedule, now);
        if slot.None? {
          schedules := schedules - {key};
        } else {
          FreshSlotIsUnconsumed(next, schedule, AttemptsOf(attempts, key), now);
          schedules := schedules[key := ScheduleState(schedule, deployment, slot.value)];
        }
      }
    }

    /** Consumes the due slot of a key by advancing its state past now, before anything is launched. */
    method ConsumeDueSlot(key: Key, deployment: Id, schedule: string) returns (due: bool)
      requires Valid() && key in schedules
      modifies this`schedules, this`clock, this`attempts
      ensures Valid() && clock >= old(clock)
      ensures !due ==> attempts == old(attempts)
      ensures !due ==>
                || schedules == old(schedules)
                || (schedules == old(schedules) - {key} && next(schedule, clock).None?)
      ensures old(clock) >= old(schedules)[key].nextRun ==> (due <==> next(schedule, clock).Some?)
      ensures schedules == old(schedules) ==> old(clock) < old(schedules)[key].nextRun
      ensures due ==> old(schedules)[key].nextRun <= clock && next(schedule, clock).Some?
      ensures due ==>
                schedules == old(schedules)[key := ScheduleState(schedule, deployment, next(schedule, clock).value)]
      ensures due ==> Consumed(old(attempts), attempts, key, old(schedules)[key].nextRun)
      ensures due ==> Grew(old(attempts), attempts, key) && TriesOf(tries, key) < |AttemptsOf(attempts, key)|
      ensures SameExcept(old(schedules), schedules, key)
      ensures IsStateFor(old(schedules), key, schedule, deployment) && NeverEnds(next, schedule) ==>
                IsStateFor(schedules, key, schedule, deployment)
      ensures key in schedules ==> KeptOrComputed(next, old(schedules), schedules[key], key, old(clock), clock)
    {
      var checked := Now();
      var slot := schedules[key].nextRun;
      if checked < slot {
        return false;
      }
      var from := Now();
      var following := next(schedule, from);
      if following.None? {
        schedules := schedules - {key};
        return false;
      }
      ghost var before := AttemptsOf(attempts, key);
      ConsumeInOrder(before, slot, checked, clock);
      FreshSlotIsUnconsumed(next, schedule, before + [Attempt(slot, checked)], from);
      schedules := schedules[key := ScheduleState(schedule, deployment, following.value)];
      attempts := attempts[key := before + [Attempt(slot, checked)]];
      AttemptGrows(old(attempts), attempts, key, slot);
      due := true;
    }

    /** Launches a job and tracks its container. */
    method StartJob(key: Key, deployment: Id)
      requires Valid() && key !in jobs && TriesOf(tries, key) < |AttemptsOf(attempts, key)|
      modifies this`jobs, this`live, this`orphans, this`tries
      ensures Valid() && orphans <= old(orphans) && SameExcept(old(jobs), jobs, key)
      ensures tries == old(tries)[key := TriesOf(old(tries), key) + 1]
      ensures key in jobs ==>
                jobs[key].deployment == deployment && jobs[key].container in live && live[jobs[key].container] == key
      ensures forall n <- live :: live[n] == key || (n in old(live) && live[n] == old(live)[n])
    {
      var launched, name := LaunchCronJob(key);
      if launched {
        jobs := jobs[key := RunningJob(name, deployment)];
      }
    }

    /** Consumes the slot of an untracked key if it is due, and launches its job. */
    method RunDueSlot(key: Key, deployment: Id, schedule: string, image: Option<string>)
      requires Valid() && IsStateFor(schedules, key, schedule, deployment) && key !in jobs
      modifies this
      ensures orphans <= old(orphans)
      ensures Valid() && clock >= old(clock)
      ensures SameExcept(old(jobs), jobs, key) && SameExcept(old(schedules), schedules, key)
      ensures key in jobs ==>
                && Grew(old(attempts), attempts, key) && image.Some? && jobs[key].deployment == deployment
                && jobs[key].container in live && live[jobs[key].container] == key
      ensures forall n <- live :: live[n] == key || (n in old(live) && live[n] == old(live)[n])
      ensures attempts == old(attempts) || Consumed(old(attempts), attempts, key, old(schedules)[key].nextRun)
      ensures NeverEnds(next, schedule) && old(clock) >= old(schedules)[key].nextRun ==>
                Grew(old(attempts), attempts, key)
      ensures NeverEnds(next, schedule) ==>
                && IsStateFor(schedules, key, schedule, deployment)
                && KeptOrComputed(next, old(schedules), schedules[key], key, old(clock), clock)
      ensures tries ==
              if Grew(old(attempts), attempts, key) && image.Some? then old(tries)[key := TriesOf(old(tries), key) + 1]
              else old(tries)
    {
      var due := ConsumeDueSlot(key, deployment, schedule);
      if !due || image.None? {
        return;
      }
      StartJob(key, deployment);
    }

    /**
     One cron service of an app that has a running deployment. A due slot is consumed and no other; a tracked
     job is never launched beside.
     */
    method PollService(key: Key, deployment: Id, schedule: string, image: Option<string>)
      returns (ghost slot: Time)
      requires Valid()
      modifies this
      ensures orphans <= old(orphans)
      ensures Valid() && clock >= old(clock)
      ensures SameExcept(old(jobs), jobs, key) && SameExcept(old(schedules), schedules, key)
      ensures key in old(jobs) ==>
                key in jobs && jobs[key] == old(jobs)[key] && attempts == old(attempts) && live == old(live)
      ensures key !in old(jobs) && key in jobs ==>
                && Grew(old(attempts), attempts, key) && image.Some? && jobs[key].deployment == deployment
                && jobs[key].container in live && live[jobs[key].container] == key
      ensures forall n <- live :: live[n] == key || (n in old(live) && live[n] == old(live)[n])
      ensures attempts == old(attempts) || Consumed(old(attempts), attempts, key, slot)
      ensures IsStateFor(old(schedules), key, schedule, deployment) ==> slot == old(schedules)[key].nextRun
      ensures IsStateFor(old(schedules), key, schedule, deployment) && old(clock) >= old(schedules)[key].nextRun ==>
                (key !in old(jobs) && NeverEnds(next, schedule) ==> Grew(old(attempts), attempts, key))
      ensures tries ==
              if Grew(old(attempts), attempts, key) && image.Some? then old(tries)[key := TriesOf(old(tries), key) + 1]
              else old(tries)
      // the state is for the running deployment and its schedule, with the old slot or one computed in this poll
      ensures NeverEnds(next, schedule) ==>
                && key in schedules && schedules[key].schedule == schedule && schedules[key].deployment == deployment
                && KeptOrComputed(next, old(schedules), schedules[key], key, old(clock), clock)
    {
      RefreshState(key, deployment, schedule);
      ghost var states, refreshed := schedules, clock;
      slot := if key in states then states[key].nextRun else 0;
      if key !in schedules || key in jobs {
        return;
      }
      RunDueSlot(key, deployment, schedule, image);
      SameExceptThrough(old(schedules), states, schedules, key);
      if NeverEnds(next, schedule) {
        KeptOrComputedThrough(next, old(schedules), states, schedules[key], key, old(clock), refreshed, clock);
      }
    }

    /** The cron service with index `i` of an app. */
    method PollNext(app: AppView, deployment: Id, i: nat)
      requires Valid() && i < |app.services| && app.services[i].schedule.Some?
      modifies this
      ensures orphans <= old(orphans)
      ensures Valid() && clock >= old(clock) && Extends(old(attempts), attempts)
      ensures forall k <- old(jobs) :: k in jobs && jobs[k] == old(jobs)[k]
      ensures OtherAppsSame(old(schedules), schedules, app.id)
      ensures DistinctServices(app.services)
              && Scheduled(next, old(schedules), app.id, deployment, app.services[..i]) ==>
                Scheduled(next, schedules, app.id, deployment, app.services[..i + 1])
    {
      var service := app.services[i];
      var key := (app.id, service.id);
      ghost var slot := PollService(key, deployment, service.schedule.value, service.image);
      ExtendsFurther(old(attempts), old(attempts), attempts, key);
      if DistinctServices(app.services)
         && Scheduled(next, old(schedules), app.id, deployment, app.services[..i])
      {
        ScheduledNext(next, old(schedules), schedules, app, deployment, i);
      }
    }

    /** The cron services of one app. */
    method PollApp(app: AppView, deployment: Id, active0: set<Key>) returns (active: set<Key>)
      requires Valid() && app.running == Ok(Some(deployment))
      modifies this
      ensures orphans <= old(orphans)
      ensures Valid() && clock >= old(clock) && Extends(old(attempts), attempts)
      ensures active == active0 + set service <- app.services | service.schedule.Some? :: (app.id, service.id)
      ensures forall k <- old(jobs) :: k in jobs && jobs[k] == old(jobs)[k]
      ensures OtherAppsSame(old(schedules), schedules, app.id)
      ensures DistinctServices(app.services) ==> Scheduled(next, schedules, app.id, deployment, app.services)
    {
      active := active0;
      for i := 0 to |app.services|
        invariant Valid() && clock >= old(clock) && Extends(old(attempts), attempts) && orphans <= old(orphans)
        invariant active == active0 + set service <- app.services[..i] | service.schedule.Some? :: (app.id, service.id)
        invariant forall k <- old(jobs) :: k in jobs && jobs[k] == old(jobs)[k]
        invariant OtherAppsSame(old(schedules), schedules, app.id)
        invariant DistinctServices(app.services) ==> Scheduled(next, schedules, app.id, deployment, app.services[..i])
      {
        TakeNext(app.services, i);
        if app.services[i].schedule.Some? {
          active := active + {(app.id, app.services[i].id)};
          ghost var before := attempts;
          PollNext(app, deployment, i);
          ExtendsThrough(old(attempts), before, attempts);
        }
      }
      TakeAll(app.services);
    }

    method DropJob(key: Key)
      requires Valid() && key in jobs
      modifies this`jobs, this`live
      ensures Valid() && jobs == old(jobs) - {key}
    {
      Remove(jobs[key].container);
      jobs := jobs - {key};
    }

    /** Drops what no longer belongs to an active service, containers included. */
    method RetainActive(active: set<Key>)
      requires Valid()
      modifies this`schedules, this`jobs, this`live
      ensures Valid()
      ensures schedules == map k <- old(schedules) | k in active :: old(schedules)[k]
      ensures jobs == map k <- old(jobs) | k in active :: old(jobs)[k]
    {
      schedules := map k <- schedules | k in active :: schedules[k];
      var orphaned := jobs.Keys - active;
      while orphaned != {}
        invariant Valid() && schedules == map k <- old(schedules) | k in active :: old(schedules)[k]
        invariant orphaned !! active && jobs.Keys == old(jobs).Keys * active + orphaned
        invariant forall k <- jobs :: jobs[k] == old(jobs)[k]
      {
        var key :| key in orphaned;
        orphaned := orphaned - {key};
        DropJob(key);
      }
    }

    /** The apps in order, up to the first whose deployment cannot be read. */
    method PollApps(apps: seq<AppView>) returns (ok: bool, active: set<Key>)
      requires Valid()
      modifies this
      ensures orphans <= old(orphans)
      ensures Valid() && clock >= old(clock) && Extends(old(attempts), attempts)
      ensures forall k <- old(jobs) :: k in jobs && jobs[k] == old(jobs)[k]
      ensures ok <==> forall app <- apps :: app.running.Ok?
      ensures ok ==> forall key: Key :: key in active <==> IsActive(apps, key)
      ensures ok && DistinctKeys(apps) ==> AllScheduled(next, schedules, apps)
    {
      active := {};
      for i := 0 to |apps|
        invariant Valid() && clock >= old(clock) && Extends(old(attempts), attempts) && orphans <= old(orphans)
        invariant forall k <- old(jobs) :: k in jobs && jobs[k] == old(jobs)[k]
        invariant forall key: Key :: key in active <==> IsActive(apps[..i], key)
        invariant forall app <- apps[..i] :: app.running.Ok?
        invariant DistinctKeys(apps) ==> AllScheduled(next, schedules, apps[..i])
      {
        var app := apps[i];
        TakeNext(apps, i);
        if app.running.Err? {
          assert app in apps;
          return false, active;
        }
        ghost var states, before := schedules, attempts;
        if app.running.value.Some? {
          active := PollApp(app, app.running.value.value, active);
        }
        ExtendsThrough(old(attempts), before, attempts);
        if DistinctKeys(apps) {
          AllScheduledNext(next, states, schedules, apps, i);
        }
      }
      TakeAll(apps);
      ok := true;
    }

    /** One pass of the scheduler. A failed read ends it early, keeping what it did so far. */
    method PollOnce(apps: Result<seq<AppView>, ()>, runs: ContainerId -> bool) returns (ok: bool)
      requires Valid()
      modifies this
      ensures orphans <= old(orphans)
      ensures Valid() && clock >= old(clock) && Extends(old(attempts), attempts)
      ensures ok <==> apps.Ok? && forall app <- apps.value :: app.running.Ok?
      // running jobs stay tracked, and after a full pass only for active services
      ensures forall key <- old(jobs) ::
                && old(jobs)[key].container in old(live) && runs(old(jobs)[key].container)
                && (ok ==> IsActive(apps.value, key)) ==>
                key in jobs && jobs[key] == old(jobs)[key]
      ensures ok ==> forall key <- schedules.Keys + jobs.Keys :: IsActive(apps.value, key)
      ensures ok && DistinctKeys(apps.value) ==> AllScheduled(next, schedules, apps.value)
    {
      ReconcileRunningJobs(runs);
      if apps.Err? {
        return false;
      }
      var active: set<Key>;
      ok, active := PollApps(apps.value);
      if ok {
        RetainKeepsScheduled(next, schedules, apps.value, active);
        RetainActive(active);
      }
    }

    /**
     Any sequence of passes and restarts: the slots consumed for a key strictly increase throughout, and what was
     launched since the last restart is tracked or gone.
     */
    method Run(events: seq<Event>)
      requires Valid()
      modifies this
      ensures Valid() && Extends(old(attempts), attempts)
      ensures Restarted !in events ==> orphans <= old(orphans)
    {
      for i := 0 to |events|
        invariant Valid() && Extends(old(attempts), attempts)
        invariant Restarted !in events ==> orphans <= old(orphans)
      {
        match events[i]
        case Restarted => Restart();
        case Poll(apps, runs) =>
          var _ := PollOnce(apps, runs);
      }
    }
  }
}
