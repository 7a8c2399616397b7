/** What a successful job stores, record by record. */
module JobRecords {
  import opened Wrappers
  import opened Model
  import opened Sequences
  import opened RolloutPlan
  import opened Rollout
  import opened DeploymentJobs
  import Text

  /** The record of one replica of a service that runs, or of a cron job, which has no container. */
  ghost predicate IsRecordOf(plan: Plan, service: Service, sd: ServiceDeployment) {
    && sd.serviceId == service.id
    && if service.cronJob then sd.replica == 0 && sd.status == Stopped && sd.containerId == None
       else && sd.replica < service.replicas && sd.status == Running
            && sd.containerId == Some(NewName(plan, service, sd.replica))
  }

  /** The name is printed from the app, the service, the replica and the start of the deployment id. */
  lemma NewNameReads(plan: Plan, service: Service, replica: nat)
    ensures NewName(plan, service, replica).name ==
            "containr-" + plan.app + "-" + (service.name + "-" + Text.Decimal(replica) + "-" + plan.deployment[..8])
  {
  }

  lemma {:induction false} ReplicaRecordsAre(plan: Plan, service: Service, n: nat)
    ensures |ReplicaRecords(plan, service, n)| == n
    ensures forall k :: 0 <= k < n ==>
              ReplicaRecords(plan, service, n)[k]
              == ServiceDeployment(service.id, k, Running, Some(NewName(plan, service, k)))
  {
    if n > 0 {
      ReplicaRecordsAre(plan, service, n - 1);
    }
  }

  lemma ServiceRecordsAre(plan: Plan, service: Service)
    ensures NoRepeats(ServiceRecords(plan, service))
    ensures forall sd :: sd in ServiceRecords(plan, service) <==> IsRecordOf(plan, service, sd)
  {
    var records := ServiceRecords(plan, service);
    if !service.cronJob {
      ReplicaRecordsAre(plan, service, service.replicas);
      forall sd | IsRecordOf(plan, service, sd) ensures sd in records {
        assert records[sd.replica] == sd;
      }
    }
  }

  lemma NoRepeatsJoin<T>(a: seq<T>, b: seq<T>)
    requires NoRepeats(a) && NoRepeats(b) && forall x <- a :: x !in b
    ensures NoRepeats(a + b)
  {
    forall i, j | 0 <= i < j < |a + b| ensures (a + b)[i] != (a + b)[j] {
      if i < |a| <= j {
        assert a[i] in a && b[j - |a|] in b;
      }
    }
  }

  /** One of the first `n` services has this record. */
  ghost predicate IsPlannedRecord(plan: Plan, n: nat, sd: ServiceDeployment)
    requires n <= |plan.services|
  {
    exists i :: 0 <= i < n && IsRecordOf(plan, plan.services[i], sd)
  }

  lemma {:induction false} RecordsAre(plan: Plan, n: nat)
    requires n <= |plan.services| && DistinctIds(plan.services)
    ensures NoRepeats(Records(plan, n))
    ensures forall sd :: sd in Records(plan, n) <==> IsPlannedRecord(plan, n, sd)
  {
    if n > 0 {
      var init, last := Records(plan, n - 1), ServiceRecords(plan, plan.services[n - 1]);
      RecordsAre(plan, n - 1);
      ServiceRecordsAre(plan, plan.services[n - 1]);
      forall sd <- init ensures sd !in last {
        assert IsPlannedRecord(plan, n - 1, sd);
      }
      NoRepeatsJoin(init, last);
    }
  }

  lemma {:induction false} KeepingKeepsDistinct(records: seq<ServiceDeployment>, services: set<Id>)
    requires NoRepeats(records)
    ensures NoRepeats(KeepExisting(records, services))
  {
    if records != [] {
      var init, last := records[..|records| - 1], records[|records| - 1];
      KeepingKeepsDistinct(init, services);
      KeepExistingExactly(init, services, last);
    }
  }

  /**
   A deployment whose job succeeded has exactly one record for each planned replica of a service that exists, running
   under the name printed for it, and one stopped record without a container for each cron job that exists.
   */
  lemma FinishedRecordsExactly(plan: Plan, job: Job, deployments: Deployments, services: set<Id>, w: World,
                               sd: ServiceDeployment)
    requires Finished(plan, job, deployments, services, w)
    ensures NoRepeats(deployments[job.deployment].records)
    ensures sd in deployments[job.deployment].records <==>
            exists s <- job.services :: s.id in services && IsRecordOf(plan, s, sd)
  {
    var all := Records(plan, |plan.services|);
    RecordsAre(plan, |plan.services|);
    KeepingKeepsDistinct(all, services);
    KeepExistingExactly(all, services, sd);
    PermutationSameElements(plan.services, job.services);
    if s :| s in job.services && s.id in services && IsRecordOf(plan, s, sd) {
      assert s in plan.services;
      var i :| 0 <= i < |plan.services| && plan.services[i] == s;
      assert IsPlannedRecord(plan, |plan.services|, sd);
    }
  }

  lemma PlannedOfSpec(plan: Plan, job: Job, service: Service, replica: nat)
    requires multiset(plan.services) == multiset(job.services)
    ensures Planned(plan, service, replica) <==>
            service in job.services && !service.cronJob && replica < service.replicas
  {
    PermutationSameElements(plan.services, job.services);
  }

  /** After a success what lives is one container for each planned replica, under its printed name. */
  lemma FinishedContainersExactly(plan: Plan, job: Job, deployments: Deployments, services: set<Id>, w: World,
                                  n: ContainerId)
    requires Finished(plan, job, deployments, services, w)
    ensures n in w <==> exists s: Service, replica: nat ::
              s in job.services && !s.cronJob && replica < s.replicas && n == NewName(plan, s, replica)
    ensures n in w ==> exists s <- job.services ::
                && w[n].service == s.id && w[n].replica < s.replicas && n == NewName(plan, s, w[n].replica)
                && w[n].ports == if w[n].replica == 0 then s.hostPorts else {}
  {
    if n in w {
      var s, replica :| Planned(plan, s, replica) && n == NewName(plan, s, replica) && w[n] == NewContainer(s, replica);
      PlannedOfSpec(plan, job, s, replica);
    }
    if s: Service, replica: nat :|
      s in job.services && !s.cronJob && replica < s.replicas && n == NewName(plan, s, replica)
    {
      PlannedOfSpec(plan, job, s, replica);
    }
  }
}
