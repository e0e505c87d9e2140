/** The eight safety checks made before a teardown (internal/teardown/safety.go). */
module TeardownSafety {

  import opened Common
  import opened TeardownEvaluation

  datatype Pod = Pod(running: bool)

  datatype ServiceType = ClusterIP | NodePort | LoadBalancer | ExternalName

  datatype Ingress = Ingress(ip: string, hostname: string)

  datatype Service = Service(kind: ServiceType, ingress: seq<Ingress>)

  /** What each of the five list calls returns; None is an error. */
  datatype Cluster = Cluster(
    connectionPods: Option<seq<Pod>>,
    volumeClaims: Option<seq<string>>,
    dependentServices: Option<seq<Service>>,
    runningPods: Option<seq<Pod>>,
    endpointServices: Option<seq<Service>>)

  predicate Preserves(roost: Roost) {
    && roost.policy.Some?
    && roost.policy.value.dataPreservation.Some?
    && roost.policy.value.dataPreservation.value.enabled
  }

  predicate NeedsApproval(roost: Roost) {
    roost.policy.Some? && roost.policy.value.requireManualApproval
  }

  function Count<T>(xs: seq<T>, p: T -> bool): (n: nat)
    ensures n > 0 <==> exists x <- xs :: p(x)
  {
    if xs == [] then 0
    else
      assert xs == xs[..|xs| - 1] + [xs[|xs| - 1]];
      Count(xs[..|xs| - 1], p) + if p(xs[|xs| - 1]) then 1 else 0
  }

  lemma CountNext<T>(xs: seq<T>, i: nat, p: T -> bool)
    requires i < |xs|
    ensures Count(xs[..i + 1], p) == Count(xs[..i], p) + if p(xs[i]) then 1 else 0
  {
    assert xs[..i + 1][..i] == xs[..i];
  }

  /** The positions counted. */
  function Positions<T>(xs: seq<T>, p: T -> bool): set<int> {
    set i | 0 <= i < |xs| && p(xs[i])
  }

  lemma {:induction false} CountIsSize<T>(xs: seq<T>, p: T -> bool)
    ensures Count(xs, p) == |Positions(xs, p)|
  {
    if xs != [] {
      var front, n := xs[..|xs| - 1], |xs| - 1;
      CountIsSize(front, p);
      assert Positions(xs, p) == Positions(front, p) + if p(xs[n]) then {n} else {};
    }
  }

  predicate IsRunning(pod: Pod) {
    pod.running
  }

  predicate External(s: Service) {
    s.kind == LoadBalancer || s.kind == NodePort
  }

  method CountRunning(pods: seq<Pod>) returns (n: nat)
    ensures n == Count(pods, IsRunning)
  {
    n := 0;
    for i := 0 to |pods|
      invariant n == Count(pods[..i], IsRunning)
    {
      CountNext(pods, i, IsRunning);
      if pods[i].running {
        n := n + 1;
      }
    }
    assert pods[..|pods|] == pods;
  }

  method CheckActiveConnections(pods: Option<seq<Pod>>) returns (check: SafetyCheck)
    ensures check.name == ActiveConnections && check.canOverride
    ensures check.passed <==> pods.Some? && !exists p <- pods.value :: p.running
    ensures check.severity == if pods.None? then Error else Warning
    ensures check.found == if pods.None? then 0 else Count(pods.value, IsRunning)
  {
    check := SafetyCheck(ActiveConnections, false, true, Warning, 0);
    if pods.None? {
      return check.(severity := Error);
    }
    var activeConnections := CountRunning(pods.value);
    check := check.(found := activeConnections, passed := activeConnections == 0);
  }

  method CheckPersistentVolumes(claims: Option<seq<string>>, roost: Roost) returns (check: SafetyCheck)
    ensures check.name == PersistentVolumes
    ensures check.passed <==> claims.Some? && (claims.value == [] || Preserves(roost))
    ensures !check.passed ==> !check.canOverride && check.severity == Critical
    ensures check.canOverride <==> claims.Some? && claims.value != [] && Preserves(roost)
    ensures check.severity == if check.canOverride then Warning else Critical
    ensures check.found == if claims.None? then 0 else |claims.value|
  {
    check := SafetyCheck(PersistentVolumes, false, false, Critical, 0);
    if claims.None? {
      return;
    }
    check := check.(found := |claims.value|);
    if |claims.value| > 0 {
      if Preserves(roost) {
        check := check.(passed := true, canOverride := true, severity := Warning);
      }
    } else {
      check := check.(passed := true);
    }
  }

  method CheckDependentResources(services: Option<seq<Service>>) returns (check: SafetyCheck)
    ensures check.name == DependentResources && check.canOverride && check.severity == Warning
    ensures check.passed <==> services.Some? && !exists s <- services.value :: External(s)
    ensures check.found == if services.None? then 0 else Count(services.value, External)
  {
    check := SafetyCheck(DependentResources, false, true, Warning, 0);
    if services.None? {
      return;
    }
    var externalServices := 0;
    for i := 0 to |services.value|
      invariant externalServices == Count(services.value[..i], External)
    {
      CountNext(services.value, i, External);
      if services.value[i].kind == LoadBalancer || services.value[i].kind == NodePort {
        externalServices := externalServices + 1;
      }
    }
    assert services.value[..|services.value|] == services.value;
    check := check.(found := externalServices, passed := externalServices == 0);
  }

  method CheckRunningPods(pods: Option<seq<Pod>>) returns (check: SafetyCheck)
    ensures check.name == RunningPods && check.canOverride
    ensures check.passed <==> pods.Some?
    ensures check.severity == if pods.None? then Error else Info
    ensures check.found == if pods.None? then 0 else Count(pods.value, IsRunning)
  {
    check := SafetyCheck(RunningPods, false, true, Info, 0);
    if pods.None? {
      return check.(severity := Error);
    }
    var runningPods := CountRunning(pods.value);
    check := check.(found := runningPods, passed := true);
  }

  /** The addresses of one load balancer ingress. */
  function Addresses(i: Ingress): (r: seq<string>)
    ensures |r| > 0 <==> Reachable(i)
  {
    (if |i.ip| > 0 then [i.ip] else []) + (if |i.hostname| > 0 then [i.hostname] else [])
  }

  predicate Reachable(i: Ingress) {
    |i.ip| > 0 || |i.hostname| > 0
  }

  function IngressEndpoints(ingress: seq<Ingress>): (es: seq<string>)
    ensures |es| > 0 <==> exists i <- ingress :: Reachable(i)
  {
    if ingress == [] then []
    else
      var last := ingress[|ingress| - 1];
      assert forall i :: i in ingress <==> i in ingress[..|ingress| - 1] || i == last by {
        assert ingress == ingress[..|ingress| - 1] + [last];
      }
      IngressEndpoints(ingress[..|ingress| - 1]) + Addresses(last)
  }

  predicate Exposed(s: Service) {
    s.kind == LoadBalancer && exists i <- s.ingress :: Reachable(i)
  }

  function ServiceEndpoints(s: Service): (es: seq<string>)
    ensures |es| > 0 <==> Exposed(s)
  {
    if s.kind == LoadBalancer then IngressEndpoints(s.ingress) else []
  }

  function Endpoints(services: seq<Service>): (es: seq<string>)
    ensures |es| > 0 <==> exists s <- services :: Exposed(s)
  {
    if services == [] then []
    else
      var last := services[|services| - 1];
      assert services == services[..|services| - 1] + [last];
      Endpoints(services[..|services| - 1]) + ServiceEndpoints(last)
  }

  method AppendAddresses(externalEndpoints: seq<string>, i: Ingress) returns (es: seq<string>)
    ensures es == externalEndpoints + Addresses(i)
  {
    es := externalEndpoints;
    if |i.ip| > 0 {
      es := es + [i.ip];
    }
    if |i.hostname| > 0 {
      es := es + [i.hostname];
    }
  }

  method CollectIngress(externalEndpoints: seq<string>, ingress: seq<Ingress>) returns (es: seq<string>)
    ensures es == externalEndpoints + IngressEndpoints(ingress)
  {
    es := externalEndpoints;
    for i := 0 to |ingress|
      invariant es == externalEndpoints + IngressEndpoints(ingress[..i])
    {
      IngressNext(ingress, i);
      es := AppendAddresses(es, ingress[i]);
    }
    assert ingress[..|ingress|] == ingress;
  }

  lemma IngressNext(ingress: seq<Ingress>, i: nat)
    requires i < |ingress|
    ensures IngressEndpoints(ingress[..i + 1]) == IngressEndpoints(ingress[..i]) + Addresses(ingress[i])
  {
    assert ingress[..i + 1][..i] == ingress[..i];
  }

  method CheckExternalEndpoints(services: Option<seq<Service>>) returns (check: SafetyCheck)
    ensures check.name == ExternalEndpoints && check.canOverride
    ensures check.passed <==> services.Some? && !exists s <- services.value :: Exposed(s)
    ensures check.severity == if services.None? then Error else Warning
    ensures check.found == if services.None? then 0 else |Endpoints(services.value)|
  {
    check := SafetyCheck(ExternalEndpoints, false, true, Warning, 0);
    if services.None? {
      return check.(severity := Error);
    }
    var externalEndpoints := [];
    for i := 0 to |services.value|
      invariant externalEndpoints == Endpoints(services.value[..i])
    {
      assert services.value[..i + 1][..i] == services.value[..i];
      if services.value[i].kind == LoadBalancer {
        externalEndpoints := CollectIngress(externalEndpoints, services.value[i].ingress);
      }
    }
    assert services.value[..|services.value|] == services.value;
    check := check.(found := |externalEndpoints|, passed := |externalEndpoints| == 0);
  }

  function RunningCount(pods: Option<seq<Pod>>): nat {
    if pods.None? then 0 else Count(pods.value, IsRunning)
  }

  function ConnectionVerdict(pods: Option<seq<Pod>>): SafetyCheck {
    SafetyCheck(ActiveConnections, pods.Some? && !exists p <- pods.value :: p.running, true,
      if pods.None? then Error else Warning, RunningCount(pods))
  }

  function VolumeVerdict(roost: Roost, claims: Option<seq<string>>): SafetyCheck {
    var kept := claims.Some? && claims.value != [] && Preserves(roost);
    SafetyCheck(PersistentVolumes, kept || claims == Some([]), kept, if kept then Warning else Critical,
      if claims.None? then 0 else |claims.value|)
  }

  function DependentVerdict(services: Option<seq<Service>>): SafetyCheck {
    SafetyCheck(DependentResources, services.Some? && !exists s <- services.value :: External(s), true, Warning,
      if services.None? then 0 else Count(services.value, External))
  }

  function PodVerdict(pods: Option<seq<Pod>>): SafetyCheck {
    SafetyCheck(RunningPods, pods.Some?, true, if pods.None? then Error else Info, RunningCount(pods))
  }

  function EndpointVerdict(services: Option<seq<Service>>): SafetyCheck {
    SafetyCheck(ExternalEndpoints, services.Some? && !exists s <- services.value :: Exposed(s), true,
      if services.None? then Error else Warning, if services.None? then 0 else |Endpoints(services.value)|)
  }

  function DataPersistenceCheck(roost: Roost): SafetyCheck {
    SafetyCheck(DataPersistence, Preserves(roost), true, Warning, 0)
  }

  /** The backup check passes with or without a backup policy. */
  function BackupCheck(): SafetyCheck {
    SafetyCheck(BackupRequirements, true, true, Info, 0)
  }

  /** Approval is never recorded as granted, so requiring it fails the check. */
  function ManualApprovalCheck(roost: Roost): SafetyCheck {
    SafetyCheck(ManualApproval, !NeedsApproval(roost), false, Critical, 0)
  }

  /** A failed check that may not be overridden and is serious enough to stop the teardown. */
  predicate Stops(check: SafetyCheck) {
    !check.passed && !check.canOverride && (check.severity == Error || check.severity == Critical)
  }

  /** The whole report, each check characterised by what it looks at. */
  function Report(roost: Roost, cluster: Cluster): seq<SafetyCheck> {
    [ConnectionVerdict(cluster.connectionPods),
     VolumeVerdict(roost, cluster.volumeClaims),
     DependentVerdict(cluster.dependentServices),
     PodVerdict(cluster.runningPods),
     EndpointVerdict(cluster.endpointServices),
     DataPersistenceCheck(roost),
     BackupCheck(),
     ManualApprovalCheck(roost)]
  }

  method PerformSafetyChecks(roost: Roost, cluster: Cluster) returns (checks: seq<SafetyCheck>)
    ensures checks == Report(roost, cluster)
  {
    var connections := CheckActiveConnections(cluster.connectionPods);
    var volumes := CheckPersistentVolumes(cluster.volumeClaims, roost);
    var dependents := CheckDependentResources(cluster.dependentServices);
    var pods := CheckRunningPods(cluster.runningPods);
    var endpoints := CheckExternalEndpoints(cluster.endpointServices);
    checks := [connections, volumes, dependents, pods, endpoints,
      DataPersistenceCheck(roost), BackupCheck(), ManualApprovalCheck(roost)];
  }

  predicate VolumesAtRisk(roost: Roost, cluster: Cluster) {
    cluster.volumeClaims.None? || (cluster.volumeClaims.value != [] && !Preserves(roost))
  }

  /** Of the eight checks only two can stop a teardown: unpreserved (or unlistable) volumes, and
      required approval. Everything else in the report is advice. */
  lemma OnlyVolumesAndApprovalStop(roost: Roost, cluster: Cluster, i: nat)
    requires i < 8
    ensures Stops(Report(roost, cluster)[i])
       <==> (i == 1 && VolumesAtRisk(roost, cluster)) || (i == 7 && NeedsApproval(roost))
  {
    assert i == 0 || i == 1 || i == 2 || i == 3 || i == 4 || i == 5 || i == 6 || i == 7;
  }

  /** What each of the eight checks looks at, whether it passes, whether it can be overridden, and how severe
      it is. */
  lemma ReportTells(roost: Roost, cluster: Cluster)
    ensures var r := Report(roost, cluster);
      var kept := roost.policy.Some? && roost.policy.value.dataPreservation.Some? && roost.policy.value.dataPreservation.value.enabled;
      && |r| == 8
      && (r[0].name == ActiveConnections && r[0].canOverride
          && (r[0].passed <==> cluster.connectionPods.Some? && forall p <- cluster.connectionPods.value :: !p.running)
          && r[0].severity == if cluster.connectionPods.None? then Error else Warning)
      && (r[1].name == PersistentVolumes
          && (r[1].passed <==> cluster.volumeClaims.Some? && (cluster.volumeClaims.value == [] || kept))
          && (r[1].canOverride <==> cluster.volumeClaims.Some? && cluster.volumeClaims.value != [] && kept)
          && r[1].severity == if r[1].canOverride then Warning else Critical)
      && (r[2].name == DependentResources && r[2].canOverride && r[2].severity == Warning
          && r[2].passed == (cluster.dependentServices.Some?
                && forall s <- cluster.dependentServices.value :: s.kind != LoadBalancer && s.kind != NodePort))
      && (r[3].name == RunningPods && r[3].canOverride && r[3].passed == cluster.runningPods.Some?
          && r[3].severity == if cluster.runningPods.None? then Error else Info)
      && (r[4].name == ExternalEndpoints && r[4].canOverride
          && r[4].passed == (cluster.endpointServices.Some?
                && forall s <- cluster.endpointServices.value | s.kind == LoadBalancer ::
                     forall a <- s.ingress :: a.ip == "" && a.hostname == "")
          && r[4].severity == if cluster.endpointServices.None? then Error else Warning)
      && r[5] == SafetyCheck(DataPersistence, kept, true, Warning, 0)
      && r[6] == SafetyCheck(BackupRequirements, true, true, Info, 0)
      && r[7] == SafetyCheck(ManualApproval, roost.policy.Some? ==> !roost.policy.value.requireManualApproval, false, Critical, 0)
  {
    if cluster.endpointServices.Some? {
      var ss := cluster.endpointServices.value;
      assert (exists s <- ss :: Exposed(s)) <==>
        !(forall s <- ss | s.kind == LoadBalancer :: forall a <- s.ingress :: a.ip == "" && a.hostname == "");
    }
  }

  /** How many offenders each check counts. */
  lemma ReportCounts(roost: Roost, cluster: Cluster)
    ensures var r := Report(roost, cluster);
      && (cluster.connectionPods.Some? ==> r[0].found == |Positions(cluster.connectionPods.value, IsRunning)|)
      && (cluster.volumeClaims.Some? ==> r[1].found == |cluster.volumeClaims.value|)
      && (cluster.dependentServices.Some? ==> r[2].found == |Positions(cluster.dependentServices.value, External)|)
      && (cluster.runningPods.Some? ==> r[3].found == |Positions(cluster.runningPods.value, IsRunning)|)
  {
    if cluster.connectionPods.Some? {
      CountIsSize(cluster.connectionPods.value, IsRunning);
    }
    if cluster.dependentServices.Some? {
      CountIsSize(cluster.dependentServices.value, External);
    }
    if cluster.runningPods.Some? {
      CountIsSize(cluster.runningPods.value, IsRunning);
    }
  }

  /** The endpoints of one service are the addresses of its ingresses, empty ones left out. */
  lemma {:induction false} EndpointCount(ingress: seq<Ingress>)
    ensures |IngressEndpoints(ingress)|
         == Count(ingress, (i: Ingress) => i.ip != "") + Count(ingress, (i: Ingress) => i.hostname != "")
  {
    if ingress != [] {
      EndpointCount(ingress[..|ingress| - 1]);
    }
  }

  /** And one more service adds the endpoints of its ingresses if it is a load balancer. */
  lemma EndpointsNext(services: seq<Service>, s: Service)
    ensures Endpoints(services + [s]) == Endpoints(services) + if s.kind == LoadBalancer then IngressEndpoints(s.ingress) else []
  {
    assert (services + [s])[..|services|] == services;
  }
}
