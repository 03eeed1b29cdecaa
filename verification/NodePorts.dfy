/** Node ports: allocation by the API server and the agent's table of port proxies. */
module NodePorts {
  import opened Names
  import opened Cluster
  import opened Sums

  const RANGE_MIN := 30000
  const RANGE_MAX := 32767

  /** A service with its resolved endpoints, given by node address. */
  datatype Service = Service(port: int32, targetPort: int32, nodePort: int32, endpoints: seq<string>)

  type Services = map<ObjectKey, Service>

  // ---------------------------------------------------------------- allocation

  ghost function UsedPorts(services: Services): set<int32>
  {
    set k | k in services && services[k].nodePort != 0 :: services[k].nodePort
  }

  ghost predicate HasPort(services: Services, p: int32)
  {
    exists k :: k in services && services[k].nodePort == p
  }

  lemma PortsInRange(services: Services)
    ensures forall p: int32 :: 30000 <= p <= 32767 ==> (p in UsedPorts(services) <==> HasPort(services, p))
  {
  }

  ghost predicate LeastFree(used: set<int32>, p: int32)
  {
    RANGE_MIN <= p <= RANGE_MAX && p !in used && forall q: int32 :: RANGE_MIN <= q < p ==> q in used
  }

  ghost predicate InUseByOther(services: Services, key: ObjectKey, port: int32)
  {
    exists k :: k in services && k != key && services[k].nodePort == port
  }

  /** The store after a successful create, which may overwrite a service of the same name. */
  ghost predicate Created(services: Services, key: ObjectKey, s: Service, after: Services)
  {
    && key.name != ""
    && if s.nodePort == 0 then exists p :: LeastFree(UsedPorts(services), p) && after == services[key := s.(nodePort := p)]
       else !InUseByOther(services, key, s.nodePort) && after == services[key := s]
  }

  datatype CreateOutcome = Success | InvalidArgument | Exhausted | AlreadyExists

  class ServiceApi {
    var services: Services

    constructor ()
      ensures services == map[]
    {
      services := map[];
    }

    /** The least free port of the range, or none if all of them are used. */
    method AllocateNodePort() returns (r: Option<int32>)
      ensures r.Some? ==> LeastFree(UsedPorts(services), r.value)
      ensures r == None ==> forall p: int32 :: RANGE_MIN <= p <= RANGE_MAX ==> p in UsedPorts(services)
      ensures r.Some? ==> 30000 <= r.value <= 32767 && !HasPort(services, r.value)
      ensures forall p: int32 :: 30000 <= p <= 32767 && (r.Some? ==> p < r.value) ==>
        HasPort(services, p)
    {
      var used: set<int32> := {};
      var all := ListKeys(services.Keys);
      for i := 0 to |all|
        invariant forall p: int32 :: p in used ==> p in UsedPorts(services)
        invariant forall j :: 0 <= j < i && services[all[j]].nodePort != 0 ==> services[all[j]].nodePort in used
      {
        var p := services[all[i]].nodePort;
        if p != 0 {
          used := used + {p};
        }
      }
      forall p | p in UsedPorts(services) ensures p in used {
        var k :| k in services && services[k].nodePort == p;
        var j :| 0 <= j < |all| && all[j] == k;
      }
      for port := RANGE_MIN to RANGE_MAX + 1
        invariant forall q: int32 :: RANGE_MIN <= q < port ==> q in used
      {
        if port !in used {
          PortsInRange(services);
          return Some(port);
        }
      }
      PortsInRange(services);
      return None;
    }

    method NodePortInUse(port: int32, key: ObjectKey) returns (used: bool)
      ensures used <==> exists k :: k in services && k != key && services[k].nodePort == port
    {
      var all := ListKeys(services.Keys);
      for i := 0 to |all|
        invariant forall j :: 0 <= j < i ==> services[all[j]].nodePort != port || all[j] == key
      {
        if services[all[i]].nodePort != port {
          continue;
        }
        if all[i] == key {
          continue;
        }
        return true;
      }
      assert forall k :: k in services ==> k in all;
      return false;
    }

    method CreateService(key: ObjectKey, s: Service) returns (outcome: CreateOutcome)
      modifies this
      ensures outcome == Success ==> Created(old(services), key, s, services)
      ensures outcome == Success ==> key in services && services == old(services)[key := s.(nodePort := services[key].nodePort)]
      ensures outcome == Success && s.nodePort != 0 ==> services[key] == s
      ensures outcome == Success ==> forall k :: k in old(services) && k != key ==> old(services)[k].nodePort != services[key].nodePort
      ensures outcome != Success ==> services == old(services)
      ensures outcome == InvalidArgument <==> key.name == ""
      ensures outcome == AlreadyExists <==> key.name != "" && s.nodePort != 0 && InUseByOther(old(services), key, s.nodePort)
      ensures outcome == Exhausted <==>
        key.name != "" && s.nodePort == 0 && forall p: int32 :: RANGE_MIN <= p <= RANGE_MAX ==> p in UsedPorts(old(services))
    {
      if key.name == "" {
        return InvalidArgument;
      }
      var spec := s;
      if spec.nodePort == 0 {
        var port := AllocateNodePort();
        if port.None? {
          return Exhausted;
        }
        spec := spec.(nodePort := port.value);
      } else {
        var used := NodePortInUse(spec.nodePort, key);
        if used {
          return AlreadyExists;
        }
      }
      services := services[key := spec];
      return Success;
    }

    method DeleteService(key: ObjectKey)
      modifies this
      ensures services == old(services) - {key}
    {
      services := services - {key};
    }
  }

  // ---------------------------------------------------------------- uniqueness over every run

  ghost predicate DistinctPorts(services: Services)
  {
    && (forall k :: k in services ==> services[k].nodePort != 0)
    && (forall j, k :: j in services && k in services && j != k ==> services[j].nodePort != services[k].nodePort)
  }

  ghost predicate Step(services: Services, after: Services)
  {
    || (exists key, s :: Created(services, key, s, after))
    || (exists key :: after == services - {key})
  }

  lemma CreateKeepsDistinct(services: Services, key: ObjectKey, s: Service, after: Services)
    requires DistinctPorts(services) && Created(services, key, s, after)
    ensures DistinctPorts(after)
  {
    forall k | k in services && k != key ensures services[k].nodePort != after[key].nodePort {
      assert services[k].nodePort in UsedPorts(services);
    }
  }

  /** In every run of creates, overwriting creates and deletes, stored services have pairwise distinct non-zero ports. */
  lemma {:induction false} PortsStayDistinct(states: seq<Services>, j: nat)
    requires j < |states| && DistinctPorts(states[0])
    requires forall i :: 0 <= i < |states| - 1 ==> Step(states[i], states[i + 1])
    ensures DistinctPorts(states[j])
  {
    if j > 0 {
      PortsStayDistinct(states, j - 1);
      var before, after := states[j - 1], states[j];
      assert Step(before, after);
      if exists key, s :: Created(before, key, s, after) {
        var key, s :| Created(before, key, s, after);
        CreateKeepsDistinct(before, key, s, after);
      }
    }
  }

  // ---------------------------------------------------------------- the agent's table

  function Target(s: Service): int32
  {
    if s.targetPort == 0 then s.port else s.targetPort
  }

  function Address(port: int): string
  {
    "127.0.0.1:" + Decimal(port)
  }

  /** The service is to be proxied on the node with address `ip`. */
  predicate Serves(s: Service, ip: string)
  {
    s.nodePort != 0 && Target(s) != 0 && ip in s.endpoints
  }

  /** The table built from a listing; a later entry replaces an earlier one on the same port. */
  function DesiredTable(list: seq<Service>, ip: string): map<int32, string>
  {
    if list == [] then map[]
    else
      var s := list[|list| - 1];
      var table := DesiredTable(list[..|list| - 1], ip);
      if Serves(s, ip) then table[s.nodePort := Address(Target(s))] else table
  }

  ghost predicate DistinctList(list: seq<Service>)
  {
    forall i, j :: 0 <= i < j < |list| && list[i].nodePort != 0 ==> list[i].nodePort != list[j].nodePort
  }

  /** With distinct ports every entry has exactly one source, so the table does not depend on the listing order. */
  lemma {:induction false} TableEntries(list: seq<Service>, ip: string, port: int32)
    requires DistinctList(list)
    ensures port in DesiredTable(list, ip) <==> exists i :: 0 <= i < |list| && list[i].nodePort == port && Serves(list[i], ip)
    ensures forall i :: 0 <= i < |list| && list[i].nodePort == port && Serves(list[i], ip) ==>
      port in DesiredTable(list, ip) && DesiredTable(list, ip)[port] == Address(Target(list[i]))
  {
    if list != [] {
      var n := |list| - 1;
      var front := list[..n];
      TableEntries(front, ip, port);
      if i :| 0 <= i < n && front[i].nodePort == port && Serves(front[i], ip) {
        assert list[i] == front[i];
      }
      forall i | 0 <= i < |list| && list[i].nodePort == port && Serves(list[i], ip)
        ensures port in DesiredTable(list, ip) && DesiredTable(list, ip)[port] == Address(Target(list[i]))
      {
        if i < n {
          assert front[i] == list[i];
        }
      }
    }
  }

  /** The services of a listing of the store. */
  function Listed(services: Services, order: seq<ObjectKey>): seq<Service>
    requires forall i :: 0 <= i < |order| ==> order[i] in services
  {
    seq(|order|, i requires 0 <= i < |order| => services[order[i]])
  }

  /** From allocation to the agent: over distinct stored ports, whatever order the services are listed in, a port is in
      the table exactly when one stored service serves it on this node, and then with that service's target. */
  lemma AgentTable(services: Services, order: seq<ObjectKey>, ip: string, port: int32)
    requires DistinctPorts(services) && Listing(order, services.Keys)
    ensures port in DesiredTable(Listed(services, order), ip) <==>
      exists k :: k in services && services[k].nodePort == port && Serves(services[k], ip)
    ensures forall k :: k in services && services[k].nodePort == port && Serves(services[k], ip) ==>
      port in DesiredTable(Listed(services, order), ip)
      && DesiredTable(Listed(services, order), ip)[port] == Address(Target(services[k]))
  {
    var list := Listed(services, order);
    assert DistinctList(list);
    TableEntries(list, ip, port);
    forall k | k in services && services[k].nodePort == port && Serves(services[k], ip)
      ensures exists i :: 0 <= i < |list| && list[i] == services[k]
    {
      var i :| 0 <= i < |order| && order[i] == k;
      assert list[i] == services[k];
    }
    if i :| 0 <= i < |list| && list[i].nodePort == port && Serves(list[i], ip) {
      assert list[i] == services[order[i]] && order[i] in services;
    }
  }

  /** The table on the fields of the stored services: the entry of a service with an endpoint on this node names its target
      port, or its port when it has none; with neither, and without such a service, there is no entry. */
  lemma EntryMeans(services: Services, order: seq<ObjectKey>, ip: string, k: ObjectKey)
    requires DistinctPorts(services) && Listing(order, services.Keys) && k in services
    ensures var table := DesiredTable(Listed(services, order), ip); var s := services[k];
      && (ip in s.endpoints && s.targetPort != 0 ==>
            s.nodePort in table && table[s.nodePort] == "127.0.0.1:" + Decimal(s.targetPort))
      && (ip in s.endpoints && s.targetPort == 0 && s.port != 0 ==>
            s.nodePort in table && table[s.nodePort] == "127.0.0.1:" + Decimal(s.port))
      && (ip !in s.endpoints || (s.targetPort == 0 && s.port == 0) ==> s.nodePort !in table)
  {
    AgentTable(services, order, ip, services[k].nodePort);
  }

  lemma NoEntryWithoutService(services: Services, order: seq<ObjectKey>, ip: string, port: int32)
    requires DistinctPorts(services) && Listing(order, services.Keys)
    requires forall k :: k in services ==> services[k].nodePort != port
    ensures port !in DesiredTable(Listed(services, order), ip)
  {
    AgentTable(services, order, ip, port);
  }

  /** A service without a node port makes no entry, whatever else is listed. */
  lemma {:induction false} NoZeroEntry(list: seq<Service>, ip: string)
    ensures 0 !in DesiredTable(list, ip)
  {
    if list != [] {
      NoZeroEntry(list[..|list| - 1], ip);
    }
  }

  /** The proxies after a reconcile: the desired entries that were already running or could be started. */
  ghost function Reconciled(active: map<int32, string>, desired: map<int32, string>, startable: set<int32>): map<int32, string>
  {
    map p | p in desired && ((p in active && active[p] == desired[p]) || p in startable) :: desired[p]
  }

  /** After a reconcile no proxy runs that is not desired or has another target; one that had its target keeps running; and
      if every port can be opened the proxies are the desired table. */
  lemma ReconciledMeans(active: map<int32, string>, desired: map<int32, string>, startable: set<int32>)
    ensures var after := Reconciled(active, desired, startable);
      && (forall p :: p in after ==> p in desired && after[p] == desired[p])
      && (forall p :: p in active && p in desired && active[p] == desired[p] ==> p in after)
      && (forall p :: p in desired && p in startable ==> p in after)
      && (forall p :: p in after && p !in startable ==> p in active && active[p] == desired[p])
      && (desired.Keys <= startable ==> after == desired)
  {
  }

  ghost predicate Agree(a: map<int32, string>, b: map<int32, string>, p: int32)
  {
    (p in a <==> p in b) && (p in a ==> a[p] == b[p])
  }

  lemma AgreeEverywhere(a: map<int32, string>, b: map<int32, string>)
    requires forall p: int32 :: Agree(a, b, p)
    ensures a == b
  {
    assert forall p :: p in a ==> Agree(a, b, p);
    assert forall p :: p in b ==> Agree(a, b, p);
  }

  class NodePortManager {
    var active: map<int32, string>

    constructor ()
      ensures active == map[]
    {
      active := map[];
    }

    method BuildDesired(list: seq<Service>, ip: string) returns (desired: map<int32, string>)
      ensures desired == DesiredTable(list, ip)
    {
      desired := map[];
      for i := 0 to |list|
        invariant desired == DesiredTable(list[..i], ip)
      {
        assert list[..i + 1][..i] == list[..i];
        var s := list[i];
        if s.nodePort == 0 {
          continue;
        }
        var target := s.targetPort;
        if target == 0 {
          target := s.port;
        }
        if target == 0 {
          continue;
        }
        var local := false;
        for j := 0 to |s.endpoints|
          invariant !local && ip !in s.endpoints[..j]
        {
          if s.endpoints[j] != ip {
            continue;
          }
          local := true;
          break;
        }
        assert local <==> ip in s.endpoints;
        if local {
          desired := desired[s.nodePort := Address(target)];
        }
      }
      assert list[..|list|] == list;
    }

    /** Starts, restarts and stops proxies; `startable` are the ports on which listening succeeds. */
    method Reconcile(list: seq<Service>, ip: string, startable: set<int32>)
      modifies this
      ensures active == Reconciled(old(active), DesiredTable(list, ip), startable)
    {
      var desired := BuildDesired(list, ip);
      StartDesired(desired, startable);
      StopOthers(desired);
      AgreeEverywhere(active, Reconciled(old(active), desired, startable));
    }

    /** The first loop: every desired proxy is kept, replaced or started. */
    method StartDesired(desired: map<int32, string>, startable: set<int32>)
      modifies this
      ensures forall p :: p in desired ==> Agree(active, Reconciled(old(active), desired, startable), p)
      ensures forall p :: p !in desired ==> Agree(active, old(active), p)
    {
      ghost var before := active;
      ghost var goal := Reconciled(before, desired, startable);
      ghost var done := {};
      var ports := ListKeys(desired.Keys);
      for i := 0 to |ports|
        invariant done == set j | 0 <= j < i :: ports[j]
        invariant forall p :: p in done ==> Agree(active, goal, p)
        invariant forall p :: p !in done ==> Agree(active, before, p)
      {
        var port := ports[i];
        assert port !in done;
        done := done + {port};
        var target := desired[port];
        if port in active {
          if active[port] == target {
            continue;
          }
          active := active - {port};
        }
        if port !in startable {
          continue;
        }
        active := active[port := target];
      }
      assert done == desired.Keys;
    }

    /** The second loop: proxies that are no longer desired are stopped. */
    method StopOthers(desired: map<int32, string>)
      modifies this
      ensures forall p :: p in desired ==> Agree(active, old(active), p)
      ensures forall p :: p !in desired ==> p !in active
    {
      ghost var started := active;
      ghost var done := {};
      var ports := ListKeys(active.Keys);
      for i := 0 to |ports|
        invariant done == set j | 0 <= j < i :: ports[j]
        invariant forall p :: p in done && p !in desired ==> p !in active
        invariant forall p :: p !in done || p in desired ==> Agree(active, started, p)
      {
        var port := ports[i];
        assert port !in done;
        done := done + {port};
        if port !in desired {
          active := active - {port};
        }
      }
      assert done == started.Keys;
    }
  }
}
