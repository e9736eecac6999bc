/**
 Gateway reconciliation as a write-ahead protocol: per-interface forwarding
 switches and one NAT table in the kernel, and a manifest on disk that must let a
 later process undo everything after a crash at any point.

 The kernel and the disk are the fields of `Host`. Every primitive effect may
 fail, and a failed effect may or may not have happened; `trace` collects the
 world after each of them, which is where a crash can leave it.
 */
module Gateway {
  import opened Prelude

  datatype RouteMode = Routed | Masqueraded

  datatype GatewayRoute = GatewayRoute(prefix: nat, interfaceName: string, mode: RouteMode)

  datatype ForwardingRecord = ForwardingRecord(interfaceName: string, previousValue: nat)

  datatype Manifest = Manifest(
    gatewayRoutes: seq<GatewayRoute>,
    forwarding: seq<ForwardingRecord>,
    natTable: Option<string>)

  /** Forwarding value per existing interface, rules per NAT table, and the manifest file. */
  datatype World = World(
    forwarding: map<string, nat>,
    tables: map<string, seq<GatewayRoute>>,
    manifest: Option<Manifest>)

  function TableName(interfaceName: string): string {
    "xs_nexus_" + interfaceName
  }

  function NatRoutes(routes: seq<GatewayRoute>): seq<GatewayRoute> {
    if routes == [] then []
    else
      var rest := NatRoutes(routes[..|routes| - 1]);
      var last := routes[|routes| - 1];
      if last.mode.Masqueraded? then rest + [last] else rest
  }

  function DesiredInterfaces(project: string, routes: seq<GatewayRoute>): set<string> {
    if routes == [] then {} else {project} + set r | r in routes :: r.interfaceName
  }

  /** The switches of a request: its own interface and those of its routes; an empty request has none. */
  lemma {:induction false} WantedInterfaces(project: string, routes: seq<GatewayRoute>, i: string)
    ensures i in DesiredInterfaces(project, routes) <==>
      routes != [] && (i == project || exists k :: 0 <= k < |routes| && routes[k].interfaceName == i)
  {
    if routes != [] && i in DesiredInterfaces(project, routes) && i != project {
      var r :| r in routes && r.interfaceName == i;
      var k :| 0 <= k < |routes| && routes[k] == r;
    }
  }

  /** The rules of a request are its masqueraded routes, one by one and in their order. */
  lemma {:induction false} RulesInOrder(routes: seq<GatewayRoute>, more: seq<GatewayRoute>, r: GatewayRoute)
    ensures NatRoutes([r]) == if r.mode.Masqueraded? then [r] else []
    ensures NatRoutes(routes + more) == NatRoutes(routes) + NatRoutes(more)
    decreases |more|
  {
    assert [r][..0] == [];
    if more == [] {
      assert routes + more == routes;
    } else {
      var n := |more| - 1;
      assert (routes + more)[..|routes| + n] == routes + more[..n];
      RulesInOrder(routes, more[..n], r);
    }
  }

  /** Agents with different interfaces own different tables. */
  lemma {:induction false} TablesAreOwn(a: string, b: string)
    requires TableName(a) == TableName(b)
    ensures a == b
  {
    assert a == TableName(a)[|TableName("")|..] && b == TableName(b)[|TableName("")|..];
  }

  predicate Recorded(records: seq<ForwardingRecord>, name: string) {
    exists r :: r in records && r.interfaceName == name
  }

  // ----- what must hold at every point -----

  /** Records carry the values the interfaces had before the agent touched them. */
  ghost predicate Truthful(records: seq<ForwardingRecord>, original: map<string, nat>) {
    forall r :: r in records ==> r.interfaceName in original && r.previousValue == original[r.interfaceName]
  }

  /** Everything that differs from the original host is named, with its original value, in the manifest on disk. */
  ghost predicate Recoverable(w: World, table: string, original: map<string, nat>) {
    && w.forwarding.Keys <= original.Keys
    && (w.manifest.Some? ==> Truthful(w.manifest.value.forwarding, original))
    && (w.manifest.Some? && w.manifest.value.natTable.Some? ==> w.manifest.value.natTable.value == table)
    && (forall i :: i in w.forwarding ==>
          w.forwarding[i] == original[i] || (w.manifest.Some? && Recorded(w.manifest.value.forwarding, i)))
    && (table in w.tables ==> w.manifest.Some? && w.manifest.value.natTable == Some(table))
  }

  /** The host as if the agent had never run. */
  ghost predicate Clean(w: World, table: string, original: map<string, nat>) {
    && w.forwarding.Keys <= original.Keys
    && (forall i :: i in w.forwarding ==> w.forwarding[i] == original[i])
    && table !in w.tables && w.manifest.None?
  }

  /** The kernel does what `routes` ask for, and nothing else differs from the original. */
  ghost predicate Applied(w: World, project: string, routes: seq<GatewayRoute>, original: map<string, nat>) {
    && w.forwarding.Keys <= original.Keys
    && (forall i :: i in w.forwarding ==>
          w.forwarding[i] == if i in DesiredInterfaces(project, routes) then 1 else original[i])
    && DesiredInterfaces(project, routes) <= w.forwarding.Keys
    && (if NatRoutes(routes) == [] then TableName(project) !in w.tables
        else TableName(project) in w.tables && w.tables[TableName(project)] == NatRoutes(routes))
  }

  class Host {
    var forwarding: map<string, nat>
    var tables: map<string, seq<GatewayRoute>>
    var manifest: Option<Manifest>
    var trace: seq<World>
    // How many effects did not report success.
    ghost var faults: nat

    function State(): World
      reads this
    {
      World(forwarding, tables, manifest)
    }

    constructor (w: World)
      ensures State() == w && trace == [] && faults == 0
    {
      forwarding, tables, manifest, trace, faults := w.forwarding, w.tables, w.manifest, [], 0;
    }

    /** Counts an effect that did not report success. */
    ghost function Faulty(ok: bool): nat
      reads this
    {
      faults + if ok then 0 else 1
    }

    /** Writes one forwarding switch. */
    method SetForwarding(name: string, value: nat) returns (ok: bool)
      modifies this
      ensures tables == old(tables) && manifest == old(manifest) && trace == old(trace) + [State()]
      ensures faults == old(faults) + if ok then 0 else 1
      ensures ok ==> name in old(forwarding)
      ensures forwarding == old(forwarding) || (name in old(forwarding) && forwarding == old(forwarding)[name := value])
      ensures ok ==> forwarding == old(forwarding)[name := value]
    {
      var happened, reported: bool := *, *;
      if name in forwarding && happened {
        forwarding := forwarding[name := value];
        ok := reported;
      } else {
        ok := false;
      }
      trace, faults := trace + [State()], Faulty(ok);
    }

    /** Creates an empty table; an existing one is an error. */
    method CreateTable(name: string) returns (ok: bool)
      modifies this
      ensures forwarding == old(forwarding) && manifest == old(manifest) && trace == old(trace) + [State()]
      ensures faults == old(faults) + if ok then 0 else 1
      ensures tables == old(tables) || (name !in old(tables) && tables == old(tables)[name := []])
      ensures ok ==> name !in old(tables) && tables == old(tables)[name := []]
    {
      var happened, reported: bool := *, *;
      if name !in tables && happened {
        tables := tables[name := []];
        ok := reported;
      } else {
        ok := false;
      }
      trace, faults := trace + [State()], Faulty(ok);
    }

    /** Adds the chain of a table, which holds no rules of its own. */
    method CreateChain(name: string) returns (ok: bool)
      modifies this
      ensures State() == old(State()) && trace == old(trace) + [State()]
      ensures faults == old(faults) + if ok then 0 else 1
    {
      ok := *;
      trace, faults := trace + [State()], Faulty(ok);
    }

    method AppendRule(name: string, route: GatewayRoute) returns (ok: bool)
      modifies this
      ensures forwarding == old(forwarding) && manifest == old(manifest) && trace == old(trace) + [State()]
      ensures faults == old(faults) + if ok then 0 else 1
      ensures tables == old(tables) || (name in old(tables) && tables == old(tables)[name := old(tables)[name] + [route]])
      ensures ok ==> name in old(tables) && tables == old(tables)[name := old(tables)[name] + [route]]
    {
      var happened, reported: bool := *, *;
      if name in tables && happened {
        tables := tables[name := tables[name] + [route]];
        ok := reported;
      } else {
        ok := false;
      }
      trace, faults := trace + [State()], Faulty(ok);
    }

    /** Deletes a table; a missing one counts as deleted. */
    method DeleteTable(name: string) returns (ok: bool)
      modifies this
      ensures forwarding == old(forwarding) && manifest == old(manifest) && trace == old(trace) + [State()]
      ensures faults == old(faults) + if ok then 0 else 1
      ensures tables == old(tables) || tables == old(tables) - {name}
      ensures ok ==> tables == old(tables) - {name}
    {
      var happened, reported: bool := *, *;
      if happened {
        tables := tables - {name};
        ok := reported;
      } else {
        ok := false;
      }
      trace, faults := trace + [State()], Faulty(ok);
    }

    /** Replaces the manifest file atomically. */
    method WriteManifest(m: Option<Manifest>) returns (ok: bool)
      modifies this
      ensures forwarding == old(forwarding) && tables == old(tables) && trace == old(trace) + [State()]
      ensures faults == old(faults) + if ok then 0 else 1
      ensures manifest == old(manifest) || manifest == m
      ensures ok ==> manifest == m
    {
      var happened, reported: bool := *, *;
      if happened {
        manifest := m;
        ok := reported;
      } else {
        ok := false;
      }
      trace, faults := trace + [State()], Faulty(ok);
    }
  }

  ghost predicate AllRecoverable(trace: seq<World>, table: string, original: map<string, nat>) {
    forall w :: w in trace ==> Recoverable(w, table, original)
  }

  /** The stages of a reconciliation once its request is remembered. */
  datatype Stage = Recording | SwitchingOff | ReplacingTable | SwitchingOn | Restoring | Persisting

  /** How a reconciliation ended; everything but `Done` is an error to the caller. */
  datatype Outcome = Done | Rejected | SwitchedOff | FailedReading | Failed(stage: Stage)

  class TunNetwork {
    const project: string
    const host: Host
    ghost const original: map<string, nat>
    var gatewayRoutes: seq<GatewayRoute>
    var forwarding: seq<ForwardingRecord>
    var natTable: Option<string>
    // The stage at which the remembered request was broken off; none if it was carried out.
    ghost var broken: Option<Stage>

    /** What is known of the remembered request: its interfaces have records, and it is in force unless it was broken off. */
    ghost predicate Remembers()
      reads this, host
    {
      && (forall i :: i in DesiredInterfaces(project, gatewayRoutes) ==> Recorded(forwarding, i))
      && (broken.None? ==> Applied(host.State(), project, gatewayRoutes, original))
    }

    ghost predicate Valid()
      reads this, host
    {
      && Truthful(forwarding, original)
      && host.forwarding.Keys == original.Keys
      && (forall i :: i in host.forwarding && host.forwarding[i] != original[i] ==> Recorded(forwarding, i))
      && (natTable.Some? ==> natTable.value == TableName(project))
      && (TableName(project) in host.tables ==> natTable.Some?)
      && Recoverable(host.State(), TableName(project), original)
      && AllRecoverable(host.trace, TableName(project), original)
    }

    /** A network just created on an untouched host, with its first manifest written. */
    constructor (project: string, host: Host)
      requires host.manifest == Some(Manifest([], [], None)) && TableName(project) !in host.tables
      requires host.trace == []
      ensures Valid() && Remembers() && this.project == project && this.host == host && original == host.forwarding
      ensures gatewayRoutes == [] && forwarding == [] && natTable == None
    {
      this.project, this.host, original := project, host, host.forwarding;
      gatewayRoutes, forwarding, natTable, broken := [], [], None, None;
    }

    method PersistManifest() returns (ok: bool)
      requires Valid()
      modifies host
      ensures Valid() && host.forwarding == old(host.forwarding) && host.tables == old(host.tables)
      ensures ok ==> host.manifest == Some(Manifest(gatewayRoutes, forwarding, natTable))
      ensures ok <==> host.faults == old(host.faults)
      ensures host.faults >= old(host.faults)
    {
      ok := host.WriteManifest(Some(Manifest(gatewayRoutes, forwarding, natTable)));
    }

    /** Remembers the present value of every desired interface that has no record yet. */
    method RecordInterfaces(desired: set<string>) returns (ok: bool)
      requires Valid()
      modifies this`forwarding
      ensures Valid()
      ensures old(forwarding) <= forwarding
      ensures ok <==> desired <= host.forwarding.Keys
      ensures ok ==> forall i :: i in desired ==> Recorded(forwarding, i)
      ensures forall r :: r in forwarding ==> r in old(forwarding) || r.interfaceName in desired
    {
      var remaining := desired;
      while remaining != {}
        invariant remaining <= desired
        invariant Valid() && old(forwarding) <= forwarding
        invariant forall i :: i in desired - remaining ==> i in host.forwarding && Recorded(forwarding, i)
        invariant forall r :: r in forwarding ==> r in old(forwarding) || r.interfaceName in desired
        decreases remaining
      {
        var name :| name in remaining;
        if !Recorded(forwarding, name) {
          if name !in host.forwarding {
            return false;
          }
          var longer := forwarding + [ForwardingRecord(name, host.forwarding[name])];
          assert longer[|forwarding|] in longer;
          assert forall i :: Recorded(forwarding, i) ==> Recorded(longer, i);
          forwarding := longer;
        } else {
          var r :| r in forwarding && r.interfaceName == name;
          assert name in original;
        }
        remaining := remaining - {name};
      }
      return true;
    }

    /** The manifest on disk is the one for the fields in memory. */
    ghost predicate Persisted()
      reads this, host
    {
      host.manifest == Some(Manifest(gatewayRoutes, forwarding, natTable))
    }

    /** The manifest on disk names every record in memory, and the table if memory names it. */
    ghost predicate Covered()
      reads this, host
    {
      && host.manifest.Some? && host.manifest.value.forwarding == forwarding
      && (natTable.Some? ==> host.manifest.value.natTable == natTable)
    }

    /** Switches forwarding off on every recorded interface, stopping at the first failure. */
    method SwitchAllOff() returns (ok: bool)
      requires Valid() && Covered()
      modifies host
      ensures Valid() && Covered() && host.tables == old(host.tables)
      ensures forall i :: i in host.forwarding && !Recorded(forwarding, i) ==> host.forwarding[i] == original[i]
      ensures ok ==> AllOff(forwarding, host.forwarding)
      ensures host.faults == old(host.faults) + if ok then 0 else 1
    {
      for k := 0 to |forwarding|
        invariant host.faults == old(host.faults)
        invariant Valid() && Covered() && host.tables == old(host.tables)
        invariant forall j :: 0 <= j < k ==>
          forwarding[j].interfaceName in host.forwarding && host.forwarding[forwarding[j].interfaceName] == 0
      {
        assert Recorded(forwarding, forwarding[k].interfaceName);
        var done := host.SetForwarding(forwarding[k].interfaceName, 0);
        if !done {
          return false;
        }
      }
      return true;
    }

    /**
     Replaces the rules of the project's table while nothing is forwarded; after a
     failure the table may exist, possibly incomplete.
     */
    method ReplaceNatTable(previouslyOwned: bool, routes: seq<GatewayRoute>) returns (ok: bool)
      requires Valid() && Covered() && natTable.Some? && AllOff(forwarding, host.forwarding)
      requires !previouslyOwned ==> TableName(project) !in host.tables
      modifies host
      ensures Valid() && Covered() && host.forwarding == old(host.forwarding)
      ensures ok ==>
        if NatRoutes(routes) == [] then TableName(project) !in host.tables
        else TableName(project) in host.tables && host.tables[TableName(project)] == NatRoutes(routes)
      ensures ok <==> host.faults == old(host.faults)
      ensures host.faults >= old(host.faults)
      // A success takes a deletion if there was a table, and the table, its chain and its rules if there are rules.
      ensures ok ==> |host.trace| == |old(host.trace)| + (if previouslyOwned then 1 else 0)
                                     + (if NatRoutes(routes) == [] then 0 else 2 + |NatRoutes(routes)|)
      // A table that was created but not completed is deleted again; only a second failure can leave it behind.
      ensures !ok && host.faults == old(host.faults) + 1 && |host.trace| > |old(host.trace)| + (if previouslyOwned then 2 else 1) ==>
        TableName(project) !in host.tables
    {
      var table, rules := TableName(project), NatRoutes(routes);
      if previouslyOwned {
        ok := host.DeleteTable(table);
        if !ok {
          return;
        }
      }
      if rules == [] {
        return true;
      }
      ok := host.CreateTable(table);
      if !ok {
        return;
      }
      ok := host.CreateChain(table);
      var k := 0;
      while ok && k < |rules|
        invariant 0 <= k <= |rules|
        invariant Valid() && Covered() && host.forwarding == old(host.forwarding)
        invariant ok ==> table in host.tables && host.tables[table] == rules[..k]
        invariant host.faults == old(host.faults) + if ok then 0 else 1
        invariant |host.trace| == |old(host.trace)| + (if previouslyOwned then 1 else 0) + 2 + k
      {
        ok := host.AppendRule(table, rules[k]);
        k := k + 1;
      }
      if !ok {
        var _ := host.DeleteTable(table);
      }
      return ok;
    }

    method SwitchOn(desired: set<string>) returns (ok: bool)
      requires Valid() && Covered()
      requires forall i :: i in desired ==> Recorded(forwarding, i)
      modifies host
      ensures Valid() && Covered() && host.tables == old(host.tables)
      ensures ok ==> forall i :: i in desired ==> i in host.forwarding && host.forwarding[i] == 1
      ensures host.faults == old(host.faults) + if ok then 0 else 1
    {
      var remaining := desired;
      while remaining != {}
        invariant host.faults == old(host.faults)
        invariant remaining <= desired
        invariant Valid() && Covered() && host.tables == old(host.tables)
        invariant forall i :: i in desired - remaining ==> i in host.forwarding && host.forwarding[i] == 1
        decreases remaining
      {
        var name :| name in remaining;
        var done := host.SetForwarding(name, 1);
        if !done {
          return false;
        }
        remaining := remaining - {name};
      }
      return true;
    }

    /** Restores every recorded interface outside `keep`, trying all of them, and then forgets their records. */
    method RestoreOthers(keep: set<string>) returns (ok: bool)
      requires Valid() && Covered()
      modifies host, this`forwarding
      ensures Valid() && host.tables == old(host.tables) && host.manifest == old(host.manifest)
      ensures forall i :: i in keep && i in host.forwarding ==> host.forwarding[i] == old(host.forwarding[i])
      ensures ok ==> forall i :: i in host.forwarding && i !in keep ==> host.forwarding[i] == original[i]
      ensures ok ==> forall r :: r in forwarding ==> r in old(forwarding) && r.interfaceName in keep
      ensures forall i :: i in keep && Recorded(old(forwarding), i) ==> Recorded(forwarding, i)
      ensures ok <==> host.faults == old(host.faults)
      ensures host.faults >= old(host.faults)
    {
      ok := true;
      for k := 0 to |forwarding|
        invariant ok <==> host.faults == old(host.faults)
        invariant host.faults >= old(host.faults)
        invariant forwarding == old(forwarding)
        invariant Valid() && Covered() && host.tables == old(host.tables) && host.manifest == old(host.manifest)
        invariant forall i :: i in keep && i in host.forwarding ==> host.forwarding[i] == old(host.forwarding[i])
        invariant ok ==> forall j :: 0 <= j < k && forwarding[j].interfaceName !in keep && forwarding[j].interfaceName in host.forwarding ==>
          host.forwarding[forwarding[j].interfaceName] == original[forwarding[j].interfaceName]
      {
        var record := forwarding[k];
        if record.interfaceName !in keep {
          assert record in forwarding && Recorded(forwarding, record.interfaceName);
          var done := host.SetForwarding(record.interfaceName, record.previousValue);
          ok := ok && done;
        }
      }
      if ok {
        ghost var records := forwarding;
        forwarding := KeepRecords(forwarding, keep);
        assert forall i :: i in keep && Recorded(records, i) ==> Recorded(forwarding, i);
      }
    }

    /**
     Makes the kernel do what `desired` asks for. `admitted` is the verdict of the
     checks against the kernel's links and routes.
     */
    method ReconcileGatewayRoutes(desired: seq<GatewayRoute>, admitted: bool) returns (outcome: Outcome)
      requires Valid() && Remembers()
      modifies this, host
      // A crash at any point, and any failure, leaves everything recoverable.
      ensures Valid() && Remembers()
      // A new request that succeeds is in force. A repeated one that succeeds is in
      // force exactly if it was carried out before, or its table happens to be there
      // and every other recorded interface forwarded from the start.
      ensures outcome.Done? ==> (
        Applied(host.State(), project, desired, original) <==>
          || desired != old(gatewayRoutes) || old(broken).None?
          || (TableHolds(old(host.tables), project, desired) && OthersWereOn(old(forwarding), DesiredInterfaces(project, desired))))
      ensures outcome.Done? ==> gatewayRoutes == desired && (desired != old(gatewayRoutes) ==> Persisted())
      // Afterwards exactly its switches are recorded, and the table is owned exactly if it has rules.
      ensures outcome.Done? && desired != old(gatewayRoutes) ==>
        && (forall i :: Recorded(forwarding, i) <==> i in DesiredInterfaces(project, desired))
        && natTable == if NatRoutes(desired) != [] then Some(TableName(project)) else None
      // A request is remembered before it is carried out, and how far it came is known.
      ensures outcome.Failed? ==> gatewayRoutes == desired && broken == Some(outcome.stage)
      ensures outcome.Failed? && (outcome.stage.Recording? || outcome.stage.SwitchingOff?) ==> host.tables == old(host.tables)
      ensures outcome.Failed? && outcome.stage.Recording? ==> host.forwarding == old(host.forwarding)
      ensures outcome.Failed? && (outcome.stage.Recording? || outcome.stage.SwitchingOff?) ==>
        forall r :: r in forwarding ==> r in old(forwarding) || r.interfaceName in DesiredInterfaces(project, desired)
      // Refused requests touch nothing; a new one is carried out unless an interface is missing or an effect fails.
      ensures outcome.Rejected? <==> !admitted
      ensures !admitted ==> unchanged(this) && unchanged(host)
      ensures admitted && desired != old(gatewayRoutes) ==>
        && (outcome.FailedReading? <==> !(DesiredInterfaces(project, desired) <= old(host.forwarding).Keys))
        && (outcome.FailedReading? ==> unchanged(host) && gatewayRoutes == old(gatewayRoutes) && natTable == old(natTable))
        && (outcome.Failed? <==> host.faults > old(host.faults))
        && !outcome.SwitchedOff?
      // The short cut decides by the recorded switches alone.
      ensures admitted && desired == old(gatewayRoutes) ==>
        host.State() == old(host.State()) && forwarding == old(forwarding)
        && outcome == if AllOn(forwarding, host.forwarding) then Done else SwitchedOff
    {
      if !admitted {
        return Rejected;
      }
      if desired == gatewayRoutes {
        if !AllOn(forwarding, host.forwarding) {
          return SwitchedOff;
        }
        RepeatedIsApplied(host.State(), project, desired, forwarding, original);
        return Done;
      }
      var interfaces := DesiredInterfaces(project, desired);
      var ok := RecordInterfaces(interfaces);
      if !ok {
        return FailedReading;
      }
      var previousTable := natTable;
      var desiredTable := if NatRoutes(desired) != [] then Some(TableName(project)) else None;
      if natTable.None? {
        natTable := desiredTable;
      }
      gatewayRoutes, broken := desired, Some(Recording);
      ok := PersistManifest();
      if !ok {
        return Failed(Recording);
      }
      var failure := CarryOut(desired, interfaces, previousTable, desiredTable);
      broken := failure;
      return if failure.None? then Done else Failed(failure.value);
    }

    /** Everything after the first manifest is on disk. */
    method CarryOut(desired: seq<GatewayRoute>, interfaces: set<string>,
                    previousTable: Option<string>, desiredTable: Option<string>) returns (failure: Option<Stage>)
      requires Valid() && Covered() && gatewayRoutes == desired
      requires interfaces == DesiredInterfaces(project, desired) <= host.forwarding.Keys
      requires forall i :: i in interfaces ==> Recorded(forwarding, i)
      requires desiredTable == if NatRoutes(desired) != [] then Some(TableName(project)) else None
      requires natTable == if previousTable.Some? then previousTable else desiredTable
      requires previousTable.None? ==> TableName(project) !in host.tables
      modifies this`forwarding, this`natTable, host
      ensures Valid() && (forall i :: i in interfaces ==> Recorded(forwarding, i))
      ensures failure.None? ==> Persisted() && Applied(host.State(), project, desired, original)
      ensures failure.None? ==> natTable == desiredTable && forall r :: r in forwarding ==> r.interfaceName in interfaces
      ensures failure == Some(SwitchingOff) ==> host.tables == old(host.tables) && forwarding == old(forwarding)
      ensures failure != Some(Recording)
      ensures failure.None? <==> host.faults == old(host.faults)
      ensures host.faults >= old(host.faults)
    {
      var ok := SwitchAllOff();
      if !ok {
        return Some(SwitchingOff);
      }
      if previousTable.Some? || desiredTable.Some? {
        ok := ReplaceNatTable(previousTable.Some?, desired);
        if !ok {
          return Some(ReplacingTable);
        }
      }
      natTable := desiredTable;
      ok := SwitchOn(interfaces);
      if !ok {
        return Some(SwitchingOn);
      }
      ok := RestoreOthers(interfaces);
      if !ok {
        return Some(Restoring);
      }
      ok := PersistManifest();
      return if ok then None else Some(Persisting);
    }
  }

  /** The project's table holds exactly the rules that `routes` ask for, or is absent if they ask for none. */
  predicate TableHolds(tables: map<string, seq<GatewayRoute>>, project: string, routes: seq<GatewayRoute>) {
    if NatRoutes(routes) == [] then TableName(project) !in tables
    else TableName(project) in tables && tables[TableName(project)] == NatRoutes(routes)
  }

  /** Every recorded interface that is not wanted forwarded before the agent came. */
  predicate OthersWereOn(records: seq<ForwardingRecord>, wanted: set<string>) {
    forall r :: r in records ==> r.interfaceName in wanted || r.previousValue == 1
  }

  /** When all recorded interfaces forward, the request is in force exactly if its table is there and the others were on. */
  lemma {:induction false} RepeatedIsApplied(w: World, project: string, routes: seq<GatewayRoute>, records: seq<ForwardingRecord>,
                                             original: map<string, nat>)
    requires Truthful(records, original) && w.forwarding.Keys == original.Keys && AllOn(records, w.forwarding)
    requires forall i :: i in w.forwarding && w.forwarding[i] != original[i] ==> Recorded(records, i)
    requires forall i :: i in DesiredInterfaces(project, routes) ==> Recorded(records, i)
    ensures Applied(w, project, routes, original) <==>
      TableHolds(w.tables, project, routes) && OthersWereOn(records, DesiredInterfaces(project, routes))
  {
    var wanted := DesiredInterfaces(project, routes);
    if OthersWereOn(records, wanted) {
      forall i | i in w.forwarding ensures w.forwarding[i] == if i in wanted then 1 else original[i] {
        if Recorded(records, i) {
          var r :| r in records && r.interfaceName == i;
        }
      }
      forall i | i in wanted ensures i in w.forwarding {
        var r :| r in records && r.interfaceName == i;
      }
    }
  }

  /** No recorded interface forwards. */
  predicate AllOff(records: seq<ForwardingRecord>, forwarding: map<string, nat>) {
    forall r :: r in records ==> r.interfaceName in forwarding && forwarding[r.interfaceName] == 0
  }

  /** Every recorded interface forwards. */
  predicate AllOn(records: seq<ForwardingRecord>, forwarding: map<string, nat>) {
    forall r :: r in records ==> r.interfaceName in forwarding && forwarding[r.interfaceName] == 1
  }

  function KeepRecords(records: seq<ForwardingRecord>, keep: set<string>): (kept: seq<ForwardingRecord>)
    ensures forall r :: r in kept <==> r in records && r.interfaceName in keep
  {
    if records == [] then []
    else (if records[0].interfaceName in keep then [records[0]] else []) + KeepRecords(records[1..], keep)
  }

  // ----- crash and recovery -----

  /**
   A later process finds the manifest of a dead one. `linkActive` and `planMatches`
   are what it observes; nothing is touched unless the link is gone and the manifest is its own.
   */
  method RecoverStale(host: Host, linkActive: bool, planMatches: bool, table: string, ghost original: map<string, nat>)
    returns (ok: bool)
    requires Recoverable(host.State(), table, original) && AllRecoverable(host.trace, table, original)
    modifies host
    ensures Recoverable(host.State(), table, original) && AllRecoverable(host.trace, table, original)
    ensures host.forwarding.Keys == old(host.forwarding.Keys)
    ensures ok ==> Clean(host.State(), table, original)
    // Beside a live agent, or with the manifest of another one, nothing is touched; without a manifest nothing is to be done.
    ensures linkActive || (old(host.manifest).Some? && !planMatches) ==> !ok && unchanged(host)
    ensures !linkActive && old(host.manifest).None? ==> ok && unchanged(host)
    // Otherwise it succeeds exactly if every effect does, and tries all of them but the removal of the manifest in any case.
    ensures !linkActive && old(host.manifest).Some? && planMatches ==>
      && (ok <==> host.faults == old(host.faults))
      && |host.trace| >= |old(host.trace)| + Steps(old(host.manifest).value, old(host.forwarding).Keys)
    ensures host.faults >= old(host.faults)
  {
    if linkActive {
      return false;
    }
    if host.manifest.None? {
      return true;
    }
    if !planMatches {
      return false;
    }
    var m := host.manifest.value;
    ok := CleanupManifestGateway(host, m, table, original);
    if ok {
      ok := host.WriteManifest(None);
    }
  }

  method CleanupManifestGateway(host: Host, m: Manifest, table: string, ghost original: map<string, nat>)
    returns (ok: bool)
    requires host.manifest == Some(m)
    requires Recoverable(host.State(), table, original) && AllRecoverable(host.trace, table, original)
    modifies host
    ensures host.manifest == Some(m) && host.forwarding.Keys == old(host.forwarding.Keys)
    ensures Recoverable(host.State(), table, original) && AllRecoverable(host.trace, table, original)
    ensures ok ==> table !in host.tables && forall i :: i in host.forwarding ==> host.forwarding[i] == original[i]
    ensures ok <==> host.faults == old(host.faults)
    ensures host.faults >= old(host.faults)
    // A failure stops nothing: each switch that is left is turned off and restored, and a recorded table deleted.
    ensures |host.trace| == |old(host.trace)| + Steps(m, old(host.forwarding).Keys)
    // The table goes while nothing is forwarded.
    ensures ok && m.natTable.Some? ==>
      var at := |old(host.trace)| + Present(m.forwarding, old(host.forwarding).Keys);
      at < |host.trace| && table !in host.trace[at].tables && PresentAreOff(m.forwarding, host.trace[at].forwarding)
  {
    var cleaned := SwitchPresentOff(host, m, table, original);
    if m.natTable.Some? {
      var deleted := host.DeleteTable(m.natTable.value);
      cleaned := cleaned && deleted;
    }
    var restored := RestorePresent(host, m, table, original);
    return cleaned && restored;
  }

  /** What the loops of a clean-up keep. */
  ghost predicate CleaningUp(host: Host, m: Manifest, table: string, original: map<string, nat>)
    reads host
  {
    host.manifest == Some(m) && Recoverable(host.State(), table, original) && AllRecoverable(host.trace, table, original)
  }

  /** Turns off every recorded switch that still exists, trying all of them. */
  method SwitchPresentOff(host: Host, m: Manifest, table: string, ghost original: map<string, nat>) returns (ok: bool)
    requires CleaningUp(host, m, table, original)
    modifies host
    ensures CleaningUp(host, m, table, original) && host.forwarding.Keys == old(host.forwarding).Keys && host.tables == old(host.tables)
    ensures ok <==> host.faults == old(host.faults)
    ensures host.faults >= old(host.faults)
    ensures |host.trace| == |old(host.trace)| + Present(m.forwarding, old(host.forwarding).Keys)
    ensures ok ==> PresentAreOff(m.forwarding, host.forwarding)
  {
    ok := true;
    var records := m.forwarding;
    for k := 0 to |records|
      invariant CleaningUp(host, m, table, original) && host.forwarding.Keys == old(host.forwarding).Keys && host.tables == old(host.tables)
      invariant ok <==> host.faults == old(host.faults)
      invariant host.faults >= old(host.faults)
      invariant |host.trace| == |old(host.trace)| + Present(records[..k], old(host.forwarding).Keys)
      invariant ok ==> PresentAreOff(records[..k], host.forwarding)
    {
      assert records[..k + 1][..k] == records[..k];
      if records[k].interfaceName in host.forwarding {
        assert Recorded(records, records[k].interfaceName);
        var done := host.SetForwarding(records[k].interfaceName, 0);
        ok := ok && done;
      }
    }
    assert records[..|records|] == records;
  }

  /** Gives every recorded switch that still exists its recorded value, trying all of them. */
  method RestorePresent(host: Host, m: Manifest, table: string, ghost original: map<string, nat>) returns (ok: bool)
    requires CleaningUp(host, m, table, original)
    modifies host
    ensures CleaningUp(host, m, table, original) && host.forwarding.Keys == old(host.forwarding).Keys && host.tables == old(host.tables)
    ensures old(host.trace) <= host.trace
    ensures ok <==> host.faults == old(host.faults)
    ensures host.faults >= old(host.faults)
    ensures |host.trace| == |old(host.trace)| + Present(m.forwarding, old(host.forwarding).Keys)
    ensures ok ==> forall i :: i in host.forwarding ==> host.forwarding[i] == original[i]
  {
    ok := true;
    var records := m.forwarding;
    for k := 0 to |records|
      invariant CleaningUp(host, m, table, original) && host.forwarding.Keys == old(host.forwarding).Keys && host.tables == old(host.tables)
      invariant old(host.trace) <= host.trace
      invariant ok <==> host.faults == old(host.faults)
      invariant host.faults >= old(host.faults)
      invariant |host.trace| == |old(host.trace)| + Present(records[..k], old(host.forwarding).Keys)
      invariant ok ==> forall j :: 0 <= j < k && records[j].interfaceName in host.forwarding ==>
        host.forwarding[records[j].interfaceName] == original[records[j].interfaceName]
    {
      assert records[..k + 1][..k] == records[..k];
      if records[k].interfaceName in host.forwarding {
        assert records[k] in records && Recorded(records, records[k].interfaceName);
        var done := host.SetForwarding(records[k].interfaceName, records[k].previousValue);
        ok := ok && done;
      }
    }
    assert records[..|records|] == records;
  }

  /** How many of the recorded switches still exist. */
  function Present(records: seq<ForwardingRecord>, interfaces: set<string>): nat {
    if records == [] then 0
    else Present(records[..|records| - 1], interfaces) + if records[|records| - 1].interfaceName in interfaces then 1 else 0
  }

  predicate PresentAreOff(records: seq<ForwardingRecord>, forwarding: map<string, nat>) {
    forall r :: r in records && r.interfaceName in forwarding ==> forwarding[r.interfaceName] == 0
  }

  /** The effects of a clean-up: two for each switch that still exists, and one for the table. */
  function Steps(m: Manifest, interfaces: set<string>): nat {
    2 * Present(m.forwarding, interfaces) + if m.natTable.Some? then 1 else 0
  }

  /** The world a dead process leaves: some interfaces, at least its own, are gone with it. */
  function AfterCrash(w: World, survivors: set<string>): (after: World)
    ensures after.manifest == w.manifest && after.tables == w.tables
    ensures after.forwarding.Keys == w.forwarding.Keys * survivors
    ensures forall i :: i in after.forwarding ==> after.forwarding[i] == w.forwarding[i]
  {
    w.(forwarding := map i | i in w.forwarding && i in survivors :: w.forwarding[i])
  }

  lemma {:induction false} CrashKeepsRecoverable(w: World, survivors: set<string>, table: string, original: map<string, nat>)
    requires Recoverable(w, table, original)
    ensures Recoverable(AfterCrash(w, survivors), table, original)
  {
  }

  /**
   Crash safety of a whole life: any sequence of reconciliations, a crash after any
   primitive effect of any of them (`point` counts these effects), then any number of recovery attempts that may
   themselves fail half-way. If the last attempt succeeds, the host is as it was before;
   and it does succeed if it sees the link gone and its own plan, and none of its effects
   fails. `observed` says for each attempt whether the link is active and the plan matches.
   */
  method LiveCrashRecover(project: string, initial: World, requests: seq<seq<GatewayRoute>>, admitted: seq<bool>,
                          point: nat, survivors: set<string>, observed: seq<(bool, bool)>)
    returns (ok: bool, after: World, ghost faults: nat)
    requires initial.manifest == Some(Manifest([], [], None)) && TableName(project) !in initial.tables
    requires |admitted| == |requests|
    ensures ok ==> Clean(after, TableName(project), initial.forwarding)
    ensures Recoverable(after, TableName(project), initial.forwarding)
    ensures observed != [] && observed[|observed| - 1] == (false, true) && faults == 0 ==> ok
    ensures observed != [] && observed[|observed| - 1].0 ==> !ok
  {
    var host := new Host(initial);
    var network := new TunNetwork(project, host);
    for k := 0 to |requests|
      invariant network.Valid() && network.Remembers() && network.host == host && network.project == project && fresh(network) && fresh(host)
      invariant network.original == initial.forwarding
    {
      var _ := network.ReconcileGatewayRoutes(requests[k], admitted[k]);
    }
    var crashed := if point < |host.trace| then host.trace[point] else initial;
    var later := new Host(AfterCrash(crashed, survivors));
    CrashKeepsRecoverable(crashed, survivors, TableName(project), initial.forwarding);
    ok, faults := false, 0;
    for k := 0 to |observed|
      invariant k > 0 && observed[k - 1] == (false, true) && faults == 0 ==> ok
      invariant k > 0 && observed[k - 1].0 ==> !ok
      invariant fresh(later)
      invariant Recoverable(later.State(), TableName(project), initial.forwarding)
      invariant AllRecoverable(later.trace, TableName(project), initial.forwarding)
      invariant ok ==> Clean(later.State(), TableName(project), initial.forwarding)
    {
      ghost var before := later.faults;
      ok := RecoverStale(later, observed[k].0, observed[k].1, TableName(project), initial.forwarding);
      faults := later.faults - before;
    }
    after := later.State();
  }

  /**
   A success can be empty. If writing the first manifest fails, the request is
   already remembered; when every interface forwarded from the start, asking again
   succeeds although the NAT table was never created.
   */
  method RetryAfterFailedRecording(network: TunNetwork, desired: seq<GatewayRoute>) returns (first: Outcome, second: Outcome)
    requires network.Valid() && network.Remembers()
    requires network.gatewayRoutes == [] && network.forwarding == [] && network.natTable == None
    requires NatRoutes(desired) != []
    requires forall i :: i in network.host.forwarding ==> network.host.forwarding[i] == 1
    modifies network, network.host
    ensures !first.Rejected? && !first.SwitchedOff?
    ensures first == Failed(Recording) ==>
      second.Done? && TableName(network.project) !in network.host.tables
      && !Applied(network.host.State(), network.project, desired, network.original)
  {
    first := network.ReconcileGatewayRoutes(desired, true);
    second := network.ReconcileGatewayRoutes(desired, true);
  }

  /**
   The same happens if the manifest is written but the first switch cannot be turned
   off: with all recorded interfaces still on, asking again succeeds and does nothing.
   */
  method RetryAfterFailedSwitchOff(network: TunNetwork, desired: seq<GatewayRoute>) returns (first: Outcome, second: Outcome)
    requires network.Valid() && network.Remembers()
    requires network.gatewayRoutes == [] && network.forwarding == [] && network.natTable == None
    requires NatRoutes(desired) != []
    requires forall i :: i in network.host.forwarding ==> network.host.forwarding[i] == 1
    modifies network, network.host
    ensures !first.Rejected? && !first.SwitchedOff?
    ensures first == Failed(SwitchingOff) && network.host.forwarding == old(network.host.forwarding) ==>
      second.Done? && TableName(network.project) !in network.host.tables
      && !Applied(network.host.State(), network.project, desired, network.original)
  {
    first := network.ReconcileGatewayRoutes(desired, true);
    second := network.ReconcileGatewayRoutes(desired, true);
  }
}
