/**
 Client subnet routes: the prefix-overlap test, the admission check against the
 kernel's routing table, and the reconciliation of the tracked routes with rollback.
 */
module SubnetRoutes {
  import opened Prelude
  import opened Bits

  /** An IPv4 prefix as parsed: host bits of the address are kept (section 3.1 of RFC 4632). */
  datatype Net = Net(address: nat, prefix: nat) {
    predicate Valid() {
      prefix <= 32 && address < Pow2(32)
    }

    function Size(): (s: nat)
      requires Valid()
      ensures s >= 1
    {
      Pow2(32 - prefix)
    }

    function Network(): (n: nat)
      requires Valid()
    {
      Remainder(address, Size());
      address - address % Size()
    }

    function Broadcast(): nat
      requires Valid()
    {
      Network() + Size() - 1
    }

    /** The test the code makes. */
    predicate Contains(a: nat)
      requires Valid()
    {
      Network() <= a <= Broadcast()
    }

    /** The definition of a block: the leading `prefix` bits agree. */
    predicate InBlock(a: nat)
      requires Valid()
    {
      a / Size() == address / Size()
    }
  }

  predicate NetworksOverlap(left: Net, right: Net)
    requires left.Valid() && right.Valid()
  {
    left.Contains(right.Network()) || right.Contains(left.Network())
  }

  lemma {:induction false} ContainsIsInBlock(n: Net, a: nat)
    requires n.Valid()
    ensures n.Contains(a) <==> n.InBlock(a)
  {
    BlockTest(n.Size(), n.address, a);
  }

  lemma {:induction false} BlockTest(s: nat, address: nat, a: nat)
    requires s >= 1
    ensures address - address % s <= a <= address - address % s + s - 1 <==> a / s == address / s
  {
    assert address == s * (address / s) + address % s;
    assert a == s * (a / s) + a % s;
    SameQuotient(s, address / s, a / s, a % s);
  }

  lemma {:induction false} SameQuotient(s: nat, q: nat, q': nat, r: nat)
    requires r < s
    ensures s * q <= s * q' + r <= s * q + s - 1 <==> q == q'
  {
    var k := q' - q;
    assert s * q' == s * q + s * k;
    MulSign(s, k);
  }

  /** The overlap test holds exactly when the two blocks share an address. */
  lemma {:induction false} OverlapIffSharedAddress(left: Net, right: Net)
    requires left.Valid() && right.Valid()
    ensures NetworksOverlap(left, right) <==> exists a :: left.InBlock(a) && right.InBlock(a)
  {
    forall a ensures left.Contains(a) <==> left.InBlock(a) { if a >= 0 { ContainsIsInBlock(left, a); } }
    forall a ensures right.Contains(a) <==> right.InBlock(a) { if a >= 0 { ContainsIsInBlock(right, a); } }
    if NetworksOverlap(left, right) {
      var a := if left.Contains(right.Network()) then right.Network() else left.Network();
      assert left.Contains(a) && right.Contains(a);
    }
    if a :| left.InBlock(a) && right.InBlock(a) {
      assert left.Contains(a) && right.Contains(a);
    }
  }

  // ----- admission -----

  /** One entry of the kernel's IPv4 table; a default route carries no destination and prefix length 0. */
  datatype KernelRoute = KernelRoute(destination: Option<nat>, prefix: nat, outputInterface: Option<nat>)

  function DestinationNet(r: KernelRoute): Option<Net> {
    if r.destination.Some? && Net(r.destination.value, r.prefix).Valid() then Some(Net(r.destination.value, r.prefix)) else None
  }

  predicate ProjectOwned(r: KernelRoute, managed: set<Net>, index: nat) {
    DestinationNet(r).Some? && DestinationNet(r).value in managed && r.outputInterface == Some(index)
  }

  /** A default route, the project's own route of a managed prefix, or a block that has no address in common with `candidate`. */
  ghost predicate Free(r: KernelRoute, candidate: Net, managed: set<Net>, index: nat)
    requires candidate.Valid()
  {
    r.prefix == 0 || (r.destination.Some? &&
      var block := Net(r.destination.value, r.prefix);
      block.Valid() && ((block in managed && r.outputInterface == Some(index))
                        || !exists a :: block.InBlock(a) && candidate.InBlock(a)))
  }

  predicate Admits(r: KernelRoute, desired: seq<Net>, managed: set<Net>, index: nat)
    requires forall d :: d in desired ==> d.Valid()
  {
    r.prefix == 0
    || (DestinationNet(r).Some? &&
        (ProjectOwned(r, managed, index)
         || forall d :: d in desired ==> !NetworksOverlap(DestinationNet(r).value, d)))
  }

  /** Dumps the table entry by entry and refuses on the first conflict. */
  method EnsureSubnetRoutesAvailable(table: seq<KernelRoute>, desired: seq<Net>, index: nat, managed: set<Net>)
    returns (ok: bool)
    requires forall d :: d in desired ==> d.Valid()
    ensures desired == [] ==> ok
    ensures desired != [] ==> (
      ok <==> forall r, d :: r in table && d in desired ==> Free(r, d, managed, index))
  {
    if desired == [] {
      return true;
    }
    for k := 0 to |table|
      invariant forall r :: r in table[..k] ==> Admits(r, desired, managed, index)
    {
      if !Admits(table[k], desired, managed, index) {
        AdmitsIffFree(table[k], desired, managed, index);
        return false;
      }
    }
    forall r | r in table ensures forall d :: d in desired ==> Free(r, d, managed, index) {
      AdmitsIffFree(r, desired, managed, index);
    }
    return true;
  }

  lemma {:induction false} AdmitsIffFree(r: KernelRoute, desired: seq<Net>, managed: set<Net>, index: nat)
    requires desired != [] && forall d :: d in desired ==> d.Valid()
    ensures Admits(r, desired, managed, index) <==> forall d :: d in desired ==> Free(r, d, managed, index)
  {
    if DestinationNet(r).Some? {
      forall d | d in desired
        ensures NetworksOverlap(DestinationNet(r).value, d) <==>
          exists a :: DestinationNet(r).value.InBlock(a) && d.InBlock(a)
      {
        OverlapIffSharedAddress(DestinationNet(r).value, d);
      }
    } else {
      assert desired[0] in desired;
    }
  }

  // ----- reconciliation -----

  function RouteFor(p: Net, index: nat): KernelRoute
    requires p.Valid()
  {
    KernelRoute(Some(p.Network()), p.prefix, Some(index))
  }

  function RoutesFor(ps: set<Net>, index: nat): set<KernelRoute>
    requires forall p :: p in ps ==> p.Valid()
  {
    set p | p in ps :: RouteFor(p, index)
  }

  /** Two of the routes to add are one and the same, or one is there already: the kernel refuses it. */
  predicate Clashes(additions: set<Net>, kernel: set<KernelRoute>, index: nat)
    requires forall p :: p in additions ==> p.Valid()
  {
    || (exists p :: p in additions && RouteFor(p, index) in kernel)
    || (exists p, q :: p in additions && q in additions && p != q && RouteFor(p, index) == RouteFor(q, index))
  }

  /** No address of a route to add lies in a foreign route. */
  ghost predicate AllFree(kernel: set<KernelRoute>, additions: set<Net>, managed: set<Net>, index: nat)
    requires forall d :: d in additions ==> d.Valid()
  {
    forall r, d :: r in kernel && d in additions ==> Free(r, d, managed, index)
  }

  datatype Outcome = Done | Conflict | AddFailed(rolledBack: bool) | RemoveFailed | PersistFailed

  class Reconciler {
    const index: nat
    var tracked: set<Net>
    var kernel: set<KernelRoute>
    // How many calls the kernel failed without a reason of its own.
    ghost var faults: nat

    /** Each tracked prefix has its own route in the kernel. */
    ghost predicate Valid()
      reads this
    {
      && (forall p :: p in tracked ==> p.Valid() && RouteFor(p, index) in kernel)
      && (forall p, q :: p in tracked && q in tracked && RouteFor(p, index) == RouteFor(q, index) ==> p == q)
    }

    /** The kernel refuses a route it already has. */
    method AddRoute(r: KernelRoute) returns (ok: bool)
      modifies this`kernel, this`faults
      ensures ok ==> r !in old(kernel)
      ensures kernel == if ok then old(kernel) + {r} else old(kernel)
      ensures faults == old(faults) + if ok || r in old(kernel) then 0 else 1
    {
      ok := *;
      if !ok && r !in kernel { faults := faults + 1; }
      ok := ok && r !in kernel;
      if ok { kernel := kernel + {r}; }
    }

    method DeleteRoute(r: KernelRoute) returns (ok: bool)
      modifies this`kernel, this`faults
      ensures kernel == if ok then old(kernel) - {r} else old(kernel)
      ensures faults == old(faults) + if ok then 0 else 1
    {
      ok := *;
      if ok { kernel := kernel - {r}; } else { faults := faults + 1; }
    }

    /** Adds all routes, or on the first failure takes the added ones out again. */
    method AddAll(additions: set<Net>) returns (ok: bool, rolledBack: bool)
      requires forall p :: p in additions ==> p.Valid()
      modifies this`kernel, this`faults
      ensures ok ==> kernel == old(kernel) + RoutesFor(additions, index) && !Clashes(additions, old(kernel), index)
      ensures ok ==> faults == old(faults)
      ensures !ok ==> faults > old(faults) || Clashes(additions, old(kernel), index)
      // One failure is the addition itself; only a further one can spoil the rollback.
      ensures !ok && faults <= old(faults) + (if Clashes(additions, old(kernel), index) then 0 else 1) ==> rolledBack
      ensures !ok && rolledBack ==> kernel == old(kernel)
      ensures !ok ==> old(kernel) <= kernel <= old(kernel) + RoutesFor(additions, index)
    {
      var remaining, added := additions, {};
      while remaining != {}
        invariant added == additions - remaining && remaining <= additions && faults == old(faults)
        invariant kernel == old(kernel) + RoutesFor(added, index) && old(kernel) !! RoutesFor(added, index)
        invariant forall p, q :: p in added && q in added && RouteFor(p, index) == RouteFor(q, index) ==> p == q
        decreases remaining
      {
        var p :| p in remaining;
        ok := AddRoute(RouteFor(p, index));
        if !ok {
          RefusedClashes(additions, added, p, old(kernel), index);
          rolledBack := Rollback(added, old(kernel));
          return false, rolledBack;
        }
        assert RoutesFor(added + {p}, index) == RoutesFor(added, index) + {RouteFor(p, index)};
        remaining, added := remaining - {p}, added + {p};
      }
      assert added == additions;
      return true, false;
    }

    method Rollback(added: set<Net>, ghost base: set<KernelRoute>) returns (all: bool)
      requires forall p :: p in added ==> p.Valid()
      requires kernel == base + RoutesFor(added, index) && base !! RoutesFor(added, index)
      modifies this`kernel, this`faults
      ensures all <==> faults == old(faults)
      ensures faults >= old(faults)
      ensures all ==> kernel == base
      ensures base <= kernel <= base + RoutesFor(added, index)
    {
      var remaining := added;
      all := true;
      while remaining != {}
        invariant remaining <= added
        invariant base <= kernel <= base + RoutesFor(added, index)
        invariant all ==> kernel <= base + RoutesFor(remaining, index)
        invariant all <==> faults == old(faults)
        invariant faults >= old(faults)
        decreases remaining
      {
        var p :| p in remaining;
        ghost var rest := remaining - {p};
        assert RouteFor(p, index) in RoutesFor(added, index);
        assert RoutesFor(remaining, index) <= RoutesFor(rest, index) + {RouteFor(p, index)};
        var done := DeleteRoute(RouteFor(p, index));
        all := all && done;
        remaining := remaining - {p};
      }
    }

    /**
     Makes the tracked routes equal to the desired ones. `dump` is the kernel table as
     listed; `persisted` is the outcome of writing the manifest at the end.
     */
    method ReconcileSubnetRoutes(desired: set<Net>, dump: seq<KernelRoute>, persisted: bool) returns (outcome: Outcome)
      requires Valid() && forall p :: p in desired ==> p.Valid()
      requires forall r :: r in dump <==> r in kernel
      modifies this
      ensures Valid()
      // What is tracked already is left alone; otherwise success needs everything to be free, no clash, no fault, and the manifest on disk.
      ensures desired == old(tracked) ==> outcome.Done? && unchanged(this)
      ensures desired != old(tracked) ==> (
        outcome.Done? <==> AllFree(old(kernel), desired - old(tracked), old(tracked), index)
                           && !Clashes(desired - old(tracked), old(kernel), index) && faults == old(faults) && persisted)
      // Tracked and kernel sets then both follow the request exactly, as they do if only the manifest could not be written.
      ensures outcome.Done? || outcome.PersistFailed? ==>
        && tracked == desired
        && kernel == old(kernel) - RoutesFor(old(tracked) - desired, index) + RoutesFor(desired - old(tracked), index)
      ensures outcome.PersistFailed? ==> !persisted
      // A conflict is exactly an address shared with a foreign route that was there.
      ensures outcome.Conflict? <==> desired != old(tracked) && !AllFree(old(kernel), desired - old(tracked), old(tracked), index)
      // The other failures come from the kernel; a removal that fails leaves the rest to be removed tracked.
      ensures outcome.AddFailed? ==> faults > old(faults) || Clashes(desired - old(tracked), old(kernel), index)
      ensures outcome.RemoveFailed? ==>
        && faults > old(faults) && desired <= tracked <= old(tracked) + desired
        && kernel == old(kernel) + RoutesFor(desired - old(tracked), index) - RoutesFor(old(tracked) + desired - tracked, index)
      // A conflict, or a failed addition that could be rolled back, changed nothing.
      ensures outcome.Conflict? || (outcome.AddFailed? && outcome.rolledBack) ==>
        kernel == old(kernel) && tracked == old(tracked)
    {
      if desired == tracked {
        return Done;
      }
      var additions, removals := desired - tracked, tracked - desired;
      var ok := Available(additions, dump);
      if !ok {
        return Conflict;
      }
      var rolledBack;
      ok, rolledBack := AddAll(additions);
      if !ok {
        return AddFailed(rolledBack);
      }
      tracked := tracked + additions;
      ok := RemoveAll(removals);
      if !ok {
        return RemoveFailed;
      }
      return if persisted then Done else PersistFailed;
    }

    /** The check of the additions against the table as listed. */
    method Available(additions: set<Net>, dump: seq<KernelRoute>) returns (ok: bool)
      requires forall p :: p in additions ==> p.Valid()
      requires forall r :: r in dump <==> r in kernel
      ensures ok <==> AllFree(kernel, additions, tracked, index)
    {
      var listed := Listing(additions);
      ok := EnsureSubnetRoutesAvailable(dump, listed, index, tracked);
    }

    /** Takes routes out one by one; a route that stays in the kernel stays tracked. */
    method RemoveAll(removals: set<Net>) returns (ok: bool)
      requires Valid() && removals <= tracked
      modifies this
      ensures Valid()
      ensures ok ==> tracked == old(tracked) - removals && kernel == old(kernel) - RoutesFor(removals, index)
      ensures old(tracked) - removals <= tracked <= old(tracked)
      ensures kernel == old(kernel) - RoutesFor(old(tracked) - tracked, index)
      ensures faults == old(faults) + if ok then 0 else 1
    {
      var remaining := removals;
      while remaining != {}
        invariant Valid() && remaining <= removals && faults == old(faults)
        invariant tracked == old(tracked) - (removals - remaining)
        invariant kernel == old(kernel) - RoutesFor(removals - remaining, index)
        decreases remaining
      {
        var p :| p in remaining;
        ok := DeleteRoute(RouteFor(p, index));
        if !ok {
          return;
        }
        assert removals - (remaining - {p}) == (removals - remaining) + {p};
        assert RoutesFor((removals - remaining) + {p}, index) == RoutesFor(removals - remaining, index) + {RouteFor(p, index)};
        tracked, remaining := tracked - {p}, remaining - {p};
      }
      return true;
    }
  }

  /** A route that the kernel refuses because it has it was there before, or has just been added. */
  lemma {:induction false} RefusedClashes(additions: set<Net>, added: set<Net>, p: Net, kernel: set<KernelRoute>, index: nat)
    requires forall q :: q in additions ==> q.Valid()
    requires added <= additions && p in additions - added
    ensures RouteFor(p, index) in kernel + RoutesFor(added, index) ==> Clashes(additions, kernel, index)
  {
  }

  /** The elements of a set in some order. */
  method Listing(ps: set<Net>) returns (listed: seq<Net>)
    ensures forall p :: p in listed <==> p in ps
    ensures listed == [] <==> ps == {}
  {
    listed := [];
    var remaining := ps;
    while remaining != {}
      invariant remaining <= ps
      invariant forall p :: p in listed <==> p in ps - remaining
      invariant listed == [] <==> ps == remaining
      decreases remaining
    {
      var p :| p in remaining;
      assert (listed + [p])[|listed|] == p;
      listed, remaining := listed + [p], remaining - {p};
    }
  }
}
