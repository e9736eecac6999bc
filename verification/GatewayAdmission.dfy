/** The admission of gateway routes: each must be a directly connected network of its interface in the kernel's main table. */
module GatewayAdmission {
  import opened Prelude
  import opened SubnetRoutes

  datatype Link = Link(index: nat, name: Option<string>)

  /** One entry of the kernel's IPv4 table. */
  datatype TableEntry = TableEntry(
    destination: Option<nat>, prefix: nat, output: Option<nat>, byKernel: bool, linkScope: bool, table: nat)

  datatype Wanted = Wanted(prefix: Net, interfaceName: string)

  const MAIN_TABLE: nat := 254

  // ----- what is promised -----

  /** The last link listed under this index that has a name has this one. */
  ghost predicate Named(links: seq<Link>, index: nat, name: string) {
    exists i :: 0 <= i < |links| && NamedAt(links, i, index, name)
  }

  predicate NamedAt(links: seq<Link>, i: nat, index: nat, name: string)
    requires i < |links|
  {
    links[i] == Link(index, Some(name)) && forall j :: i < j < |links| && links[j].index == index ==> links[j].name.None?
  }

  /** The kernel's own route to the prefix as a directly connected network of the interface, in the main table; never a default route. */
  ghost predicate Leads(e: TableEntry, links: seq<Link>, w: Wanted) {
    && w.prefix.prefix >= 1 && e.output.Some? && Named(links, e.output.value, w.interfaceName)
    && e == TableEntry(Some(w.prefix.address), w.prefix.prefix, e.output, true, true, 254)
  }

  ghost predicate Reached(entries: seq<TableEntry>, links: seq<Link>, w: Wanted) {
    exists e :: e in entries && Leads(e, links, w)
  }

  /** An entry that cannot be read although its interface is known. */
  ghost predicate Malformed(e: TableEntry, links: seq<Link>) {
    && e.destination.Some? && e.prefix > 32 && e.output.Some? && (exists name :: Named(links, e.output.value, name))
    && e == e.(byKernel := true, linkScope := true, table := 254)
  }

  ghost predicate Admissible(links: seq<Link>, entries: seq<TableEntry>, wanted: seq<Wanted>, project: string) {
    && (forall w :: w in wanted ==> w.interfaceName != project && Reached(entries, links, w))
    && (forall e :: e in entries ==> !Malformed(e, links))
  }

  // ----- the code -----

  predicate Connected(e: TableEntry) {
    e.prefix != 0 && e.byKernel && e.linkScope && e.table == MAIN_TABLE && e.destination.Some? && e.output.Some?
  }

  method InterfaceNames(links: seq<Link>) returns (names: map<nat, string>)
    ensures forall i, n :: i in names && names[i] == n <==> Named(links, i, n)
  {
    names := map[];
    for k := 0 to |links|
      invariant forall i, n :: i in names && names[i] == n <==> Named(links[..k], i, n)
    {
      NamesGrow(links[..k], links[k]);
      assert links[..k + 1] == links[..k] + [links[k]];
      if links[k].name.Some? {
        names := names[links[k].index := links[k].name.value];
      }
    }
    assert links[..|links|] == links;
  }

  /** Succeeds exactly for admissible routes; no routes need no check. */
  method ValidateGatewayRoutes(links: seq<Link>, entries: seq<TableEntry>, wanted: seq<Wanted>, project: string) returns (ok: bool)
    requires forall w :: w in wanted ==> w.prefix.Valid()
    ensures ok <==> wanted == [] || Admissible(links, entries, wanted, project)
  {
    if wanted == [] {
      return true;
    }
    var names := InterfaceNames(links);
    var desired := set w | w in wanted;
    if exists w :: w in desired && (w.interfaceName == project || w.interfaceName !in names.Values) {
      ghost var w :| w in desired && (w.interfaceName == project || w.interfaceName !in names.Values);
      if w.interfaceName != project { UnnamedIsUnreached(links, entries, names, w); }
      return false;
    }
    var found: set<Wanted> := {};
    for k := 0 to |entries|
      invariant forall w :: w in found <==> w in wanted && Reached(entries[..k], links, w)
      invariant forall e :: e in entries[..k] ==> !Malformed(e, links)
    {
      var e := entries[k];
      assert entries[..k + 1] == entries[..k] + [e];
      if Connected(e) && e.output.value in names {
        assert Named(links, e.output.value, names[e.output.value]);
        if e.prefix > 32 {
          assert Malformed(e, links);
          return false;
        }
        var w := Wanted(Net(e.destination.value, e.prefix), names[e.output.value]);
        if w in desired {
          found := found + {w};
        }
      }
      LeadsToOne(links, names, e);
      OneEntryMore(links, entries[..k], e);
    }
    assert entries[..|entries|] == entries;
    SameSize(found, desired);
    return |found| == |desired|;
  }

  lemma {:induction false} NamesGrow(links: seq<Link>, l: Link)
    ensures forall i, n :: Named(links + [l], i, n) <==>
      if l.index == i && l.name.Some? then l.name.value == n else Named(links, i, n)
  {
    var all := links + [l];
    forall i, n
      ensures Named(all, i, n) <==> if l.index == i && l.name.Some? then l.name.value == n else Named(links, i, n)
    {
      assert all[|links|] == l;
      assert NamedAt(all, |links|, i, n) <==> l == Link(i, Some(n));
      forall k | 0 <= k < |links|
        ensures NamedAt(all, k, i, n) <==> NamedAt(links, k, i, n) && !(l.index == i && l.name.Some?)
      {
        assert forall j :: k < j < |links| ==> all[j] == links[j];
      }
      assert Named(links, i, n) <==> exists k :: 0 <= k < |links| && NamedAt(links, k, i, n);
      if k :| 0 <= k < |links| && NamedAt(links, k, i, n) {
        assert NamedAt(all, k, i, n) <==> !(l.index == i && l.name.Some?);
      }
    }
  }

  lemma {:induction false} UnnamedIsUnreached(links: seq<Link>, entries: seq<TableEntry>, names: map<nat, string>, w: Wanted)
    requires forall i, n :: i in names && names[i] == n <==> Named(links, i, n)
    requires w.interfaceName !in names.Values
    ensures !Reached(entries, links, w)
  {
    assert forall i :: i in names ==> names[i] in names.Values;
  }

  /** An entry leads to one prefix over one interface, if its interface is known. */
  lemma {:induction false} LeadsToOne(links: seq<Link>, names: map<nat, string>, e: TableEntry)
    requires forall i, n :: i in names && names[i] == n <==> Named(links, i, n)
    ensures forall w :: Leads(e, links, w) <==>
      Connected(e) && e.output.value in names && w == Wanted(Net(e.destination.value, e.prefix), names[e.output.value])
  {
  }

  lemma {:induction false} OneEntryMore(links: seq<Link>, before: seq<TableEntry>, e: TableEntry)
    ensures forall w :: Reached(before + [e], links, w) <==> Reached(before, links, w) || Leads(e, links, w)
  {
    assert (before + [e])[|before|] == e;
    forall w | Reached(before, links, w) ensures Reached(before + [e], links, w) {
      var x :| x in before && Leads(x, links, w);
      assert x in before + [e];
    }
  }

  lemma {:induction false} SameSize<T>(a: set<T>, b: set<T>)
    requires a <= b
    ensures |a| == |b| <==> a == b
  {
    assert b == a + (b - a);
    if a != b {
      var x :| x in b - a;
    }
  }
}
