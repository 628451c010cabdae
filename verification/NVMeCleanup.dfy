/**
 Deleting the NVMe-oF chain of a volume: host links, port links and namespaces of its
 subsystem, then the subsystem. A host goes with the last link to it; ports are shared and stay.
 */
module NVMeCleanup {
  import opened Basics

  // A row of one of the three tables below a subsystem: a host link, a port link or a namespace.
  // `peer` is the host or the port; either reference may be missing from a row.
  datatype Row = Row(peer: Option<int>, subsys: Option<int>)

  type Table = map<int, Row>

  datatype Tables = Tables(
    subsystems: set<int>, hosts: set<int>, ports: set<int>,
    hostLinks: Table, portLinks: Table, namespaces: Table)

  // a row as a query returns it
  datatype Entry = Entry(id: int, row: Row)

  predicate Lists(entries: seq<Entry>, t: Table) {
    && (forall i :: 0 <= i < |entries| ==> entries[i].id in t && t[entries[i].id] == entries[i].row)
    && (forall i, j :: 0 <= i < j < |entries| ==> entries[i].id != entries[j].id)
  }

  // ---------- the filters ----------

  function Without(t: Table, subsys: int): Table { map id | id in t && t[id].subsys != Some(subsys) :: t[id] }

  predicate Linked(t: Table, host: int) { exists id | id in t :: t[id].peer == Some(host) }

  method BySubsystem(all: seq<Entry>, t: Table, subsys: int) returns (matched: seq<Entry>)
    requires Lists(all, t)
    ensures Lists(matched, t)
    ensures forall e :: e in matched <==> e in all && e.row.subsys == Some(subsys)
  {
    matched := [];
    for i := 0 to |all|
      invariant Lists(matched, t)
      invariant forall e :: e in matched <==> e in all[..i] && e.row.subsys == Some(subsys)
    {
      if all[i].row.subsys == Some(subsys) {
        matched := matched + [all[i]];
      }
    }
    assert all[..|all|] == all;
  }

  method ByHost(all: seq<Entry>, host: int) returns (matched: seq<Entry>)
    ensures forall e :: e in matched <==> e in all && e.row.peer == Some(host)
  {
    matched := [];
    for i := 0 to |all|
      invariant forall e :: e in matched <==> e in all[..i] && e.row.peer == Some(host)
    {
      if all[i].row.peer == Some(host) {
        matched := matched + [all[i]];
      }
    }
    assert all[..|all|] == all;
  }

  // ---------- what a deletion may do, whatever fails ----------

  // a link to the host was removed between two states of the table, and none is left
  predicate Freed(before: Table, after: Table, host: int) {
    && (exists id | id in before :: id !in after && before[id].peer == Some(host))
    && !Linked(after, host)
  }

  function FreedHosts(before: Table, after: Table, hosts: set<int>): set<int> {
    set h | h in hosts && Freed(before, after, h)
  }

  // rows of this subsystem, and no others, may be gone
  predicate Pruned(t: Table, t': Table, subsys: int) {
    Within(Without(t, subsys), t') && Within(t', t)
  }

  predicate Within(t: Table, u: Table) { forall id :: id in t ==> id in u && u[id] == t[id] }

  // the outcomes when calls fail
  ghost predicate PartlyCollected(t: Tables, t': Tables, subsys: int) {
    && t'.ports == t.ports
    && t.subsystems - {subsys} <= t'.subsystems <= t.subsystems
    && Pruned(t.hostLinks, t'.hostLinks, subsys)
    && Pruned(t.portLinks, t'.portLinks, subsys)
    && Pruned(t.namespaces, t'.namespaces, subsys)
    && t.hosts - FreedHosts(t.hostLinks, t'.hostLinks, t.hosts) <= t'.hosts <= t.hosts
  }

  // every link names a host that exists
  predicate HostsExist(t: Tables) {
    forall id :: id in t.hostLinks && t.hostLinks[id].peer.Some? ==> t.hostLinks[id].peer.value in t.hosts
  }

  /** Whatever fails, no host is deleted that still has a link, and no shared port. */
  lemma NoLinkedHostIsDeleted(t: Tables, t': Tables, subsys: int)
    requires HostsExist(t) && PartlyCollected(t, t', subsys)
    ensures HostsExist(t') && t'.ports == t.ports
    ensures forall h :: h in t.hosts && h !in t'.hosts ==> !Linked(t'.hostLinks, h)
  {
    forall id | id in t'.hostLinks && t'.hostLinks[id].peer.Some?
      ensures t'.hostLinks[id].peer.value in t'.hosts
    {
      assert id in t.hostLinks;
      assert Linked(t'.hostLinks, t'.hostLinks[id].peer.value);
    }
  }

  // authorizing hosts: links are added, each to a host that exists afterwards
  ghost predicate Authorizes(t: Tables, t': Tables) {
    && t'.ports == t.ports && t.hosts <= t'.hosts && Within(t.hostLinks, t'.hostLinks)
    && forall id :: id in t'.hostLinks && id !in t.hostLinks && t'.hostLinks[id].peer.Some? ==>
                      t'.hostLinks[id].peer.value in t'.hosts
  }

  /** In every sequence of authorizations and deletions, whichever calls fail, every link keeps its host. */
  lemma {:induction false} LinkedHostsStay(states: seq<Tables>, deleted: seq<Option<int>>, i: nat)
    requires |states| == |deleted| + 1 && i < |states| && HostsExist(states[0])
    requires forall k :: 0 <= k < |deleted| ==>
               if deleted[k].Some? then PartlyCollected(states[k], states[k + 1], deleted[k].value)
               else Authorizes(states[k], states[k + 1])
    ensures HostsExist(states[i]) && states[i].ports == states[0].ports
  {
    if i > 0 {
      LinkedHostsStay(states, deleted, i - 1);
      if deleted[i - 1].Some? {
        NoLinkedHostIsDeleted(states[i - 1], states[i], deleted[i - 1].value);
      } else {
        assert Authorizes(states[i - 1], states[i]);
      }
    }
  }

  // ---------- what a deletion achieves ----------

  // the calls that may fail; all others work
  datatype Faults = Faults(
    queries: bool, subsystem: bool,
    hostLinks: set<int>, portLinks: set<int>, namespaces: set<int>, hosts: set<int>)

  const NoFaults := Faults(false, false, {}, {}, {}, {})

  // a row of the subsystem is left only where its own deletion may fail
  predicate Cleared(t': Table, subsys: int, faults: set<int>) {
    forall id :: id in t' && t'[id].subsys == Some(subsys) ==> id in faults
  }

  // the hosts with a link whose deletion may fail
  function Blamed(t: Table, faults: set<int>): set<int> {
    set id | id in t && id in faults && t[id].peer.Some? :: t[id].peer.value
  }

  // with working queries, nothing is left that no failed deletion explains
  ghost predicate Achieved(t: Tables, t': Tables, subsys: int, faults: Faults) {
    && Cleared(t'.hostLinks, subsys, faults.hostLinks)
    && Cleared(t'.portLinks, subsys, faults.portLinks)
    && Cleared(t'.namespaces, subsys, faults.namespaces)
    && (subsys in t'.subsystems ==> faults.subsystem)
    && t'.hosts * FreedHosts(t.hostLinks, t'.hostLinks, t.hosts) <= faults.hosts + Blamed(t.hostLinks, faults.hostLinks)
  }

  // the table keeps exactly the rows of other subsystems, as they were
  ghost predicate KeepsOthers(t: Table, t': Table, subsys: int) {
    && (forall id :: id in t' <==> id in t && t[id].subsys != Some(subsys))
    && (forall id :: id in t' ==> t'[id] == t[id])
  }

  // the host has a link, and every link of the host is one to this subsystem
  ghost predicate OnlyLinkedTo(t: Table, host: int, subsys: int) {
    && Linked(t, host)
    && (forall id :: id in t && t[id].peer == Some(host) ==> t[id].subsys == Some(subsys))
  }

  ghost predicate AllGone(t: Tables, t': Tables, subsys: int) {
    && KeepsOthers(t.hostLinks, t'.hostLinks, subsys)
    && KeepsOthers(t.portLinks, t'.portLinks, subsys)
    && KeepsOthers(t.namespaces, t'.namespaces, subsys)
    && t'.subsystems == t.subsystems - {subsys} && t'.ports == t.ports
    && (forall h :: h in t'.hosts <==> h in t.hosts && !OnlyLinkedTo(t.hostLinks, h, subsys))
  }

  /**
   When every call works, all rows of the subsystem go and no others, and the hosts that go are
   exactly those that only this subsystem was linked to.
   */
  lemma FreedExactly(t: Tables, t': Tables, subsys: int)
    requires PartlyCollected(t, t', subsys) && Achieved(t, t', subsys, NoFaults)
    ensures AllGone(t, t', subsys)
  {
    KeptExactly(t.hostLinks, t'.hostLinks, subsys);
    KeptExactly(t.portLinks, t'.portLinks, subsys);
    KeptExactly(t.namespaces, t'.namespaces, subsys);
    forall h ensures Freed(t.hostLinks, t'.hostLinks, h) <==> OnlyLinkedTo(t.hostLinks, h, subsys) {
      FreedIsLonely(t.hostLinks, t'.hostLinks, subsys, h);
    }
    var freed := FreedHosts(t.hostLinks, t'.hostLinks, t.hosts);
    assert t'.hosts * freed <= {};
    forall h | h in t.hosts ensures h in t'.hosts <==> h !in freed {
      assert h in t'.hosts * freed <==> h in t'.hosts && h in freed;
    }
  }

  lemma KeptExactly(t: Table, t': Table, subsys: int)
    requires Pruned(t, t', subsys) && Cleared(t', subsys, {})
    ensures KeepsOthers(t, t', subsys)
  {
    assert forall id :: id in t && t[id].subsys != Some(subsys) ==> id in Without(t, subsys);
  }

  lemma FreedIsLonely(t: Table, t': Table, subsys: int, host: int)
    requires KeepsOthers(t, t', subsys)
    ensures Freed(t, t', host) <==> OnlyLinkedTo(t, host, subsys)
  {
    if OnlyLinkedTo(t, host, subsys) {
      var id :| id in t && t[id].peer == Some(host);
      assert id !in t';
    } else if Linked(t, host) {
      var id :| id in t && t[id].peer == Some(host) && t[id].subsys != Some(subsys);
      assert id in t' && t'[id].peer == Some(host);
    }
  }

  /** Removing one link changes which hosts are freed only for its own host. */
  lemma FreedStep(before: Table, t: Table, id: int, hosts: set<int>)
    requires Within(t, before) && id in t
    ensures var h, after := t[id].peer, t - {id};
            FreedHosts(before, after, hosts) ==
            FreedHosts(before, t, hosts) +
            if h.Some? && h.value in hosts && !Linked(after, h.value) then {h.value} else {}
  {
    var after := t - {id};
    forall h | h in hosts
      ensures Freed(before, after, h) <==>
              Freed(before, t, h) || (t[id].peer == Some(h) && !Linked(after, h))
    {
      assert Linked(after, h) ==> Linked(t, h);
      if Linked(t, h) && t[id].peer != Some(h) {
        var other :| other in t && t[other].peer == Some(h);
        assert other in after && after[other].peer == Some(h);
      }
    }
  }

  // the hosts that may go with one removed link
  function LastLink(after: Table, row: Row): set<int> {
    if row.peer.Some? && !Linked(after, row.peer.value) then {row.peer.value} else {}
  }

  class Server {
    const faults: Faults
    var subsystems: set<int>
    var hosts: set<int>
    var ports: set<int>
    var hostLinks: Table
    var portLinks: Table
    var namespaces: Table

    function Value(): (t: Tables)
      reads this
    {
      Tables(subsystems, hosts, ports, hostLinks, portLinks, namespaces)
    }

    constructor (t: Tables, faults: Faults)
      ensures Value() == t && this.faults == faults
    {
      this.faults := faults;
      subsystems, hosts, ports := t.subsystems, t.hosts, t.ports;
      hostLinks, portLinks, namespaces := t.hostLinks, t.portLinks, t.namespaces;
    }

    // ---------- calls: one that fails may still have had its effect ----------

    method Query(t: Table) returns (r: Option<seq<Entry>>)
      ensures r.None? ==> faults.queries
      ensures r.Some? ==> Lists(r.value, t)
      ensures r.Some? ==> forall id :: id in t ==> Entry(id, t[id]) in r.value
    {
      var fails: bool := *;
      if fails && faults.queries {
        return None;
      }
      var rest: set<int>, entries: seq<Entry> := t.Keys, [];
      while rest != {}
        invariant rest <= t.Keys && Lists(entries, t)
        invariant forall id :: id in t && id !in rest ==> Entry(id, t[id]) in entries
        invariant forall i :: 0 <= i < |entries| ==> entries[i].id !in rest
      {
        assert (forall id :: id !in rest) ==> rest == {};
        var id :| id in rest;
        rest := rest - {id};
        entries := entries + [Entry(id, t[id])];
      }
      r := Some(entries);
    }

    method DeleteRow(t: Table, id: int, faults: set<int>) returns (ok: bool, t': Table)
      ensures t' == t - {id} || (t' == t && !ok)
      ensures !ok ==> id in faults
    {
      var call: Call := *;
      ok := call.Works? || id !in faults;
      t' := if !ok && call.Fails? then t else t - {id};
    }

    method DeleteHost(id: int)
      modifies this`hosts
      ensures hosts == old(hosts) - {id} || (id in faults.hosts && hosts == old(hosts))
    {
      var call: Call := *;
      if !(id in faults.hosts && call.Fails?) {
        hosts := hosts - {id};
      }
    }

    method DeleteSubsystem(id: int)
      modifies this`subsystems
      ensures subsystems == old(subsystems) - {id} || (faults.subsystem && subsystems == old(subsystems))
    {
      var call: Call := *;
      if !(faults.subsystem && call.Fails?) {
        subsystems := subsystems - {id};
      }
    }

    // ---------- deletion ----------

    // the rows of a subsystem, or none when the query fails
    method RowsOf(t: Table, subsys: int) returns (rows: seq<Entry>)
      ensures Lists(rows, t)
      ensures forall e :: e in rows ==> e.row.subsys == Some(subsys)
      ensures !faults.queries ==>
                forall id :: id in t && t[id].subsys == Some(subsys) ==> Entry(id, t[id]) in rows
    {
      var all := Query(t);
      if all.None? {
        return [];
      }
      rows := BySubsystem(all.value, t, subsys);
    }

    // delete one host link, and its host with it when no other link is left
    method Unlink(e: Entry)
      modifies this`hosts, this`hostLinks
      ensures hostLinks == old(hostLinks) - {e.id} || (e.id in faults.hostLinks && hostLinks == old(hostLinks))
      ensures old(hosts) - LastLink(hostLinks, e.row) <= hosts <= old(hosts)
      ensures hosts != old(hosts) ==> hostLinks == old(hostLinks) - {e.id}
      ensures !faults.queries && e.id !in faults.hostLinks ==>
                hosts * LastLink(hostLinks, e.row) <= faults.hosts
    {
      var ok;
      ok, hostLinks := DeleteRow(hostLinks, e.id, faults.hostLinks);
      if !ok || e.row.peer.None? {
        return;
      }
      var host := e.row.peer.value;
      var all := Query(hostLinks);
      if all.None? {
        return;
      }
      var remaining := ByHost(all.value, host);
      if remaining == [] {
        forall id | id in hostLinks ensures hostLinks[id].peer != Some(host) {
          assert Entry(id, hostLinks[id]) in all.value && Entry(id, hostLinks[id]) !in remaining;
        }
        DeleteHost(host);
      } else {
        assert remaining[0] in remaining;
      }
    }

    method CollectHostLinks(subsys: int)
      modifies this`hosts, this`hostLinks
      ensures Pruned(old(hostLinks), hostLinks, subsys)
      ensures old(hosts) - FreedHosts(old(hostLinks), hostLinks, old(hosts)) <= hosts <= old(hosts)
      ensures !faults.queries ==> Cleared(hostLinks, subsys, faults.hostLinks)
      ensures !faults.queries ==>
                hosts * FreedHosts(old(hostLinks), hostLinks, old(hosts)) <=
                faults.hosts + Blamed(old(hostLinks), faults.hostLinks)
    {
      var links := RowsOf(hostLinks, subsys);
      for i := 0 to |links|
        invariant Within(hostLinks, old(hostLinks)) && Within(Without(old(hostLinks), subsys), hostLinks)
        invariant forall k :: i <= k < |links| ==> links[k].id in hostLinks
        invariant forall k :: 0 <= k < i && links[k].id in hostLinks ==> links[k].id in faults.hostLinks
        invariant old(hosts) - FreedHosts(old(hostLinks), hostLinks, old(hosts)) <= hosts <= old(hosts)
        invariant !faults.queries ==>
                    hosts * FreedHosts(old(hostLinks), hostLinks, old(hosts)) <=
                    faults.hosts + Blamed(old(hostLinks), faults.hostLinks)
      {
        var e := links[i];
        assert e in links;
        ghost var before := hostLinks;
        FreedStep(old(hostLinks), before, e.id, old(hosts));
        Unlink(e);
      }
      if !faults.queries { AllCleared(old(hostLinks), hostLinks, links, subsys, faults.hostLinks); }
    }

    method CollectPortLinks(subsys: int)
      modifies this`portLinks
      ensures Pruned(old(portLinks), portLinks, subsys)
      ensures !faults.queries ==> Cleared(portLinks, subsys, faults.portLinks)
    {
      var links := RowsOf(portLinks, subsys);
      for i := 0 to |links|
        invariant Pruned(old(portLinks), portLinks, subsys)
        invariant forall k :: 0 <= k < i && links[k].id in portLinks ==> links[k].id in faults.portLinks
      {
        assert links[i] in links;
        var _, after := DeleteRow(portLinks, links[i].id, faults.portLinks);
        portLinks := after;
      }
      if !faults.queries { AllCleared(old(portLinks), portLinks, links, subsys, faults.portLinks); }
    }

    method CollectNamespaces(subsys: int)
      modifies this`namespaces
      ensures Pruned(old(namespaces), namespaces, subsys)
      ensures !faults.queries ==> Cleared(namespaces, subsys, faults.namespaces)
    {
      var rows := RowsOf(namespaces, subsys);
      for i := 0 to |rows|
        invariant Pruned(old(namespaces), namespaces, subsys)
        invariant forall k :: 0 <= k < i && rows[k].id in namespaces ==> rows[k].id in faults.namespaces
      {
        assert rows[i] in rows;
        var _, after := DeleteRow(namespaces, rows[i].id, faults.namespaces);
        namespaces := after;
      }
      if !faults.queries { AllCleared(old(namespaces), namespaces, rows, subsys, faults.namespaces); }
    }

    /**
     deleteNVMeOFResources: whatever fails, no host with a link is deleted and no row of another
     subsystem; what is left is explained by a call that may fail. A zero ID means there is
     nothing to delete.
     */
    method DeleteNVMeOFResources(subsys: int)
      modifies this
      ensures PartlyCollected(old(Value()), Value(), subsys)
      ensures subsys == 0 ==> Value() == old(Value())
      ensures subsys != 0 && !faults.queries ==> Achieved(old(Value()), Value(), subsys, faults)
      ensures subsys != 0 && faults == NoFaults ==> AllGone(old(Value()), Value(), subsys)
    {
      if subsys == 0 {
        return;
      }
      CollectHostLinks(subsys);
      CollectPortLinks(subsys);
      CollectNamespaces(subsys);
      DeleteSubsystem(subsys);
      if faults == NoFaults {
        FreedExactly(old(Value()), Value(), subsys);
      }
    }
  }

  lemma AllCleared(t: Table, t': Table, rows: seq<Entry>, subsys: int, faults: set<int>)
    requires Within(t', t)
    requires forall id :: id in t && t[id].subsys == Some(subsys) ==> Entry(id, t[id]) in rows
    requires forall k :: 0 <= k < |rows| && rows[k].id in t' ==> rows[k].id in faults
    ensures Cleared(t', subsys, faults)
  {
    forall id | id in t' && t'[id].subsys == Some(subsys) ensures id in faults {
      var k :| 0 <= k < |rows| && rows[k] == Entry(id, t[id]);
    }
  }
}
