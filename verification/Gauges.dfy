/** The capacity and count gauges of provisioned volumes, kept up to date incrementally. */
module Gauges {

  datatype Labels = Labels(pool: string, protocol: string)

  datatype Volume = Volume(labels: Labels, capacity: int)

  type Gauge = map<Labels, int>

  // what the collector keeps: the recorded volumes and the two gauges
  datatype State = State(volumes: map<string, Volume>, capacity: Gauge, count: Gauge)

  const Empty := State(map[], map[], map[])

  function Read(g: Gauge, l: Labels): int { if l in g then g[l] else 0 }

  function Add(g: Gauge, l: Labels, amount: int): Gauge { g[l := Read(g, l) + amount] }

  function OrUnknown(text: string): string { if text == "" then "unknown" else text }

  function Recorded(pool: string, protocol: string, capacity: int): Volume {
    Volume(Labels(OrUnknown(pool), OrUnknown(protocol)), if capacity < 0 then 0 else capacity)
  }

  // the gauges without the volume of this ID, if it is recorded
  function Forget(s: State, id: string): State {
    if id !in s.volumes then s
    else
      var v := s.volumes[id];
      State(s.volumes - {id}, Add(s.capacity, v.labels, -v.capacity), Add(s.count, v.labels, -1))
  }

  function Record(s: State, id: string, v: Volume): State {
    var f := Forget(s, id);
    State(s.volumes[id := v], Add(f.capacity, v.labels, v.capacity), Add(f.count, v.labels, 1))
  }

  // ---------- what the gauges stand for ----------

  function Share(v: Volume, l: Labels): int { if v.labels == l then v.capacity else 0 }

  ghost function Total(volumes: map<string, Volume>, l: Labels): int {
    if volumes == map[] then 0
    else
      var id :| id in volumes;
      Share(volumes[id], l) + Total(volumes - {id}, l)
  }

  ghost function Members(volumes: map<string, Volume>, l: Labels): set<string> {
    set id | id in volumes && volumes[id].labels == l
  }

  lemma {:induction false} TotalWithout(volumes: map<string, Volume>, id: string, l: Labels)
    requires id in volumes
    ensures Total(volumes, l) == Share(volumes[id], l) + Total(volumes - {id}, l)
    decreases |volumes|
  {
    var first :| first in volumes && Total(volumes, l) == Share(volumes[first], l) + Total(volumes - {first}, l);
    if first != id {
      TotalWithout(volumes - {first}, id, l);
      TotalWithout(volumes - {id}, first, l);
      assert volumes - {first} - {id} == volumes - {id} - {first};
    }
  }

  lemma {:induction false} TotalNonNegative(volumes: map<string, Volume>, l: Labels)
    requires forall id :: id in volumes ==> volumes[id].capacity >= 0
    ensures Total(volumes, l) >= 0
    decreases |volumes|
  {
    if volumes != map[] {
      var id :| id in volumes;
      TotalWithout(volumes, id, l);
      TotalNonNegative(volumes - {id}, l);
    }
  }

  // the gauges of one label pair read what they stand for
  ghost predicate Reads(s: State, l: Labels) {
    Read(s.capacity, l) == Total(s.volumes, l) && Read(s.count, l) == |Members(s.volumes, l)|
  }

  ghost predicate Consistent(s: State) {
    && (forall id :: id in s.volumes ==> s.volumes[id].capacity >= 0)
    && (forall l :: Reads(s, l))
  }

  lemma ForgetReads(s: State, id: string, l: Labels)
    requires Reads(s, l) && id in s.volumes
    ensures Reads(Forget(s, id), l)
  {
    TotalWithout(s.volumes, id, l);
    var left := Members(s.volumes - {id}, l);
    assert left == if s.volumes[id].labels == l then Members(s.volumes, l) - {id} else Members(s.volumes, l);
  }

  lemma Inserted(before: map<string, Volume>, id: string, v: Volume, l: Labels)
    requires id !in before
    ensures var after := before[id := v];
            && Total(after, l) == Total(before, l) + Share(v, l)
            && |Members(after, l)| == |Members(before, l)| + if v.labels == l then 1 else 0
  {
    var after := before[id := v];
    TotalWithout(after, id, l);
    assert after - {id} == before;
    assert Members(after, l) == if v.labels == l then Members(before, l) + {id} else Members(before, l);
  }

  lemma RecordReads(s: State, id: string, v: Volume, l: Labels)
    requires Reads(Forget(s, id), l)
    ensures Reads(Record(s, id, v), l)
  {
    var before := Forget(s, id).volumes;
    Inserted(before, id, v, l);
    assert s.volumes[id := v] == before[id := v];
  }

  lemma ForgetKeeps(s: State, id: string)
    requires Consistent(s)
    ensures Consistent(Forget(s, id))
  {
    if id in s.volumes {
      forall l ensures Reads(Forget(s, id), l) { ForgetReads(s, id, l); }
    }
  }

  lemma RecordKeeps(s: State, id: string, v: Volume)
    requires Consistent(s) && v.capacity >= 0
    ensures Consistent(Record(s, id, v))
  {
    ForgetKeeps(s, id);
    forall l ensures Reads(Record(s, id, v), l) { RecordReads(s, id, v, l); }
  }

  // ---------- histories ----------

  datatype Update = Set(id: string, pool: string, protocol: string, capacity: int) | Remove(id: string)

  function After(updates: seq<Update>): State {
    if updates == [] then Empty
    else
      var s := After(updates[..|updates| - 1]);
      match updates[|updates| - 1]
      case Set(id, pool, protocol, capacity) => Record(s, id, Recorded(pool, protocol, capacity))
      case Remove(id) => Forget(s, id)
  }

  // what the updates leave recorded for one ID: its last update decides
  function LastOf(updates: seq<Update>, id: string): seq<Volume> {
    if updates == [] then []
    else
      var u := updates[|updates| - 1];
      if u.id != id then LastOf(updates[..|updates| - 1], id)
      else if u.Set? then [Recorded(u.pool, u.protocol, u.capacity)] else []
  }

  /**
   After any updates every gauge is the sum, and the number, of the volumes recorded under its
   labels, none is negative, and what is recorded for a volume is what its last update said.
   */
  lemma {:induction false} GaugesAreConserved(updates: seq<Update>, l: Labels, id: string)
    ensures var s := After(updates);
            && Consistent(s)
            && Read(s.capacity, l) == Total(s.volumes, l) >= 0
            && Read(s.count, l) == |Members(s.volumes, l)|
            && LastOf(updates, id) == if id in s.volumes then [s.volumes[id]] else []
  {
    if updates != [] {
      GaugesAreConserved(updates[..|updates| - 1], l, id);
      var s := After(updates[..|updates| - 1]);
      match updates[|updates| - 1]
      case Set(i, pool, protocol, capacity) => RecordKeeps(s, i, Recorded(pool, protocol, capacity));
      case Remove(i) => ForgetKeeps(s, i);
    }
    TotalNonNegative(After(updates).volumes, l);
    assert Reads(After(updates), l);
  }

  // ---------- the collector ----------

  class Metrics {
    var volumes: map<string, Volume>
    var capacityBytes: Gauge
    var volumeCount: Gauge

    function Value(): (s: State)
      reads this
    {
      State(volumes, capacityBytes, volumeCount)
    }

    ghost predicate Valid()
      reads this
    {
      Consistent(Value())
    }

    constructor ()
      ensures Value() == Empty && Valid()
    {
      volumes, capacityBytes, volumeCount := map[], map[], map[];
      assert forall l :: Members(map[], l) == {};
    }

    method SetProvisionedVolume(id: string, pool: string, protocol: string, capacity: int)
      requires Valid()
      modifies this
      ensures Valid() && Value() == Record(old(Value()), id, Recorded(pool, protocol, capacity))
      ensures id in volumes && volumes == old(volumes)[id := volumes[id]]
      ensures volumes[id].labels.pool == if pool == "" then "unknown" else pool
      ensures volumes[id].labels.protocol == if protocol == "" then "unknown" else protocol
      ensures volumes[id].capacity == if capacity > 0 then capacity else 0
    {
      var labels := Labels(OrUnknown(pool), OrUnknown(protocol));
      var bytes := if capacity < 0 then 0 else capacity;
      RecordKeeps(Value(), id, Volume(labels, bytes));
      if id in volumes {
        var previous := volumes[id];
        capacityBytes := Add(capacityBytes, previous.labels, -previous.capacity);
        volumeCount := Add(volumeCount, previous.labels, -1);
      }
      volumes := volumes[id := Volume(labels, bytes)];
      capacityBytes := Add(capacityBytes, labels, bytes);
      volumeCount := Add(volumeCount, labels, 1);
    }

    method RemoveProvisionedVolume(id: string)
      requires Valid()
      modifies this
      ensures Valid() && Value() == Forget(old(Value()), id)
      ensures volumes == old(volumes) - {id}
    {
      ForgetKeeps(Value(), id);
      if id !in volumes {
        return;
      }
      var previous := volumes[id];
      volumes := volumes - {id};
      capacityBytes := Add(capacityBytes, previous.labels, -previous.capacity);
      volumeCount := Add(volumeCount, previous.labels, -1);
    }
  }
}
