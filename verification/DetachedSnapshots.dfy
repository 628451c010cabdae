/**
 Detached snapshots: independent datasets beneath a configured parent, marked by a user
 property and created by a one-time replication from a temporary snapshot of the source.
 Every call to the storage server may fail, and one that fails may still have had its effect.
 */
module DetachedSnapshots {
  import opened Basics
  import opened PathText
  import opened DetachedPaths

  // a dataset, with its marker property
  datatype Entry = Entry(path: string, marked: bool)

  datatype Info = Info(id: string, source: string, name: string)

  // ---------- listing ----------

  // a path below the parent: volume ID and snapshot name around its last slash
  function InfoOf(relative: string): Option<Info> {
    var cut := CutLast(relative);
    if cut.None? || cut.value.0 == "" || cut.value.1 == "" then None
    else Some(Info(cut.value.0 + "/" + cut.value.1, cut.value.0, cut.value.1))
  }

  function Prefix(parent: string, source: string): string {
    if source == "" then parent + "/" else parent + "/" + source + "/"
  }

  // what listDetachedSnapshots makes of one dataset; an empty `source` selects every volume
  function Listed(parent: string, source: string, e: Entry): Option<Info> {
    if !e.marked || !HasPrefix(e.path, Prefix(parent, source)) then None
    else
      var i := InfoOf(BelowParent(parent, source, e.path));
      if i.Some? && source != "" && i.value.source != source then None else i
  }

  function BelowParent(parent: string, source: string, path: string): string
    requires HasPrefix(path, Prefix(parent, source))
  {
    path[|parent| + 1..]
  }

  lemma InfoOfSplits(relative: string)
    requires InfoOf(relative).Some?
    ensures var i := InfoOf(relative).value; i.id == relative == i.source + "/" + i.name && '/' !in i.name
  {
    CutLastJoins(relative);
  }

  lemma InfoOfJoined(source: string, name: string)
    requires source != "" && name != "" && '/' !in name
    ensures InfoOf(source + "/" + name) == Some(Info(source + "/" + name, source, name))
  {
    CutLastAt(source, name);
  }

  lemma PrefixOfJoined(parent: string, source: string, rest: string)
    ensures HasPrefix(parent + "/" + source + "/" + rest, Prefix(parent, source))
    ensures HasPrefix(parent + "/" + rest, Prefix(parent, ""))
  {
    assert parent + "/" + source + "/" + rest == (parent + "/" + source + "/") + rest;
    assert parent + "/" + rest == (parent + "/") + rest;
  }

  lemma BelowParentIs(parent: string, source: string, path: string)
    requires HasPrefix(path, Prefix(parent, source))
    ensures path == parent + "/" + BelowParent(parent, source, path)
    ensures HasPrefix(path, Prefix(parent, ""))
  {
    assert Prefix(parent, source)[..|parent| + 1] == parent + "/";
    assert path[..|parent| + 1] == Prefix(parent, source)[..|parent| + 1];
  }

  /** Listing recovers the volume and the name of every marked detached snapshot, and the filter selects its volume. */
  lemma ListingRecovers(parent: string, id: string, filter: string)
    requires DatasetOf(parent, id).Ok?
    ensures var (source, name) := Parts(id).value;
            Listed(parent, filter, Entry(DatasetOf(parent, id).value, true)) ==
            if filter == "" || filter == source then Some(Info(id, source, name)) else None
  {
    var path := DatasetOf(parent, id).value;
    var (source, name) := Parts(id).value;
    PartsByComponents(id);
    InfoOfJoined(source, name);
    assert parent + "/" + id == parent + "/" + source + "/" + name;
    PrefixOfJoined(parent, source, name);
    PrefixOfJoined(parent, "", id);
    if HasPrefix(path, Prefix(parent, filter)) {
      assert BelowParent(parent, filter, path) == id;
    }
  }

  /** Whatever is listed is a marked dataset at `<parent>/<id>`, and its ID splits at its last slash. */
  lemma ListedIsBeneath(parent: string, filter: string, e: Entry)
    requires Listed(parent, filter, e).Some?
    ensures var i := Listed(parent, filter, e).value;
            && e.marked && e.path == parent + "/" + i.id && i.id == i.source + "/" + i.name && '/' !in i.name
            && (filter != "" ==> i.source == filter)
            && Listed(parent, "", e) == Some(i)
  {
    BelowParentIs(parent, filter, e.path);
    InfoOfSplits(BelowParent(parent, filter, e.path));
  }

  function ListAll(parent: string, source: string, entries: seq<Entry>): seq<Info> {
    if entries == [] then []
    else
      var last := Listed(parent, source, entries[|entries| - 1]);
      ListAll(parent, source, entries[..|entries| - 1]) + if last.Some? then [last.value] else []
  }

  lemma {:induction false} ListAllMembers(parent: string, source: string, entries: seq<Entry>, i: Info)
    ensures i in ListAll(parent, source, entries) <==>
            exists e :: e in entries && Listed(parent, source, e) == Some(i)
  {
    if entries != [] {
      var init, last := entries[..|entries| - 1], entries[|entries| - 1];
      assert entries == init + [last];
      ListAllMembers(parent, source, init, i);
    }
  }

  method ListDetached(parent: string, source: string, entries: seq<Entry>) returns (infos: seq<Info>)
    ensures infos == ListAll(parent, source, entries)
  {
    infos := [];
    for k := 0 to |entries|
      invariant infos == ListAll(parent, source, entries[..k])
    {
      assert entries[..k + 1][..k] == entries[..k];
      var i := Listed(parent, source, entries[k]);
      if i.Some? {
        infos := infos + [i.value];
      }
    }
    assert entries[..|entries|] == entries;
  }

  // ---------- the datasets of the server, and how operations change them ----------

  // dataset path -> carries the marker
  type Datasets = map<string, bool>

  predicate MarkedIn(d: Datasets, path: string) { path in d && d[path] }

  // no marked dataset beneath the parent is listed under this snapshot name
  ghost predicate NameIsFree(d: Datasets, parent: string, name: string) {
    forall p :: MarkedIn(d, p) && Listed(parent, "", Entry(p, true)).Some? ==>
                  Listed(parent, "", Entry(p, true)).value.name != name
  }

  // only unmarked datasets on the way to `target` appear, and nothing else changes
  ghost predicate Grown(d: Datasets, d': Datasets, target: string) {
    && (forall p :: p in d ==> p in d' && d'[p] == d[p])
    && (forall p :: p in d' && p !in d ==> !d'[p] && Under(target, p))
  }

  // as Grown, but `target` itself may have been marked
  ghost predicate GrownAndMarked(d: Datasets, d': Datasets, target: string) {
    && (forall p :: p in d ==> p in d' && (p != target ==> d'[p] == d[p]))
    && (forall p :: p in d' && p !in d ==> Under(target, p) && (p != target ==> !d'[p]))
  }

  // datasets beneath `root`, and no others, may be gone
  ghost predicate Shrunk(d: Datasets, d': Datasets, root: string) {
    && (forall p :: p in d' ==> p in d && d'[p] == d[p])
    && (forall p :: p in d && p !in d' ==> Under(p, root))
  }

  // What CreateSnapshot may do to the datasets, whichever of its calls fail. A name with a slash never
  // gets as far as the marker, since the temporary snapshot named after it cannot be created.
  ghost predicate CreateChange(d: Datasets, d': Datasets, parent: string, source: string, name: string) {
    var target := DatasetOf(parent, source + "/" + name);
    if target.Err? then d' == d
    else
      && GrownAndMarked(d, d', target.value)
      && (MarkedIn(d', target.value) && !MarkedIn(d, target.value) ==> NameIsFree(d, parent, name) && '/' !in name)
  }

  // what DeleteSnapshot may do to them for an ID that is not a ZFS snapshot
  ghost predicate DeleteChange(d: Datasets, d': Datasets, parent: string, id: string) {
    var target := DatasetOf(parent, id);
    d' == d || (target.Ok? && MarkedIn(d, target.value) && Shrunk(d, d', target.value))
  }

  // what everything else may do: volumes come and go, but nothing else writes the marker
  ghost predicate OtherChange(d: Datasets, d': Datasets) {
    forall p :: MarkedIn(d', p) ==> MarkedIn(d, p)
  }

  datatype Event = Created(source: string, name: string) | Deleted(id: string) | Other

  ghost predicate Change(d: Datasets, e: Event, d': Datasets, parent: string) {
    match e
    case Created(source, name) => CreateChange(d, d', parent, source, name)
    case Deleted(id) => DeleteChange(d, d', parent, id)
    case Other => OtherChange(d, d')
  }

  // two different marked datasets beneath the parent never carry the same snapshot name
  ghost predicate NamesUnique(d: Datasets, parent: string) {
    forall p, q :: MarkedIn(d, p) && MarkedIn(d, q) && p != q ==> !SameName(parent, p, q)
  }

  predicate SameName(parent: string, p: string, q: string) {
    var i, j := Listed(parent, "", Entry(p, true)), Listed(parent, "", Entry(q, true));
    i.Some? && j.Some? && i.value.name == j.value.name
  }

  lemma CreateKeepsNamesUnique(d: Datasets, d': Datasets, parent: string, source: string, name: string)
    requires NamesUnique(d, parent) && CreateChange(d, d', parent, source, name)
    ensures NamesUnique(d', parent)
  {
    var id := source + "/" + name;
    if DatasetOf(parent, id).Ok? {
      var target := DatasetOf(parent, id).value;
      if MarkedIn(d', target) && !MarkedIn(d, target) {
        ListingRecovers(parent, id, "");
        CutLastAt(source, name);
        assert Listed(parent, "", Entry(target, true)).value.name == name;
      }
      forall p, q | MarkedIn(d', p) && MarkedIn(d', q) && p != q ensures !SameName(parent, p, q) {
        assert p == target || MarkedIn(d, p);
        assert q == target || MarkedIn(d, q);
      }
    }
  }

  lemma ChangeKeepsNamesUnique(d: Datasets, e: Event, d': Datasets, parent: string)
    requires NamesUnique(d, parent) && Change(d, e, d', parent)
    ensures NamesUnique(d', parent)
  {
    match e
    case Created(source, name) => CreateKeepsNamesUnique(d, d', parent, source, name);
    case Deleted(id) => assert forall p :: MarkedIn(d', p) ==> MarkedIn(d, p);
    case Other =>
  }

  /**
   In every history that starts without two marked snapshots of one name, whatever names are
   asked for and whichever calls fail in between, two marked detached snapshots never share one.
   */
  lemma {:induction false} NamesStayUnique(states: seq<Datasets>, events: seq<Event>, parent: string, i: nat)
    requires |states| == |events| + 1 && i < |states| && NamesUnique(states[0], parent)
    requires forall k :: 0 <= k < |events| ==> Change(states[k], events[k], states[k + 1], parent)
    ensures NamesUnique(states[i], parent)
  {
    if i > 0 {
      NamesStayUnique(states, events, parent, i - 1);
      ChangeKeepsNamesUnique(states[i - 1], events[i - 1], states[i], parent);
    }
  }

  /** Deleting a detached snapshot, even halfway, removes nothing outside the parent, whatever the ID. */
  lemma DeleteStaysBeneathParent(d: Datasets, d': Datasets, parent: string, id: string, p: string)
    requires DeleteChange(d, d', parent, id) && p in d && p !in d'
    ensures StrictlyUnder(p, parent)
  {
    DatasetOfIsBeneath(parent, id, id);
    StrictlyUnderUnder(p, DatasetOf(parent, id).value, parent);
  }

  lemma StrictlyUnderUnder(a: string, b: string, c: string)
    requires Under(a, b) && StrictlyUnder(b, c)
    ensures StrictlyUnder(a, c)
  {
  }
}
