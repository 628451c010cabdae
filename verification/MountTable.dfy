/**
 Questions the node asks of the mount table: which mount is effective at a path, what
 lies at the end of a chain of bind mounts, and which other paths show the same mount.
 */
module MountTable {
  import opened Basics
  import opened PathText

  // a row of the mount table, with the root and the device number that the mount information adds
  datatype MountPoint = MountPoint(path: string, device: string, fsType: string, root: string, number: string)

  // ---------- the effective mount: the last one at a path ----------

  // a mount at the place that no later one covers; `key` names the place of a path
  predicate IsLast(mounts: seq<MountPoint>, key: string -> string, place: string, i: int) {
    && 0 <= i < |mounts| && key(mounts[i].path) == place
    && forall j :: i < j < |mounts| ==> key(mounts[j].path) != place
  }

  function LastAt(mounts: seq<MountPoint>, key: string -> string, place: string): (r: Option<MountPoint>)
    ensures r.Some? ==> r.value in mounts && exists i :: IsLast(mounts, key, place, i) && mounts[i] == r.value
    ensures r.None? ==> forall m :: m in mounts ==> key(m.path) != place
  {
    if mounts == [] then None
    else
      var init, last := mounts[..|mounts| - 1], mounts[|mounts| - 1];
      if key(last.path) == place then
        assert IsLast(mounts, key, place, |mounts| - 1);
        Some(last)
      else
        var r := LastAt(init, key, place);
        assert forall i :: IsLast(init, key, place, i) ==> IsLast(mounts, key, place, i);
        r
  }

  // one more mount
  lemma LastStep(mounts: seq<MountPoint>, key: string -> string, place: string, i: nat)
    requires i < |mounts|
    ensures LastAt(mounts[..i + 1], key, place) ==
            if key(mounts[i].path) == place then Some(mounts[i]) else LastAt(mounts[..i], key, place)
  {
    assert mounts[..i + 1][..i] == mounts[..i];
  }

  function EffectiveMount(mounts: seq<MountPoint>, path: string): (r: Option<MountPoint>)
    ensures r.Some? ==> r.value in mounts && Clean(r.value.path) == Clean(path)
    ensures r.Some? ==> exists i :: IsLast(mounts, Clean, Clean(path), i) && mounts[i] == r.value
    ensures r.None? && path != "" ==> forall m :: m in mounts ==> Clean(m.path) != Clean(path)
  {
    if path == "" then None else LastAt(mounts, Clean, Clean(path))
  }

  method FindEffectiveMount(mounts: seq<MountPoint>, path: string) returns (found: Option<MountPoint>)
    ensures found == EffectiveMount(mounts, path)
  {
    found := None;
    if path == "" {
      return;
    }
    var target := Clean(path);
    for i := 0 to |mounts|
      invariant found == EffectiveMount(mounts[..i], path)
    {
      LastStep(mounts, Clean, target, i);
      if Clean(mounts[i].path) == target {
        found := Some(mounts[i]);
      }
    }
    assert mounts[..|mounts|] == mounts;
  }

  // ---------- chains of bind mounts ----------

  // repeated application of a partial function
  function Iterate(next: string -> Option<string>, x: string, n: nat): Option<string>
    decreases n
  {
    if n == 0 then Some(x) else if next(x).None? then None else Iterate(next, next(x).value, n - 1)
  }

  ghost predicate NeverEnds(next: string -> Option<string>, x: string) {
    forall n: nat :: Iterate(next, x, n).Some?
  }

  ghost predicate EndsAt(next: string -> Option<string>, x: string, n: nat) {
    Iterate(next, x, n).Some? && next(Iterate(next, x, n).value).None?
  }

  lemma {:induction false} IterateSplit(next: string -> Option<string>, x: string, a: nat, b: nat)
    ensures var mid := Iterate(next, x, a);
            Iterate(next, x, a + b) == if mid.Some? then Iterate(next, mid.value, b) else None
    decreases a
  {
    if a > 0 && next(x).Some? {
      IterateSplit(next, next(x).value, a - 1, b);
    }
  }

  lemma EndIsFinal(next: string -> Option<string>, x: string, n: nat, k: nat)
    requires EndsAt(next, x, n) && k > n
    ensures Iterate(next, x, k).None?
  {
    IterateSplit(next, x, n, k - n);
  }

  /** A sequence in which two elements have the same successor never ends. */
  lemma {:induction false} ReturnNeverEnds(next: string -> Option<string>, x: string, j: nat, n: nat, k: nat)
    requires j < n && Iterate(next, x, n).Some? && Iterate(next, x, j).Some?
    requires next(Iterate(next, x, n).value) == next(Iterate(next, x, j).value)
    ensures Iterate(next, x, k).Some?
    decreases k
  {
    if k <= n {
      IterateSplit(next, x, k, n - k);
    } else {
      IterateSplit(next, x, n, k - n);
      IterateSplit(next, x, j, k - n);
      ReturnNeverEnds(next, x, j, n, k - (n - j));
    }
  }

  /** A sequence that comes back to its first element never ends. */
  lemma {:induction false} PeriodNeverEnds(next: string -> Option<string>, x: string, n: nat, k: nat)
    requires Iterate(next, x, n).Some? && next(Iterate(next, x, n).value) == Some(x)
    ensures Iterate(next, x, k).Some?
    decreases k
  {
    if k <= n {
      IterateSplit(next, x, k, n - k);
    } else {
      IterateSplit(next, x, n, k - n);
      PeriodNeverEnds(next, x, n, k - n - 1);
    }
  }

  // Where a source leads: `key` names the place a source denotes, if it denotes one, and
  // `table` holds the mount that is effective at each place.
  type Places = string -> Option<string>
  type Table = map<string, MountPoint>

  function Cover(key: Places, table: Table, source: string): Option<MountPoint> {
    if key(source).Some? && key(source).value in table then Some(table[key(source).value]) else None
  }

  function Hop(key: Places, table: Table): string -> Option<string> {
    source => match Cover(key, table, source) case None => None case Some(m) => Some(m.device)
  }

  function NextType(m: MountPoint, fsType: string): string {
    if m.fsType != "" then m.fsType else fsType
  }

  // the filesystem type known after n hops: the last one that is not empty
  function TypeAfter(key: Places, table: Table, source: string, fsType: string, n: nat): string
    decreases n
  {
    var m := Cover(key, table, source);
    if n == 0 || m.None? then fsType else TypeAfter(key, table, m.value.device, NextType(m.value, fsType), n - 1)
  }

  // the type of the mount that the n-th source denotes, if there is one
  function TypeAt(key: Places, table: Table, source: string, n: nat): string {
    match Iterate(Hop(key, table), source, n)
    case None => ""
    case Some(c) => if Cover(key, table, c).Some? then Cover(key, table, c).value.fsType else ""
  }

  /** The type after n hops is the last one on the way that is not empty. */
  lemma {:induction false} TypeIsLast(key: Places, table: Table, source: string, fsType: string, n: nat)
    returns (k: nat)
    ensures k <= n && forall j :: k <= j < n ==> TypeAt(key, table, source, j) == ""
    ensures k > 0 ==> TypeAt(key, table, source, k - 1) != ""
    ensures TypeAfter(key, table, source, fsType, n) == if k == 0 then fsType else TypeAt(key, table, source, k - 1)
    decreases n
  {
    k := 0;
    var m := Cover(key, table, source);
    if n > 0 && m.Some? {
      var rest := TypeIsLast(key, table, m.value.device, NextType(m.value, fsType), n - 1);
      k := if rest > 0 then rest + 1 else if m.value.fsType != "" then 1 else 0;
      forall j | 0 < j < n
        ensures TypeAt(key, table, source, j) == TypeAt(key, table, m.value.device, j - 1)
      {
        TypeShift(key, table, source, j - 1);
      }
    }
  }

  lemma TypeShift(key: Places, table: Table, source: string, j: nat)
    requires Cover(key, table, source).Some?
    ensures TypeAt(key, table, source, 0) == Cover(key, table, source).value.fsType
    ensures TypeAt(key, table, source, j + 1) == TypeAt(key, table, Cover(key, table, source).value.device, j)
  {
  }

  predicate SamePlace(key: Places, earlier: Option<string>, place: string) {
    earlier.Some? && key(earlier.value) == Some(place)
  }

  // the n-th source denotes a place that was seen before: in `seen`, or by an earlier source
  ghost predicate RevisitsAt(key: Places, table: Table, source: string, seen: set<string>, n: nat) {
    var c := Iterate(Hop(key, table), source, n);
    c.Some? && key(c.value).Some? &&
    (key(c.value).value in seen ||
     exists j: nat :: j < n && SamePlace(key, Iterate(Hop(key, table), source, j), key(c.value).value))
  }

  datatype Source = Source(source: string, fsType: string)

  function ResolveFrom(key: Places, table: Table, source: string, fsType: string, seen: set<string>): Result<Source>
    decreases table.Keys - seen
  {
    if key(source).None? then Ok(Source(source, fsType))
    else if key(source).value in seen then Err
    else if key(source).value !in table then Ok(Source(source, fsType))
    else
      var m := table[key(source).value];
      assert key(source).value in table.Keys - seen;
      ResolveFrom(key, table, m.device, NextType(m, fsType), seen + {key(source).value})
  }

  lemma {:induction false} ResolveEnds(key: Places, table: Table, source: string, fsType: string, seen: set<string>)
    returns (n: nat)
    requires ResolveFrom(key, table, source, fsType, seen).Ok?
    ensures EndsAt(Hop(key, table), source, n)
    ensures ResolveFrom(key, table, source, fsType, seen).value ==
            Source(Iterate(Hop(key, table), source, n).value, TypeAfter(key, table, source, fsType, n))
    decreases table.Keys - seen
  {
    n := 0;
    if Cover(key, table, source).Some? {
      var m := table[key(source).value];
      assert key(source).value in table.Keys - seen;
      var k := ResolveEnds(key, table, m.device, NextType(m, fsType), seen + {key(source).value});
      n := k + 1;
    }
  }

  lemma {:induction false} ResolveBlame(key: Places, table: Table, source: string, fsType: string, seen: set<string>)
    returns (n: nat)
    requires ResolveFrom(key, table, source, fsType, seen).Err?
    ensures RevisitsAt(key, table, source, seen, n)
    decreases table.Keys - seen
  {
    n := 0;
    var place := key(source).value;
    if place !in seen {
      var m := table[place];
      assert place in table.Keys - seen;
      var k := ResolveBlame(key, table, m.device, NextType(m, fsType), seen + {place});
      n := k + 1;
      var next := Hop(key, table);
      var c := Iterate(next, m.device, k).value;
      assert Iterate(next, source, n) == Some(c);
      if key(c) == Some(place) {
        assert SamePlace(key, Iterate(next, source, 0), place);
      } else if key(c).value !in seen {
        var j: nat :| j < k && SamePlace(key, Iterate(next, m.device, j), key(c).value);
        assert Iterate(next, source, j + 1) == Iterate(next, m.device, j);
      }
    }
  }

  lemma RevisitNeverEnds(key: Places, table: Table, place: string, n: nat)
    requires place in table && RevisitsAt(key, table, table[place].device, {place}, n)
    ensures NeverEnds(Hop(key, table), table[place].device)
  {
    var next, first := Hop(key, table), table[place].device;
    var s := Iterate(next, first, n).value;
    if key(s) == Some(place) {
      forall k: nat ensures Iterate(next, first, k).Some? {
        PeriodNeverEnds(next, first, n, k);
      }
    } else {
      var j: nat :| j < n && SamePlace(key, Iterate(next, first, j), key(s).value);
      forall k: nat ensures Iterate(next, first, k).Some? {
        ReturnNeverEnds(next, first, j, n, k);
      }
    }
  }

  /**
   Starting from the mount that is effective at a place, resolution fails exactly when following
   sources never ends; otherwise it returns the end of the chain, which no mount covers.
   */
  lemma ResolveIsExact(key: Places, table: Table, place: string)
    requires place in table
    ensures var entry, next := table[place], Hop(key, table);
            var r := ResolveFrom(key, table, entry.device, entry.fsType, {place});
            && (r.Err? <==> NeverEnds(next, entry.device))
            && (r.Ok? ==> exists n: nat :: (
                  && EndsAt(next, entry.device, n)
                  && r.value == Source(Iterate(next, entry.device, n).value,
                                       TypeAfter(key, table, entry.device, entry.fsType, n))))
  {
    var entry := table[place];
    if ResolveFrom(key, table, entry.device, entry.fsType, {place}).Ok? {
      var n := ResolveEnds(key, table, entry.device, entry.fsType, {place});
      EndIsFinal(Hop(key, table), entry.device, n, n + 1);
    } else {
      var n := ResolveBlame(key, table, entry.device, entry.fsType, {place});
      RevisitNeverEnds(key, table, place, n);
    }
  }

  // ---------- the mount table as places ----------

  // an absolute source denotes its cleaned path
  function Place(source: string): Option<string> {
    if IsAbs(source) then Some(Clean(source)) else None
  }

  // the effective mount of every cleaned path: later mounts replace earlier ones
  function TableOf(mounts: seq<MountPoint>): Table {
    if mounts == [] then map[]
    else
      var last := mounts[|mounts| - 1];
      TableOf(mounts[..|mounts| - 1])[Clean(last.path) := last]
  }

  /** Looking a path up in the list, last match first, is looking its cleaned form up in the table. */
  lemma {:induction false} EffectiveInTable(mounts: seq<MountPoint>, path: string)
    requires path != ""
    ensures var c := Clean(path);
            EffectiveMount(mounts, path) == if c in TableOf(mounts) then Some(TableOf(mounts)[c]) else None
  {
    if mounts != [] {
      EffectiveInTable(mounts[..|mounts| - 1], path);
      LastStep(mounts, Clean, Clean(path), |mounts| - 1);
      assert mounts[..|mounts|] == mounts;
    }
  }

  function Resolve(mounts: seq<MountPoint>, entry: MountPoint): Result<Source> {
    ResolveFrom(Place, TableOf(mounts), entry.device, entry.fsType, {Clean(entry.path)})
  }

  /** resolveMountSource on an effective mount: an error exactly for a chain of sources without end. */
  lemma ResolveFailsOnLoops(mounts: seq<MountPoint>, entry: MountPoint)
    requires EffectiveMount(mounts, entry.path) == Some(entry)
    ensures Resolve(mounts, entry).Err? <==> NeverEnds(Hop(Place, TableOf(mounts)), entry.device)
    ensures Resolve(mounts, entry).Ok? ==>
              var end := Resolve(mounts, entry).value.source;
              !IsAbs(end) || EffectiveMount(mounts, Clean(end)).None?
  {
    EffectiveInTable(mounts, entry.path);
    ResolveIsExact(Place, TableOf(mounts), Clean(entry.path));
    if Resolve(mounts, entry).Ok? {
      var end := Resolve(mounts, entry).value.source;
      if IsAbs(end) {
        CleanIdempotent(end);
        EffectiveInTable(mounts, Clean(end));
      }
    }
  }

  /** resolveMountSource; a nil entry is an error. */
  method ResolveMountSource(mounts: seq<MountPoint>, entry: Option<MountPoint>) returns (r: Result<Source>)
    ensures r == if entry.None? then Err else Resolve(mounts, entry.value)
  {
    if entry.None? {
      return Err;
    }
    var source, fsType := entry.value.device, entry.value.fsType;
    var seen := {Clean(entry.value.path)};
    ghost var table := TableOf(mounts);
    while IsAbs(source)
      invariant Resolve(mounts, entry.value) == ResolveFrom(Place, table, source, fsType, seen)
      decreases table.Keys - seen
    {
      var cleanSource := Clean(source);
      if cleanSource in seen {
        return Err;
      }
      var parent := FindEffectiveMount(mounts, cleanSource);
      CleanIdempotent(source);
      EffectiveInTable(mounts, cleanSource);
      if parent.None? {
        break;
      }
      assert cleanSource in table.Keys - seen;
      seen := seen + {cleanSource};
      source := parent.value.device;
      if parent.value.fsType != "" {
        fsType := parent.value.fsType;
      }
    }
    r := Ok(Source(source, fsType));
  }

  // ---------- host mirrors and references ----------

  // canonicalHostMountPath: a path strictly below /host stands for the path on the host
  function Canonical(path: string): string {
    var clean := Clean(path);
    if HasPrefix(clean, "/host/") then clean[|"/host"|..] else clean
  }

  // an absolute path that /host shows a second time: not the root, and not below /host itself
  predicate Mirrored(p: string) { IsAbs(p) && Clean(p) != "/" && !HasPrefix(Clean(p), "/host/") }

  // going up past /host forgets it, and until then it stays in front
  lemma {:induction false} KeptBelow(top: string, kept: seq<string>, cs: seq<string>)
    requires Normal([top] + kept, true)
    requires NoSlash(cs)
    ensures var r := KeepAll([top] + kept, cs, true);
            r == [top] + KeepAll(kept, cs, true) || r == KeepAll(kept, cs, true)
    decreases |cs|
  {
    if cs != [] {
      var c := cs[0];
      assert forall i :: 0 <= i < |kept| ==> kept[i] == ([top] + kept)[i + 1];
      var kept' := Keep(kept, c, true);
      if c == ".." && kept == [] {
        assert Keep([top] + kept, c, true) == kept';
      } else {
        assert Keep([top] + kept, c, true) == [top] + kept';
        KeptBelow(top, kept', cs[1..]);
      }
    }
  }

  lemma KeptFromRoot(rest: string)
    ensures KeepAll([], Split("/" + rest), true) == KeepAll([], Split(rest), true)
    ensures KeepAll([], Split("/host/" + rest), true) == KeepAll(["host"], Split(rest), true)
  {
    var cs := Split(rest);
    assert "/" + rest == "" + "/" + rest && "/host/" + rest == "" + "/" + ("host" + "/" + rest);
    SplitAppend("", rest);
    SplitAppend("", "host" + "/" + rest);
    SplitAppend("host", rest);
    SplitPlain("");
    SplitPlain("host");
    KeepFirst("", cs);
    KeepFirst("", ["host"] + cs);
    KeepFirst("host", cs);
    assert Keep([], "host", true) == ["host"];
  }

  lemma KeepFirst(c: string, cs: seq<string>)
    ensures KeepAll([], [c] + cs, true) == KeepAll(Keep([], c, true), cs, true)
  {
    assert ([c] + cs)[1..] == cs;
  }

  lemma TextBelowHost(kept: seq<string>)
    requires Normal(kept, true) && kept != []
    ensures Text(["host"] + kept, true) == "/host" + Text(kept, true) && Text(kept, true) != "/"
  {
    NamesAreNotRoots(kept, true);
    assert (["host"] + kept)[1..] == kept;
    assert Join(["host"] + kept) == "host" + "/" + Join(kept);
    assert "/" + ("host" + "/" + Join(kept)) == "/host" + ("/" + Join(kept));
    assert |Text(kept, true)| > 1;
  }

  lemma CleanBelowHost(p: string)
    requires IsAbs(p)
    ensures || Clean("/host" + p) == Clean(p)
            || Clean("/host" + p) == if Clean(p) == "/" then "/host" else "/host" + Clean(p)
  {
    var rest := p[1..];
    assert p == "/" + rest && "/host" + p == "/host/" + rest;
    KeptFromRoot(rest);
    SplitHasNoSlash(rest);
    assert ["host"] + [] == ["host"];
    KeptBelow("host", [], Split(rest));
    var kept := KeepAll([], Split(rest), true);
    KeepAllNormal([], Split(rest), true);
    if kept != [] {
      TextBelowHost(kept);
    } else {
      assert ["host"] + kept == ["host"];
    }
  }

  /** The host's view of a path stands for the path itself. */
  lemma MirrorIsFolded(p: string)
    requires Mirrored(p)
    ensures Canonical("/host" + p) == Canonical(p) == Clean(p)
  {
    CleanBelowHost(p);
    CleanIdempotent(p);
  }

  /** Of a cleaned path the mirror is folded in exactly when it is neither the root nor below /host. */
  lemma MirrorIsFoldedExactly(p: string)
    requires IsAbs(p) && Clean(p) == p
    ensures Canonical("/host" + p) == Canonical(p) <==> Mirrored(p)
  {
    if Mirrored(p) {
      MirrorIsFolded(p);
    } else {
      CleanOfHost(p);
    }
  }

  lemma CleanOfHost(p: string)
    requires IsAbs(p) && Clean(p) == p
    ensures Clean("/host" + p) == if p == "/" then "/host" else "/host" + p
  {
    SplitHasNoSlash(p);
    var kept := KeepAll([], Split(p), true);
    KeepAllNormal([], Split(p), true);
    RootedIsClean(["host"] + kept);
    if kept != [] {
      TextBelowHost(kept);
    } else {
      assert ["host"] + kept == ["host"];
      CleanSteps("/host", "x");
    }
  }

  function EffectiveCanonicalMount(mounts: seq<MountPoint>, path: string): (r: Option<MountPoint>)
    ensures r.Some? ==> r.value in mounts && Canonical(r.value.path) == Canonical(path)
    ensures r.Some? ==> exists i :: IsLast(mounts, Canonical, Canonical(path), i) && mounts[i] == r.value
    ensures r.None? ==> forall m :: m in mounts ==> Canonical(m.path) != Canonical(path)
  {
    LastAt(mounts, Canonical, Canonical(path))
  }

  /** externalMountReferences: the other places a mount is visible, host mirrors folded in, each once, in order. */
  method ExternalMountReferences(mountPath: string, refs: seq<string>) returns (external: seq<string>)
    ensures Increasing(external)
    ensures forall p :: p in external <==> p != Canonical(mountPath) && exists ref :: ref in refs && Canonical(ref) == p
    ensures Mirrored(mountPath) && (forall ref :: ref in refs ==> ref == mountPath || ref == "/host" + mountPath) ==>
              external == []
  {
    var self := Canonical(mountPath);
    var seen: set<string> := {};
    var list: seq<string> := [];
    for i := 0 to |refs|
      invariant seen == Others(self, refs[..i]) && forall p :: p in list <==> p in seen
      invariant forall a, b :: 0 <= a < b < |list| ==> list[a] != list[b]
    {
      var ref := Canonical(refs[i]);
      OthersStep(self, refs, i);
      if ref != self && ref !in seen {
        seen := seen + {ref};
        list := list + [ref];
      }
    }
    assert refs[..|refs|] == refs;
    external := Sort(list);
    SortedSet(list, seen);
    if Mirrored(mountPath) { MirrorIsFolded(mountPath); }
    if external != [] { assert external[0] in external; }
  }

  lemma SortedSet(list: seq<string>, members: set<string>)
    requires forall p :: p in list <==> p in members
    requires forall a, b :: 0 <= a < b < |list| ==> list[a] != list[b]
    ensures Increasing(Sort(list)) && forall p :: p in Sort(list) <==> p in members
  {
    SortDistinct(list);
    forall p ensures p in Sort(list) <==> p in list { SortMembers(list, p); }
  }

  function Others(self: string, refs: seq<string>): set<string> {
    set ref | ref in refs && Canonical(ref) != self :: Canonical(ref)
  }

  lemma OthersStep(self: string, refs: seq<string>, i: nat)
    requires i < |refs|
    ensures var c := Canonical(refs[i]);
            Others(self, refs[..i + 1]) == Others(self, refs[..i]) + if c != self then {c} else {}
  {
    assert refs[..i + 1] == refs[..i] + [refs[i]];
    assert forall r :: r in refs[..i + 1] <==> r in refs[..i] || r == refs[i];
  }

  lemma SortDistinct(xs: seq<string>)
    requires forall a, b :: 0 <= a < b < |xs| ==> xs[a] != xs[b]
    ensures Increasing(Sort(xs))
  {
    SortSorts(xs);
    var r := Sort(xs);
    forall i, j | 0 <= i < j < |r| ensures Less(r[i], r[j]) {
      if r[i] == r[j] {
        TwiceInMultiset(r, i, j);
        OnceInMultiset(xs, r[i]);
      }
    }
  }

  lemma TwiceInMultiset(xs: seq<string>, i: nat, j: nat)
    requires i < j < |xs| && xs[i] == xs[j]
    ensures multiset(xs)[xs[i]] >= 2
  {
    assert xs == xs[..j] + xs[j..];
    assert xs[..j][i] in multiset(xs[..j]) && xs[j..][0] in multiset(xs[j..]);
  }

  lemma {:induction false} OnceInMultiset(xs: seq<string>, x: string)
    requires forall a, b :: 0 <= a < b < |xs| ==> xs[a] != xs[b]
    ensures multiset(xs)[x] <= 1
  {
    if xs != [] {
      OnceInMultiset(xs[1..], x);
      assert xs == [xs[0]] + xs[1..];
      if x == xs[0] { assert x !in xs[1..]; assert x !in multiset(xs[1..]); }
    }
  }
}
