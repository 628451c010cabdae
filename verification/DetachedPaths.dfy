/**
 Dataset paths of detached snapshots: a detached snapshot of a volume is the dataset
 `<parent>/<volume ID>/<snapshot name>`, and its CSI ID is `<volume ID>/<snapshot name>`.
 */
module DetachedPaths {
  import opened Basics
  import opened PathText

  // ---------- overlap ----------

  // the white space that strings.TrimSpace removes
  predicate IsSpace(c: char) {
    || c == ' ' || ('\t' <= c <= '\r') || c == '\U{85}' || c == '\U{A0}' || c == '\U{1680}'
    || ('\U{2000}' <= c <= '\U{200A}') || c == '\U{2028}' || c == '\U{2029}' || c == '\U{202F}'
    || c == '\U{205F}' || c == '\U{3000}'
  }

  function TrimLeft(s: string): string {
    if s != "" && IsSpace(s[0]) then TrimLeft(s[1..]) else s
  }

  function TrimRight(s: string): string {
    if s != "" && IsSpace(s[|s| - 1]) then TrimRight(s[..|s| - 1]) else s
  }

  function TrimSpace(s: string): string { TrimRight(TrimLeft(s)) }

  // one trailing slash removed
  function TrimSlash(s: string): string { if HasSuffix(s, "/") then s[..|s| - 1] else s }

  function Trimmed(s: string): string { TrimSlash(TrimSpace(s)) }

  // datasetPathsOverlap
  predicate Overlap(first: string, second: string) {
    var a, b := Trimmed(first), Trimmed(second);
    a != "" && b != "" && (a == b || HasPrefix(a, b + "/") || HasPrefix(b, a + "/"))
  }

  // one dataset is the other or an ancestor of it
  predicate Related(a: string, b: string) { Split(a) <= Split(b) || Split(b) <= Split(a) }

  // the dataset `path` is `root` or lies in its subtree
  predicate Under(path: string, root: string) { Split(root) <= Split(path) }

  predicate StrictlyUnder(path: string, root: string) { Split(root) < Split(path) }

  lemma RelatedText(a: string, b: string)
    ensures Related(a, b) <==> a == b || HasPrefix(a, b + "/") || HasPrefix(b, a + "/")
  {
    PrefixIsComponentPrefix(a, b);
    PrefixIsComponentPrefix(b, a);
    if Split(a) == Split(b) { SplitInjective(a, b); }
  }

  /** The overlap test decides kinship of the trimmed paths, for any two strings. */
  lemma OverlapIsKinship(a: string, b: string)
    ensures Overlap(a, b) <==> Trimmed(a) != "" && Trimmed(b) != "" && Related(Trimmed(a), Trimmed(b))
  {
    RelatedText(Trimmed(a), Trimmed(b));
  }

  // validateDatasetPath
  predicate ValidPart(part: string) {
    part != "" && part != "." && part != ".." && '@' !in part
  }

  predicate ValidParts(parts: seq<string>) {
    forall i :: 0 <= i < |parts| ==> ValidPart(parts[i])
  }

  predicate ValidPath(path: string) {
    path != "" && !HasPrefix(path, "/") && !HasSuffix(path, "/") && ValidParts(Split(path))
  }

  // ---------- CSI IDs ----------

  // the text before and after the last slash
  function CutLast(s: string): Option<(string, string)> {
    if s == "" then None
    else
      match CutLast(s[1..])
      case Some(cut) => Some(([s[0]] + cut.0, cut.1))
      case None => if s[0] == '/' then Some(("", s[1..])) else None
  }

  lemma {:induction false} CutLastJoins(s: string)
    ensures CutLast(s).None? ==> '/' !in s
    ensures CutLast(s).Some? ==> var (a, b) := CutLast(s).value; s == a + "/" + b && '/' !in b
  {
    if s != "" {
      CutLastJoins(s[1..]);
      assert s == [s[0]] + s[1..];
      if CutLast(s[1..]).Some? {
        var (a, b) := CutLast(s[1..]).value;
        assert [s[0]] + (a + "/" + b) == ([s[0]] + a) + "/" + b;
      } else if s[0] == '/' {
        assert s == "" + "/" + s[1..];
      }
    }
  }

  lemma {:induction false} CutLastPlain(b: string)
    requires '/' !in b
    ensures CutLast(b).None?
  {
    if b != "" { CutLastPlain(b[1..]); }
  }

  lemma {:induction false} CutLastAt(a: string, b: string)
    requires '/' !in b
    ensures CutLast(a + "/" + b) == Some((a, b))
  {
    var s := a + "/" + b;
    if a == "" {
      assert s[0] == '/' && s[1..] == b;
      CutLastPlain(b);
    } else {
      CutLastAt(a[1..], b);
      assert s[0] == a[0] && s[1..] == a[1..] + "/" + b;
      assert a == [a[0]] + a[1..];
    }
  }

  lemma CutLastSplits(s: string)
    ensures CutLast(s).None? ==> Split(s) == [s]
    ensures CutLast(s).Some? ==> Split(s) == Split(CutLast(s).value.0) + [CutLast(s).value.1]
  {
    CutLastJoins(s);
    if CutLast(s).None? {
      SplitPlain(s);
    } else {
      var (a, b) := CutLast(s).value;
      SplitAppend(a, b);
      SplitPlain(b);
    }
  }

  // splitVolumeID: a valid path with a slash that is neither first nor last
  function SplitVolumeID(id: string): Result<(string, string)> {
    var parts := Split(id);
    if |parts| < 2 || parts[0] == "" || Join(parts[1..]) == "" then Err
    else if !ValidPath(id) then Err
    else Ok((parts[0], Join(parts[1..])))
  }

  lemma VolumeIDByParts(id: string)
    ensures SplitVolumeID(id).Ok? <==> ValidPath(id) && |Split(id)| >= 2
    ensures SplitVolumeID(id).Ok? ==> SplitVolumeID(id).value.0 + "/" + SplitVolumeID(id).value.1 == id
  {
    var parts := Split(id);
    if |parts| >= 2 {
      JoinSplit(id);
    }
  }

  // detachedSnapshotParts: everything before the last slash, and what follows it
  function Parts(id: string): Result<(string, string)> {
    if '@' in id || !ValidPath(id) then Err
    else
      var cut := CutLast(id);
      if cut.None? || cut.value.0 == "" || cut.value.1 == "" then Err
      else if SplitVolumeID(cut.value.0).Err? then Err
      else Ok(cut.value)
  }

  lemma {:induction false} JoinHasNo(s: string)
    requires forall i :: 0 <= i < |Split(s)| ==> '@' !in Split(s)[i]
    ensures '@' !in s
  {
    if s != "" {
      var r, t := Split(s[1..]), Split(s);
      assert s[0] == '/' ==> forall i :: 0 <= i < |r| ==> r[i] == t[i + 1];
      assert s[0] != '/' ==> t[0] == [s[0]] + r[0] && forall i :: 0 < i < |r| ==> r[i] == t[i];
      assert s[0] != '/' ==> s[0] == t[0][0];
      JoinHasNo(s[1..]);
    }
  }

  // the text around a slash is a valid path exactly when both sides are
  lemma ValidExtend(a: string, b: string)
    requires '/' !in b
    ensures ValidPath(a + "/" + b) <==> ValidPath(a) && ValidPart(b)
  {
    SplitAppend(a, b);
    SplitPlain(b);
    var s, ps := a + "/" + b, Split(a);
    assert Split(s) == ps + [b];
    assert Split(s)[|ps|] == b;
    assert ValidParts(Split(s)) <==> ValidParts(ps) && ValidPart(b) by {
      if ValidParts(Split(s)) {
        forall i | 0 <= i < |ps| ensures ValidPart(ps[i]) { assert Split(s)[i] == ps[i]; }
      }
    }
    if ValidParts(ps) && ValidPart(b) {
      ValidPartsMakePath(a);
      ValidPartsMakePath(s);
    }
  }

  lemma ValidPartsMakePath(s: string)
    requires ValidParts(Split(s))
    ensures ValidPath(s)
  {
    assert ValidPart(Split(s)[0]) && ValidPart(Split(s)[|Split(s)| - 1]);
    if HasSuffix(s, "/") { EndsEmpty(s); }
  }

  /** A path is valid exactly when it is a cleaned path below a root, without the root's slash and without "@". */
  lemma ValidPathIsClean(path: string)
    ensures ValidPath(path) <==> path != "" && '@' !in path && Clean("/" + path) == "/" + path
  {
    var parts := Split(path);
    SplitHasNoSlash(path);
    JoinSplit(path);
    if ValidPath(path) {
      JoinHasNo(path);
      RootedIsClean(parts);
    }
    if path != "" && '@' !in path && Clean("/" + path) == "/" + path {
      CleanKeeps("/" + path);
      var kept := KeepAll([], Split("/" + path), true);
      assert ("/" + path)[1..] == path && ("/" + Join(kept))[1..] == Join(kept);
      SplitJoin(kept);
      PartsHaveNo(path);
      ValidPartsMakePath(path);
    }
  }

  // a character of a component is one of the path
  lemma {:induction false} PartsHaveNo(path: string)
    requires '@' !in path
    ensures forall i :: 0 <= i < |Split(path)| ==> '@' !in Split(path)[i]
  {
    if path != "" { PartsHaveNo(path[1..]); }
  }

  lemma EndsEmpty(s: string)
    requires HasSuffix(s, "/")
    ensures Split(s)[|Split(s)| - 1] == ""
  {
    assert s == s[..|s| - 1] + "/" + "";
    SplitAppend(s[..|s| - 1], "");
  }

  /** A string is a detached snapshot ID exactly when it is a valid path of at least three components. */
  lemma PartsByComponents(id: string)
    ensures Parts(id).Ok? <==> ValidPath(id) && |Split(id)| >= 3
    ensures Parts(id).Ok? ==>
              var (source, name) := Parts(id).value;
              id == source + "/" + name && '/' !in name && SplitVolumeID(source).Ok? && ValidPart(name)
  {
    if ValidPath(id) {
      JoinHasNo(id);
      CutLastSplits(id);
      if CutLast(id).Some? { ValidCut(id); }
    }
  }

  lemma ValidCut(id: string)
    requires ValidPath(id) && CutLast(id).Some?
    ensures var (a, b) := CutLast(id).value;
            && a != "" && b != "" && id == a + "/" + b && '/' !in b && ValidPart(b)
            && (SplitVolumeID(a).Ok? <==> |Split(a)| >= 2)
  {
    CutLastJoins(id);
    var (a, b) := CutLast(id).value;
    ValidExtend(a, b);
    VolumeIDByParts(a);
  }

  /**
   Parsing inverts building exactly for valid volume IDs of at least two components and
   snapshot names that are one valid component.
   */
  lemma PartsRoundTrip(source: string, name: string)
    ensures Parts(source + "/" + name) == Ok((source, name)) <==>
            ValidPath(source) && |Split(source)| >= 2 && ValidPart(name) && '/' !in name
  {
    var id := source + "/" + name;
    PartsByComponents(id);
    VolumeIDByParts(source);
    if ValidPath(source) && |Split(source)| >= 2 && ValidPart(name) && '/' !in name {
      ValidExtend(source, name);
      SplitAppend(source, name);
      SplitPlain(name);
      CutLastAt(source, name);
    }
  }

  // detachedSnapshotDataset
  function DatasetOf(parent: string, id: string): Result<string> {
    if !ValidPath(parent) then Err
    else if Parts(id).Err? then Err
    else Ok(TrimSlash(parent) + "/" + id)
  }

  /** Every dataset a detached snapshot ID can denote lies strictly beneath the parent, and two IDs never share one. */
  lemma DatasetOfIsBeneath(parent: string, id: string, id': string)
    requires DatasetOf(parent, id).Ok?
    ensures var d := DatasetOf(parent, id).value;
            && Split(d) == Split(parent) + Split(id)
            && StrictlyUnder(d, parent)
            && (DatasetOf(parent, id') == Ok(d) ==> id' == id)
  {
    var d := DatasetOf(parent, id).value;
    SplitAppend(parent, id);
    assert Split(d) == Split(parent) + Split(id);
    assert Split(d)[..|Split(parent)|] == Split(parent);
    if DatasetOf(parent, id') == Ok(d) {
      assert d[|parent| + 1..] == id && (parent + "/" + id')[|parent| + 1..] == id';
    }
  }

  /** Removing the dataset of one ID with its subtree removes that of another exactly when the IDs are nested. */
  lemma DeletionReach(parent: string, id: string, id': string)
    requires DatasetOf(parent, id).Ok? && DatasetOf(parent, id').Ok?
    ensures Under(DatasetOf(parent, id').value, DatasetOf(parent, id).value) <==> Split(id) <= Split(id')
  {
    DatasetOfIsBeneath(parent, id, id);
    DatasetOfIsBeneath(parent, id', id');
    PrefixShift(Split(parent), Split(id), Split(id'));
  }

  /** So deleting any detached snapshot also deletes the snapshots of a volume named like it, such as `id/x`. */
  lemma DeletionReachesNested(parent: string, id: string)
    requires DatasetOf(parent, id).Ok?
    ensures var inner := id + "/" + "x";
            && DatasetOf(parent, inner).Ok? && inner != id
            && Under(DatasetOf(parent, inner).value, DatasetOf(parent, id).value)
  {
    var inner := id + "/" + "x";
    PartsByComponents(id);
    ValidExtend(id, "x");
    SplitAppend(id, "x");
    PartsByComponents(inner);
    assert |inner| != |id|;
    DeletionReach(parent, id, inner);
  }

  lemma PrefixShift<T>(p: seq<T>, a: seq<T>, b: seq<T>)
    ensures p + a <= p + b <==> a <= b
  {
    if p + a <= p + b {
      assert |a| <= |b|;
      forall i | 0 <= i < |a| ensures a[i] == b[i] {
        assert (p + a)[|p| + i] == (p + b)[|p| + i];
      }
    }
  }
}
