/**
 Whether volumes and detached snapshots stay apart: what the overlap test, which trims
 blanks and a slash before it compares, says about the subtrees of two datasets.
 */
module DetachedOverlap {
  import opened Basics
  import opened PathText
  import opened DetachedPaths

  // ---------- trimming ----------

  lemma {:induction false} TrimRightAppend(x: string, y: string)
    ensures TrimRight(x + y) == if TrimRight(y) != "" then x + TrimRight(y) else TrimRight(x)
    decreases |y|
  {
    if y == "" {
      assert x + y == x;
    } else {
      var s, init := x + y, y[..|y| - 1];
      assert s[|s| - 1] == y[|y| - 1] && s[..|s| - 1] == x + init;
      TrimRightAppend(x, init);
    }
  }

  lemma {:induction false} TrimLeftAppend(x: string, y: string)
    requires TrimLeft(x) != ""
    ensures TrimLeft(x + y) == TrimLeft(x) + y
  {
    if x != "" {
      assert (x + y)[0] == x[0];
      if IsSpace(x[0]) {
        assert (x + y)[1..] == x[1..] + y;
        TrimLeftAppend(x[1..], y);
      }
    }
  }

  // what stands in front of the text without its leading blanks
  lemma {:induction false} TrimLeftRest(s: string) returns (front: string)
    ensures s == front + TrimLeft(s)
  {
    front := "";
    if s != "" && IsSpace(s[0]) {
      var rest := TrimLeftRest(s[1..]);
      front := [s[0]] + rest;
      assert s == [s[0]] + s[1..];
    }
  }

  lemma {:induction false} TrimRightRest(s: string) returns (back: string)
    ensures s == TrimRight(s) + back
    ensures back != "" ==> IsSpace(back[0])
  {
    back := "";
    if s != "" && IsSpace(s[|s| - 1]) {
      var init, last := s[..|s| - 1], s[|s| - 1];
      var rest := TrimRightRest(init);
      back := rest + [last];
      assert s == init + [last];
    } else {
      assert s == s + "";
    }
  }

  lemma TrimRightSlash(s: string)
    ensures TrimRight(s + "/") == s + "/"
  {
    assert TrimRight("/") == "/";
    TrimRightAppend(s, "/");
  }

  // ---------- paths the test is blind to ----------

  // the last component ends in a blank, and has something in front of it
  predicate EndsInBlank(path: string) {
    var last := Split(path)[|Split(path)| - 1];
    TrimRight(last) != last && TrimRight(last) != ""
  }

  // the test misses what lies beneath this path
  predicate Blind(path: string) { Trimmed(path) == "" || EndsInBlank(path) }

  // the same seen from the end of the text
  lemma EndsInBlankText(path: string)
    ensures EndsInBlank(path) <==> TextEndsInBlank(path)
  {
    CutLastSplits(path);
    CutLastJoins(path);
    if CutLast(path).None? {
      assert "" + path == path;
      BlankEndOf("", path);
    } else {
      var (a, c) := CutLast(path).value;
      TrimRightSlash(a);
      BlankEndOf(a + "/", c);
    }
  }

  predicate TextEndsInBlank(s: string) {
    var t := TrimRight(s);
    t != s && t != "" && !HasSuffix(t, "/")
  }

  lemma BlankEndOf(front: string, c: string)
    requires front == "" || (HasSuffix(front, "/") && TrimRight(front) == front)
    requires '/' !in c
    ensures TextEndsInBlank(front + c) <==> TrimRight(c) != c && TrimRight(c) != ""
  {
    TrimRightAppend(front, c);
    NoSlashAtEnd(c, front);
    if TrimRight(c) != "" {
      assert front + TrimRight(c) == front + c ==> TrimRight(c) == (front + c)[|front|..];
      assert (front + c)[|front|..] == c;
    }
  }

  lemma NoSlashAtEnd(c: string, front: string)
    requires '/' !in c
    ensures TrimRight(c) != "" ==> !HasSuffix(front + TrimRight(c), "/")
  {
    var back := TrimRightRest(c);
    var t := TrimRight(c);
    if t != "" {
      assert t[|t| - 1] == c[|t| - 1];
      var s := front + t;
      assert s[|s| - 1..] == [t[|t| - 1]];
    }
  }

  // what is left of a path beneath `a`
  lemma TrimmedBeneath(a: string, rest: string)
    requires TrimLeft(a) != ""
    ensures var t := Trimmed(a + "/" + rest); t == TrimLeft(a) || HasPrefix(t, TrimLeft(a) + "/")
  {
    var x, y := TrimLeft(a) + "/", TrimRight(rest);
    assert a + "/" + rest == a + ("/" + rest);
    TrimLeftAppend(a, "/" + rest);
    assert TrimLeft(a + "/" + rest) == x + rest;
    TrimRightAppend(x, rest);
    TrimRightSlash(TrimLeft(a));
    if y == "" {
      assert x[..|x| - 1] == TrimLeft(a);
    } else {
      assert HasPrefix(x + y, x);
      assert (x + y)[..|x + y| - 1] == x + y[..|y| - 1];
    }
  }

  // trimming in two halves: blanks in front, then blanks and a slash behind
  lemma TrimmedByEnd(a: string)
    requires Trimmed(a) != "" && !HasSuffix(a, "/")
    ensures TrimLeft(a) != ""
    ensures EndsInBlank(a) ==> exists back :: TrimLeft(a) == Trimmed(a) + back && back != "" && IsSpace(back[0])
    ensures !EndsInBlank(a) ==> TrimLeft(a) == Trimmed(a) || HasPrefix(TrimLeft(a), Trimmed(a) + "/")
  {
    var l := TrimLeft(a);
    var front := TrimLeftRest(a);
    var back := TrimRightRest(l);
    TrimRightAppend(front, l);
    EndsInBlankText(a);
    assert TrimRight(a) == front + TrimRight(l);
    SuffixOfAppend(front, TrimRight(l));
    if back == "" {
      SuffixOfAppend(front, l);
      assert TrimRight(l) == l;
    } else if !EndsInBlank(a) {
      assert TrimRight(l) == Trimmed(a) + "/";
      assert HasPrefix(l, Trimmed(a) + "/");
    }
  }

  lemma SuffixOfAppend(front: string, t: string)
    requires t != ""
    ensures HasSuffix(front + t, "/") <==> HasSuffix(t, "/")
  {
    var s := front + t;
    assert s[|s| - 1] == t[|t| - 1];
    assert s[|s| - 1..] == [t[|t| - 1]] && t[|t| - 1..] == [t[|t| - 1]];
  }

  /**
   Of a dataset and one beneath it the test reports the overlap exactly unless it is blind
   to the outer one: trimmed to nothing, or with a blank at the end of its last component.
   */
  lemma OverlapOfNested(a: string, b: string)
    requires ValidPath(a) && StrictlyUnder(b, a)
    ensures Overlap(a, b) <==> !Blind(a)
  {
    PrefixIsComponentPrefix(a, b);
    var rest := b[|a + "/"|..];
    assert b == a + "/" + rest;
    if Trimmed(a) != "" {
      TrimmedByEnd(a);
      TrimmedBeneath(a, rest);
      if EndsInBlank(a) {
        var back :| TrimLeft(a) == Trimmed(a) + back && back != "" && IsSpace(back[0]);
        BlankBetween(Trimmed(b), TrimLeft(a), Trimmed(a), back);
        NoOverlap(a, b);
      } else {
        PrefixThrough(Trimmed(b), TrimLeft(a), Trimmed(a));
      }
    }
  }

  lemma BlankBetween(t: string, l: string, u: string, back: string)
    requires t == l || HasPrefix(t, l + "/")
    requires l == u + back && back != "" && IsSpace(back[0])
    ensures |t| > |u| && t[|u|] != '/'
  {
    assert l[|u|] == back[0];
    assert t != l ==> t[|u|] == t[..|l + "/"|][|u|];
  }

  lemma PrefixThrough(t: string, l: string, u: string)
    requires t == l || HasPrefix(t, l + "/")
    requires l == u || HasPrefix(l, u + "/")
    ensures t == u || HasPrefix(t, u + "/")
  {
    if t != l && l != u {
      assert t[..|l|] == (l + "/")[..|l|] == l;
      assert t[..|u| + 1] == l[..|u| + 1];
    }
  }

  lemma NoOverlap(first: string, second: string)
    requires var a, b := Trimmed(first), Trimmed(second); |b| > |a| && b[|a|] != '/'
    ensures !Overlap(first, second)
  {
    var a, b := Trimmed(first), Trimmed(second);
    assert (a + "/")[|a|] == '/';
  }

  /** An input on which the test misses an overlap: `a ` contains `a /b`. */
  lemma OverlapMisses()
    ensures ValidPath("a ") && ValidPath("a /b") && StrictlyUnder("a /b", "a ") && !Overlap("a ", "a /b")
  {
    SplitPlain("a ");
    SplitPlain("b");
    assert ValidPart("a ");
    ValidPartsMakePath("a ");
    assert "a /b" == "a " + "/" + "b";
    ValidExtend("a ", "b");
    SplitAppend("a ", "b");
    assert TrimRight("a ") == TrimRight("a") == "a";
    OverlapOfNested("a ", "a /b");
  }

  // ---------- independence ----------

  // validateDetachedSource, validateDetachedTarget; an empty parent is not configured
  predicate Validated(parent: string, dataset: string) {
    parent != "" && ValidPath(parent) && ValidPath(dataset) && !Overlap(parent, dataset)
  }

  // the subtrees of two datasets share no path
  ghost predicate Disjoint(a: string, b: string) {
    forall path: string :: !(Under(path, a) && Under(path, b))
  }

  lemma DisjointIsUnrelated(a: string, b: string)
    ensures Disjoint(a, b) <==> !Related(a, b)
  {
    if Related(a, b) {
      var deeper := if Split(a) <= Split(b) then b else a;
      assert Under(deeper, a) && Under(deeper, b);
    }
  }

  // the inner dataset is the outer one or lies beneath it, and the test misses that
  predicate Missed(outer: string, inner: string) {
    Under(inner, outer) && if inner == outer then Trimmed(outer) == "" else Blind(outer)
  }

  /**
   Two datasets that share a subtree are accepted exactly when the test is blind to the outer
   one; every other accepted pair is disjoint, so that deleting either recursively leaves the
   other, with every detached snapshot or the volume in it, alone.
   */
  lemma ValidatedIsDisjoint(parent: string, dataset: string)
    requires ValidPath(parent) && ValidPath(dataset)
    ensures Validated(parent, dataset) && !Disjoint(parent, dataset) <==>
            Missed(parent, dataset) || Missed(dataset, parent)
  {
    DisjointIsUnrelated(parent, dataset);
    if Split(parent) == Split(dataset) {
      SplitInjective(parent, dataset);
    } else if StrictlyUnder(dataset, parent) {
      OverlapOfNested(parent, dataset);
    } else if StrictlyUnder(parent, dataset) {
      OverlapOfNested(dataset, parent);
    }
  }

  // no dataset on the way to the path, the path included, is one the test is blind to
  ghost predicate Clear(path: string) {
    forall n :: 0 < n <= |Split(path)| ==> !Blind(Join(Split(path)[..n]))
  }

  /** The parent is safe with every dataset exactly when the test is blind to none of its ancestors nor itself. */
  lemma SafeParent(parent: string)
    requires ValidPath(parent)
    ensures Clear(parent) <==>
            forall dataset :: Validated(parent, dataset) ==> Disjoint(parent, dataset)
  {
    if Clear(parent) {
      forall dataset | Validated(parent, dataset) ensures Disjoint(parent, dataset) { ClearIsSafe(parent, dataset); }
    } else {
      var dataset := UnclearIsUnsafe(parent);
      assert Validated(parent, dataset) && !Disjoint(parent, dataset);
    }
  }

  lemma ClearAt(path: string, above: string)
    requires Clear(path) && Under(path, above)
    ensures !Blind(above)
  {
    assert Split(path)[..|Split(above)|] == Split(above);
    JoinSplit(above);
  }

  lemma ClearIsSafe(parent: string, dataset: string)
    requires Clear(parent) && Validated(parent, dataset)
    ensures Disjoint(parent, dataset)
  {
    ValidatedIsDisjoint(parent, dataset);
    ClearAt(parent, parent);
    if Under(parent, dataset) { ClearAt(parent, dataset); }
  }

  lemma UnclearIsUnsafe(parent: string) returns (dataset: string)
    requires ValidPath(parent) && !Clear(parent)
    ensures Validated(parent, dataset) && !Disjoint(parent, dataset)
  {
    var parts := Split(parent);
    var n :| 0 < n <= |parts| && Blind(Join(parts[..n]));
    if n == |parts| {
      assert parts[..n] == parts;
      JoinSplit(parent);
      dataset := parent + "/" + "c";
      ValidExtend(parent, "c");
      SplitAppend(parent, "c");
      assert Missed(parent, dataset) by { assert |dataset| > |parent|; }
    } else {
      SplitHasNoSlash(parent);
      SplitJoin(parts[..n]);
      dataset := Join(parts[..n]);
      ValidPartsMakePath(dataset);
      assert Missed(dataset, parent);
    }
    ValidatedIsDisjoint(parent, dataset);
  }

  // no blank at either end
  predicate BlankFree(path: string) {
    path != "" ==> !IsSpace(path[0]) && !IsSpace(path[|path| - 1])
  }

  /** For valid paths without blanks at their ends the test is exact, and accepts exactly disjoint subtrees. */
  lemma OverlapIsExact(a: string, b: string)
    requires ValidPath(a) && ValidPath(b) && BlankFree(a) && BlankFree(b)
    ensures Overlap(a, b) <==> Related(a, b)
    ensures Validated(a, b) <==> Disjoint(a, b)
  {
    assert Trimmed(a) == a && Trimmed(b) == b;
    OverlapIsKinship(a, b);
    DisjointIsUnrelated(a, b);
  }

  /** Beneath a volume the test is blind to, every parent is accepted, and the volume contains every snapshot. */
  lemma BlanksDefeatValidation(volume: string, parent: string, id: string)
    requires ValidPath(volume) && ValidPath(parent) && StrictlyUnder(parent, volume) && Blind(volume) && Parts(id).Ok?
    ensures Validated(parent, volume)
    ensures DatasetOf(parent, id).Ok? && StrictlyUnder(DatasetOf(parent, id).value, volume)
  {
    OverlapOfNested(volume, parent);
    DatasetOfIsBeneath(parent, id, id);
  }
}
