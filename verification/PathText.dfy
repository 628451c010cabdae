/** Slash-separated text: splitting, joining, lexical cleaning, and sorted lists of strings. */
module PathText {

  // strings.Split(s, "/"): one component more than there are slashes
  function Split(s: string): (r: seq<string>)
    ensures |r| >= 1
  {
    if s == "" then [""] else Extend(s[0], Split(s[1..]))
  }

  // one more character in front: a slash opens a component, any other joins the first one
  function Extend(c: char, r: seq<string>): seq<string>
    requires |r| >= 1
  {
    if c == '/' then [""] + r else [[c] + r[0]] + r[1..]
  }

  function Join(parts: seq<string>): string {
    if parts == [] then "" else if |parts| == 1 then parts[0] else parts[0] + "/" + Join(parts[1..])
  }

  predicate NoSlash(parts: seq<string>) {
    forall i :: 0 <= i < |parts| ==> '/' !in parts[i]
  }

  lemma {:induction false} SplitHasNoSlash(s: string)
    ensures NoSlash(Split(s))
  {
    if s != "" { SplitHasNoSlash(s[1..]); }
  }

  lemma {:induction false} JoinSplit(s: string)
    ensures Join(Split(s)) == s
  {
    if s != "" {
      JoinSplit(s[1..]);
      var r := Split(s[1..]);
      if s[0] == '/' {
        assert Split(s)[1..] == r;
      } else {
        assert Split(s)[1..] == r[1..];
        assert Split(s)[0] == [s[0]] + r[0];
        assert s == [s[0]] + s[1..];
      }
    }
  }

  lemma {:induction false} SplitPlain(p: string)
    requires '/' !in p
    ensures Split(p) == [p]
  {
    if p != "" {
      SplitPlain(p[1..]);
      assert p == [p[0]] + p[1..];
    }
  }

  /** Splitting a path at one of its slashes splits its components there. */
  lemma {:induction false} SplitAppend(a: string, b: string)
    ensures Split(a + "/" + b) == Split(a) + Split(b)
  {
    var s := a + "/" + b;
    if a == "" {
      assert s[1..] == b;
    } else {
      SplitAppend(a[1..], b);
      assert s[0] == a[0] && s[1..] == a[1..] + "/" + b;
      ExtendAppend(a[0], Split(a[1..]), Split(b));
    }
  }

  lemma ExtendAppend(c: char, r: seq<string>, t: seq<string>)
    requires |r| >= 1
    ensures Extend(c, r + t) == Extend(c, r) + t
  {
    assert (r + t)[1..] == r[1..] + t;
  }

  lemma {:induction false} SplitJoin(parts: seq<string>)
    requires parts != [] && NoSlash(parts)
    ensures Split(Join(parts)) == parts
  {
    if |parts| == 1 {
      SplitPlain(parts[0]);
    } else {
      SplitJoin(parts[1..]);
      SplitAppend(parts[0], Join(parts[1..]));
      SplitPlain(parts[0]);
    }
  }

  lemma SplitInjective(a: string, b: string)
    requires Split(a) == Split(b)
    ensures a == b
  {
    JoinSplit(a);
    JoinSplit(b);
  }

  // strings.HasPrefix, HasSuffix
  predicate HasPrefix(s: string, p: string) { |p| <= |s| && s[..|p|] == p }
  predicate HasSuffix(s: string, p: string) { |p| <= |s| && s[|s| - |p|..] == p }

  /** One path followed by a slash is a text prefix of another exactly when its components are a proper prefix. */
  lemma PrefixIsComponentPrefix(a: string, b: string)
    ensures HasPrefix(b, a + "/") <==> Split(a) < Split(b)
  {
    if HasPrefix(b, a + "/") { PrefixSplits(a, b); }
    if Split(a) < Split(b) { PrefixJoins(a, b); }
  }

  lemma PrefixSplits(a: string, b: string)
    requires HasPrefix(b, a + "/")
    ensures Split(a) < Split(b)
  {
    var rest := b[|a + "/"|..];
    assert b == a + "/" + rest;
    SplitAppend(a, rest);
  }

  lemma PrefixJoins(a: string, b: string)
    requires Split(a) < Split(b)
    ensures HasPrefix(b, a + "/")
  {
    var tail := Split(b)[|Split(a)|..];
    SplitHasNoSlash(b);
    SplitJoin(tail);
    SplitAppend(a, Join(tail));
    assert Split(a) + tail == Split(b);
    SplitInjective(a + "/" + Join(tail), b);
    assert b == (a + "/") + Join(tail);
  }

  // ---------- filepath.Clean ----------

  predicate IsAbs(p: string) { p != "" && p[0] == '/' }

  // process one component given those kept so far
  function Keep(kept: seq<string>, c: string, rooted: bool): seq<string> {
    if c == "" || c == "." then kept
    else if c == ".." then
      if kept != [] && kept[|kept| - 1] != ".." then kept[..|kept| - 1]
      else if rooted then kept else kept + [c]
    else kept + [c]
  }

  function KeepAll(kept: seq<string>, cs: seq<string>, rooted: bool): seq<string>
    decreases |cs|
  {
    if cs == [] then kept else KeepAll(Keep(kept, cs[0], rooted), cs[1..], rooted)
  }

  // the text of cleaned components
  function Text(kept: seq<string>, rooted: bool): string {
    if rooted then "/" + Join(kept) else if kept == [] then "." else Join(kept)
  }

  function Clean(p: string): string {
    Text(KeepAll([], Split(p), IsAbs(p)), IsAbs(p))
  }

  /** Components are processed from left to right. */
  lemma {:induction false} KeepAllMore(kept: seq<string>, cs: seq<string>, rooted: bool, c: string)
    ensures KeepAll(kept, cs + [c], rooted) == Keep(KeepAll(kept, cs, rooted), c, rooted)
    decreases |cs|
  {
    if cs == [] {
      assert cs + [c] == [c];
      assert KeepAll(Keep(kept, c, rooted), [c][1..], rooted) == Keep(kept, c, rooted);
    } else {
      assert (cs + [c])[1..] == cs[1..] + [c];
      KeepAllMore(Keep(kept, cs[0], rooted), cs[1..], rooted, c);
    }
  }

  lemma KeptMore(p: string, c: string)
    requires p != "" && '/' !in c
    ensures IsAbs(p + "/" + c) == IsAbs(p)
    ensures KeepAll([], Split(p + "/" + c), IsAbs(p)) == Keep(KeepAll([], Split(p), IsAbs(p)), c, IsAbs(p))
  {
    assert (p + "/" + c)[0] == p[0];
    SplitAppend(p, c);
    SplitPlain(c);
    KeepAllMore([], Split(p), IsAbs(p), c);
  }

  // a component that names something
  predicate IsName(c: string) { '/' !in c && c != "" && c != "." && c != ".." }

  function Child(p: string, name: string): string {
    if p == "." then name else if p == "/" then p + name else p + "/" + name
  }

  lemma TextMore(kept: seq<string>, rooted: bool, name: string)
    requires Normal(kept, rooted)
    ensures Text(kept + [name], rooted) == Child(Text(kept, rooted), name)
  {
    JoinMore(kept, name);
    if kept != [] {
      NamesAreNotRoots(kept, rooted);
      assert |Text(kept, rooted)| > 0 && (rooted ==> |Text(kept, rooted)| > 1);
      assert "/" + (Join(kept) + "/" + name) == "/" + Join(kept) + "/" + name;
    } else {
      assert kept + [name] == [name];
    }
  }

  lemma CleanKeeps(p: string)
    ensures var kept := KeepAll([], Split(p), IsAbs(p));
            Normal(kept, IsAbs(p)) && Clean(p) == Text(kept, IsAbs(p))
  {
    SplitHasNoSlash(p);
    KeepAllNormal([], Split(p), IsAbs(p));
  }

  /** Cleaning drops empty components and ".", appends a name, and takes ".." back to before the name. */
  lemma CleanSteps(p: string, name: string)
    requires p != "" && IsName(name)
    ensures Clean(p + "/") == Clean(p + "/" + ".") == Clean(p)
    ensures Clean(p + "/" + name) == Child(Clean(p), name)
    ensures Clean(p + "/" + name + "/" + "..") == Clean(p)
  {
    KeptMore(p, "");
    assert p + "/" + "" == p + "/";
    KeptMore(p, ".");
    KeptMore(p, name);
    CleanKeeps(p);
    TextMore(KeepAll([], Split(p), IsAbs(p)), IsAbs(p), name);
    KeptMore(p + "/" + name, "..");
  }

  /** There is nothing above the root. */
  lemma CleanRoot()
    ensures Clean("/") == Clean("/" + "/" + "..") == "/"
  {
    assert "/" == "" + "/" + "";
    SplitAppend("", "");
    SplitPlain("");
    assert KeepAll([], ["", ""], true) == KeepAll([], [""], true) == KeepAll([], [], true);
    KeptMore("/", "..");
  }

  lemma {:induction false} JoinMore(parts: seq<string>, x: string)
    ensures Join(parts + [x]) == if parts == [] then x else Join(parts) + "/" + x
  {
    if |parts| > 1 {
      assert (parts + [x])[1..] == parts[1..] + [x];
      JoinMore(parts[1..], x);
    } else if |parts| == 1 {
      assert (parts + [x])[1..] == [x];
    }
  }

  lemma NamesAreNotRoots(kept: seq<string>, rooted: bool)
    requires Normal(kept, rooted) && kept != []
    ensures Join(kept) != "" && Join(kept) != "." && !IsAbs(Join(kept))
  {
    assert Join(kept)[0] == kept[0][0];
  }

  // what cleaning leaves: named components, after leading ".." in a relative path
  predicate Normal(cs: seq<string>, rooted: bool) {
    && NoSlash(cs)
    && (forall i :: 0 <= i < |cs| ==> cs[i] != "" && cs[i] != ".")
    && (forall i :: 0 <= i < |cs| && cs[i] == ".." ==> !rooted && forall j :: 0 <= j < i ==> cs[j] == "..")
  }

  lemma {:induction false} KeepAllNormal(kept: seq<string>, cs: seq<string>, rooted: bool)
    requires Normal(kept, rooted) && NoSlash(cs)
    ensures Normal(KeepAll(kept, cs, rooted), rooted)
    decreases |cs|
  {
    if cs != [] {
      KeepAllNormal(Keep(kept, cs[0], rooted), cs[1..], rooted);
    }
  }

  lemma {:induction false} NormalIsKept(kept: seq<string>, cs: seq<string>, rooted: bool)
    requires Normal(kept + cs, rooted)
    ensures KeepAll(kept, cs, rooted) == kept + cs
    decreases |cs|
  {
    if cs == [] {
      assert kept + cs == kept;
    } else {
      assert (kept + cs)[|kept|] == cs[0];
      if kept != [] { assert (kept + cs)[|kept| - 1] == kept[|kept| - 1]; }
      assert Keep(kept, cs[0], rooted) == kept + [cs[0]];
      assert (kept + [cs[0]]) + cs[1..] == kept + cs;
      NormalIsKept(kept + [cs[0]], cs[1..], rooted);
    }
  }

  lemma RootedIsClean(kept: seq<string>)
    requires Normal(kept, true)
    ensures Clean("/" + Join(kept)) == "/" + Join(kept)
  {
    var text := Join(kept);
    assert "" + "/" + text == "/" + text;
    SplitAppend("", text);
    var parts := Split(text);
    assert ([""] + parts)[1..] == parts;
    assert KeepAll([], [""] + parts, true) == KeepAll([], parts, true);
    if kept == [] {
      assert KeepAll([], [""], true) == KeepAll([], [], true);
    } else {
      SplitJoin(kept);
      assert [] + kept == kept;
      NormalIsKept([], kept, true);
    }
  }

  lemma RelativeIsClean(kept: seq<string>)
    requires Normal(kept, false) && kept != []
    ensures !IsAbs(Join(kept)) && Clean(Join(kept)) == Join(kept)
  {
    SplitJoin(kept);
    assert [] + kept == kept;
    NormalIsKept([], kept, false);
    assert Join(kept)[0] == kept[0][0];
  }

  /** Cleaning keeps a path absolute or relative, and a cleaned path is its own cleaning. */
  lemma CleanIdempotent(p: string)
    ensures IsAbs(Clean(p)) == IsAbs(p)
    ensures Clean(Clean(p)) == Clean(p)
  {
    SplitHasNoSlash(p);
    var kept := KeepAll([], Split(p), IsAbs(p));
    KeepAllNormal([], Split(p), IsAbs(p));
    if IsAbs(p) {
      RootedIsClean(kept);
    } else if kept != [] {
      RelativeIsClean(kept);
    } else {
      SplitPlain(".");
      assert KeepAll([], ["."], false) == KeepAll([], [], false);
    }
  }

  // ---------- sorted lists ----------

  predicate Less(a: string, b: string) {
    if a == "" then b != ""
    else b != "" && (a[0] < b[0] || (a[0] == b[0] && Less(a[1..], b[1..])))
  }

  predicate AtMost(a: string, b: string) { a == b || Less(a, b) }

  // the strings agree up to `i`, where the first ends or has the smaller character
  predicate LessAt(a: string, b: string, i: int) {
    0 <= i <= |a| && i < |b| && a[..i] == b[..i] && (i == |a| || a[i] < b[i])
  }

  /** Strings are ordered by the first character in which they differ, a prefix before its extensions. */
  lemma {:induction false} LessIsLexicographic(a: string, b: string)
    ensures Less(a, b) <==> exists i :: LessAt(a, b, i)
  {
    if a == "" || b == "" || a[0] < b[0] {
      assert LessAt(a, b, 0) <==> Less(a, b);
    } else {
      LessIsLexicographic(a[1..], b[1..]);
      if i :| a[0] == b[0] && LessAt(a[1..], b[1..], i) {
        assert a[..i + 1] == [a[0]] + a[1..][..i] && b[..i + 1] == [b[0]] + b[1..][..i];
        assert LessAt(a, b, i + 1);
      }
      if i :| LessAt(a, b, i) {
        assert a[..i][0] == b[..i][0] && a[1..][..i - 1] == a[..i][1..] && b[1..][..i - 1] == b[..i][1..];
        assert LessAt(a[1..], b[1..], i - 1);
      }
    }
  }

  lemma {:induction false} LessIsTotal(a: string, b: string)
    ensures a == b || Less(a, b) || Less(b, a)
    ensures !(Less(a, b) && Less(b, a)) && !Less(a, a)
  {
    if a != "" && b != "" {
      LessIsTotal(a[1..], b[1..]);
      LessIsTotal(a[1..], a[1..]);
      assert a == [a[0]] + a[1..] && b == [b[0]] + b[1..];
    } else if a != "" {
      LessIsTotal(a[1..], a[1..]);
    }
  }

  lemma {:induction false} LessIsTransitive(a: string, b: string, c: string)
    requires Less(a, b) && Less(b, c)
    ensures Less(a, c)
  {
    if a != "" && a[0] == b[0] == c[0] {
      LessIsTransitive(a[1..], b[1..], c[1..]);
    }
  }

  predicate Increasing(xs: seq<string>) {
    forall i, j :: 0 <= i < j < |xs| ==> Less(xs[i], xs[j])
  }

  /** A strictly increasing list is determined by its members. */
  lemma {:induction false} SameIncreasing(xs: seq<string>, ys: seq<string>)
    requires Increasing(xs) && Increasing(ys) && forall x :: x in xs <==> x in ys
    ensures xs == ys
  {
    EmptyTogether(xs, ys);
    if xs != [] {
      var a, b := xs[|xs| - 1], ys[|ys| - 1];
      LastIsGreatest(xs, b);
      LastIsGreatest(ys, a);
      LessIsTotal(a, b);
      var xs', ys' := xs[..|xs| - 1], ys[..|ys| - 1];
      forall x ensures x in xs' <==> x in ys' {
        WithoutLast(xs, x);
        WithoutLast(ys, x);
      }
      SameIncreasing(xs', ys');
      assert xs == xs' + [a] && ys == ys' + [b];
    }
  }

  lemma EmptyTogether(xs: seq<string>, ys: seq<string>)
    requires forall x :: x in xs <==> x in ys
    ensures xs == [] <==> ys == []
  {
    if xs != [] { assert xs[0] in ys; }
    if ys != [] { assert ys[0] in xs; }
  }

  lemma LastIsGreatest(xs: seq<string>, x: string)
    requires Increasing(xs) && x in xs
    ensures AtMost(x, xs[|xs| - 1])
  {
  }

  lemma WithoutLast(xs: seq<string>, x: string)
    requires Increasing(xs) && xs != []
    ensures x in xs[..|xs| - 1] <==> x in xs && x != xs[|xs| - 1]
  {
    LessIsTotal(x, x);
    assert xs == xs[..|xs| - 1] + [xs[|xs| - 1]];
  }

  predicate Ordered(xs: seq<string>) {
    forall i, j :: 0 <= i < j < |xs| ==> AtMost(xs[i], xs[j])
  }

  function Insert(x: string, xs: seq<string>): seq<string> {
    if xs == [] || AtMost(x, xs[0]) then [x] + xs else [xs[0]] + Insert(x, xs[1..])
  }

  // sort.Strings
  function Sort(xs: seq<string>): seq<string> {
    if xs == [] then [] else Insert(xs[0], Sort(xs[1..]))
  }

  lemma {:induction false} InsertSorts(x: string, xs: seq<string>)
    requires Ordered(xs)
    ensures Ordered(Insert(x, xs)) && multiset(Insert(x, xs)) == multiset{x} + multiset(xs)
  {
    if xs != [] && !AtMost(x, xs[0]) {
      InsertSorts(x, xs[1..]);
      LessIsTotal(x, xs[0]);
      var r := Insert(x, xs[1..]);
      assert xs == [xs[0]] + xs[1..];
      forall y | y in r ensures AtMost(xs[0], y) {
        assert y in multiset(r);
        assert y == x || y in xs[1..];
      }
      OrderedFront(xs[0], r);
    } else if xs != [] {
      forall y | y in xs ensures AtMost(x, y) {
        if x != xs[0] && xs[0] != y { LessIsTransitive(x, xs[0], y); }
      }
      OrderedFront(x, xs);
    }
  }

  lemma OrderedFront(x: string, xs: seq<string>)
    requires Ordered(xs) && forall y :: y in xs ==> AtMost(x, y)
    ensures Ordered([x] + xs)
  {
    var r := [x] + xs;
    forall i, j | 0 <= i < j < |r| ensures AtMost(r[i], r[j]) {
      assert r[j] == xs[j - 1];
      if i > 0 { assert r[i] == xs[i - 1]; }
    }
  }

  lemma {:induction false} SortSorts(xs: seq<string>)
    ensures Ordered(Sort(xs)) && multiset(Sort(xs)) == multiset(xs)
  {
    if xs != [] {
      SortSorts(xs[1..]);
      InsertSorts(xs[0], Sort(xs[1..]));
      assert xs == [xs[0]] + xs[1..];
    }
  }

  lemma SortMembers(xs: seq<string>, x: string)
    ensures x in Sort(xs) <==> x in xs
  {
    SortSorts(xs);
    assert x in multiset(Sort(xs)) <==> x in multiset(xs);
  }

  // drop each string equal to its predecessor
  function Compact(xs: seq<string>): seq<string> {
    if |xs| < 2 then xs
    else
      var r := Compact(xs[..|xs| - 1]);
      if xs[|xs| - 1] != xs[|xs| - 2] then r + [xs[|xs| - 1]] else r
  }

  lemma {:induction false} CompactKeeps(xs: seq<string>)
    ensures xs != [] ==> Compact(xs) != [] && Compact(xs)[|Compact(xs)| - 1] == xs[|xs| - 1]
    ensures forall x :: x in Compact(xs) <==> x in xs
    ensures Ordered(xs) ==> Increasing(Compact(xs))
  {
    if |xs| >= 2 {
      var init, last := xs[..|xs| - 1], xs[|xs| - 1];
      CompactKeeps(init);
      assert xs == init + [last];
      assert init[|init| - 1] == xs[|xs| - 2];
      if Ordered(xs) && last != xs[|xs| - 2] {
        var r := Compact(init);
        assert Less(xs[|xs| - 2], last);
        forall i | 0 <= i < |r| ensures Less(r[i], last) {
          if i < |r| - 1 { LessIsTransitive(r[i], r[|r| - 1], last); }
        }
      }
    }
  }

  lemma CompactStep(xs: seq<string>, i: nat)
    requires 0 < i < |xs|
    ensures Compact(xs[..i + 1]) == if xs[i] != xs[i - 1] then Compact(xs[..i]) + [xs[i]] else Compact(xs[..i])
  {
    assert xs[..i + 1][..i] == xs[..i];
  }

  /** compactStrings overwrites the front of its input while it reads on. */
  method CompactStrings(values: array<string>) returns (n: nat)
    modifies values
    ensures n <= values.Length && values[..n] == Compact(old(values[..]))
  {
    if values.Length < 2 {
      assert values[..values.Length] == values[..];
      return values.Length;
    }
    ghost var input := values[..];
    n := 1;
    var i := 1;
    assert values[..1] == Compact(input[..1]);
    while i < values.Length
      invariant 1 <= n <= i <= values.Length
      invariant values[..n] == Compact(input[..i])
      invariant forall k :: i <= k < values.Length ==> values[k] == input[k]
      invariant values[n - 1] == input[i - 1]
    {
      var value := values[i];
      CompactStep(input, i);
      if value != values[n - 1] {
        values[n] := value;
        n := n + 1;
        assert values[..n] == Compact(input[..i]) + [value];
      }
      i := i + 1;
    }
    assert input[..values.Length] == input;
  }

  /** sort.Strings followed by compactStrings: the same strings, each once, in strictly increasing order. */
  lemma SortCompact(xs: seq<string>)
    ensures Increasing(Compact(Sort(xs)))
    ensures forall x :: x in Compact(Sort(xs)) <==> x in xs
  {
    SortSorts(xs);
    CompactKeeps(Sort(xs));
    forall x ensures x in Sort(xs) <==> x in xs { SortMembers(xs, x); }
  }
}
