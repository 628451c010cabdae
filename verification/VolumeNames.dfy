/** The names of a volume's iSCSI target and NVMe-oF subsystem, and how a node recognises them. */
module VolumeNames {
  import opened Basics
  import opened PathText

  function LowerChar(c: char): char { if 'A' <= c <= 'Z' then c - 'A' + 'a' else c }

  predicate IsNameChar(c: char, colon: bool) {
    ('a' <= c <= 'z') || ('0' <= c <= '9') || c == '.' || c == '-' || (colon && c == ':')
  }

  function NameChar(c: char, colon: bool): (r: char)
    ensures IsNameChar(c, colon) ==> r == c
    ensures 'A' <= c <= 'Z' ==> r as int - 'a' as int == c as int - 'A' as int
    ensures !IsNameChar(c, colon) && !('A' <= c <= 'Z') ==> r == '-'
  {
    var l := LowerChar(c);
    if IsNameChar(l, colon) then l else '-'
  }

  function Limit(s: string, n: nat): string { if |s| > n then s[..n] else s }

  // `csi-` and the volume ID in lower case, other characters as dashes, cut to the limit
  function MadeName(id: string, colon: bool, limit: nat): (r: string)
    ensures |r| == (if 4 + |id| > limit then limit else 4 + |id|)
    ensures forall i :: 0 <= i < |r| ==> r[i] == NameChar(("csi-" + id)[i], colon) && IsNameChar(r[i], colon)
  {
    var full := "csi-" + id;
    Limit(seq(|full|, i requires 0 <= i < |full| => NameChar(full[i], colon)), limit)
  }

  function TargetSuffix(id: string): string { MadeName(id, true, 120) }

  function SubsysName(id: string): string { MadeName(id, false, 200) }

  // makeISCSITargetSuffix and makeNVMeSubsysName differ in the colon and the limit
  method MakeName(id: string, colon: bool, limit: nat) returns (r: string)
    ensures r == MadeName(id, colon, limit)
  {
    var full := "csi-" + id;
    var result: string := [];
    for i := 0 to |full|
      invariant |result| == i && forall k :: 0 <= k < i ==> result[k] == NameChar(full[k], colon)
    {
      var c := LowerChar(full[i]);
      if ('a' <= c <= 'z') || ('0' <= c <= '9') || c == '.' || c == '-' || (colon && c == ':') {
        result := result + [c];
      } else {
        result := result + ['-'];
      }
    }
    r := result;
    if |r| > limit {
      r := r[..limit];
    }
    assert result == seq(|full|, i requires 0 <= i < |full| => NameChar(full[i], colon));
  }

  // a qualified name belongs to the volume if it ends with a colon and the volume's name
  predicate Belongs(qualified: string, name: string) { HasSuffix(qualified, ":" + name) }

  // an end that reaches into the first part of a text, and one that does not
  lemma SuffixOfConcat(a: string, b: string, t: string)
    ensures |t| <= |b| ==> (HasSuffix(a + b, t) <==> HasSuffix(b, t))
    ensures |t| >= |b| ==> (HasSuffix(a + b, t) <==> HasSuffix(t, b) && HasSuffix(a, t[..|t| - |b|]))
  {
    var s := a + b;
    if |t| <= |b| {
      assert s[|s| - |t|..] == b[|b| - |t|..];
    } else if |t| <= |s| {
      var front := t[..|t| - |b|];
      assert s[|s| - |t|..] == a[|a| - |front|..] + b;
      assert t == front + t[|t| - |b|..];
    }
  }

  /**
   Which names a target is taken for: its own, one that its name ends with behind a colon, and
   one that ends with its name behind a colon and whose front part ends the base. Among names
   without a colon there is only its own.
   */
  lemma BelongsByName(base: string, name: string, other: string)
    ensures Belongs(base + ":" + name, other) <==>
            || name == other
            || Belongs(name, other)
            || (Belongs(other, name) && Belongs(base, other[..|other| - |name| - 1]))
    ensures ':' !in name && ':' !in other ==> (Belongs(base + ":" + name, other) <==> name == other)
  {
    if Belongs(name, other) { assert name[|name| - |other| - 1] == (":" + other)[0]; }
    if Belongs(other, name) { assert other[|other| - |name| - 1] == (":" + name)[0]; }
    var b, t := ":" + name, ":" + other;
    assert base + ":" + name == base + b;
    SuffixOfConcat(base, b, t);
    if |other| < |name| {
      SuffixOfConcat(":", name, t);
    } else if |other| == |name| {
      assert HasSuffix(t, b) <==> t == b;
      assert t[1..] == other && b[1..] == name;
      assert t[..0] == "";
    } else {
      SuffixOfConcat(":", other, b);
      assert t[..|t| - |b|] == ":" + other[..|other| - |name| - 1];
    }
  }

  /** Subsystem names never have a colon, so an NQN belongs to at most one subsystem name. */
  lemma SubsystemIsRecognised(base: string, id: string, other: string)
    ensures Belongs(base + ":" + SubsysName(id), SubsysName(other)) <==> SubsysName(id) == SubsysName(other)
  {
    BelongsByName(base, SubsysName(id), SubsysName(other));
  }

  // the name of `front:csi-id` is that of `front`, a colon, and that of `id`
  lemma LongerName(front: string, id: string)
    requires |front| + |id| <= 100
    ensures TargetSuffix(front + ":csi-" + id) == TargetSuffix(front) + ":" + TargetSuffix(id)
  {
    var longer := front + ":csi-" + id;
    var full, s := "csi-" + longer, TargetSuffix(longer);
    var x, name := TargetSuffix(front), TargetSuffix(id);
    var k := |front| + 4;
    forall i | 0 <= i < |s| ensures s[i] == (x + ":" + name)[i] {
      if i < k {
        assert full[i] == ("csi-" + front)[i];
      } else if i == k {
        assert full[i] == ':';
      } else {
        assert full[i] == ("csi-" + id)[i - k - 1];
      }
    }
  }

  /**
   Target names can have a colon. Then the target of one volume is taken for that of another:
   that of `front:csi-id` for that of `id` under any base, and the other way round under a base
   that ends in the name of `front`.
   */
  lemma TargetCanBeMistaken(base: string, front: string, id: string)
    requires |front| + |id| <= 100
    ensures var shorter, longer := TargetSuffix(id), TargetSuffix(front + ":csi-" + id);
            && shorter != longer
            && Belongs(base + ":" + longer, shorter)
            && Belongs(base + ":" + TargetSuffix(front) + ":" + shorter, longer)
  {
    LongerName(front, id);
    var x, shorter := TargetSuffix(front), TargetSuffix(id);
    var longer, outer := x + ":" + shorter, base + ":" + x;
    assert longer == x + (":" + shorter);
    assert longer[..|longer| - |shorter| - 1] == x;
    assert outer == base + (":" + x);
    BelongsByName(base, longer, shorter);
    BelongsByName(outer, shorter, longer);
  }
}
