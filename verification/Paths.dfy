/** The string steps of `stat_path` (src/capi_helpers/idstore.rs). */
module Paths {
  import opened Wrappers

  /** `replace("//", "/")`: one pass from the left, no overlaps. */
  function CollapseOnce(s: string): (r: string)
    ensures s == "" <==> r == ""
    ensures s != "" ==> r[0] == s[0]
  {
    if s == "" then ""
    else if |s| >= 2 && s[0] == '/' && s[1] == '/' then "/" + CollapseOnce(s[2..])
    else [s[0]] + CollapseOnce(s[1..])
  }

  /** `trim_end_matches('/')`. */
  function TrimEnd(s: string): (r: string)
    ensures r <= s
    ensures r == "" || r[|r| - 1] != '/'
  {
    if s != "" && s[|s| - 1] == '/' then TrimEnd(s[..|s| - 1]) else s
  }

  /** The name of a path and, in front of its last slash, its parent. */
  datatype Split = Split(name: string, parent: Option<string>)

  /** `rsplitn(2, '/')`. */
  function SplitLast(s: string): (r: Split)
    ensures '/' !in r.name
    ensures r.parent.Some? ==> s == r.parent.value + "/" + r.name
    ensures r.parent.None? ==> s == r.name
  {
    if s == "" then Split("", None)
    else if s[|s| - 1] == '/' then Split("", Some(s[..|s| - 1]))
    else
      var front := SplitLast(s[..|s| - 1]);
      Split(front.name + [s[|s| - 1]], front.parent)
  }

  function Stripped(path: string): string {
    TrimEnd(CollapseOnce(path))
  }

  // ---------- Runs of slashes ----------

  function Slashes(k: nat): (r: string)
    ensures |r| == k && forall i :: 0 <= i < k ==> r[i] == '/'
  {
    seq(k, _ => '/')
  }

  predicate Plain(s: string) {
    '/' !in s
  }

  predicate StartsPlain(s: string) {
    s == "" || s[0] != '/'
  }

  /** There are two slashes in a row. */
  predicate Double(s: string) {
    |s| >= 2 && ((s[0] == '/' && s[1] == '/') || Double(s[1..]))
  }

  /** There are three slashes in a row. */
  predicate Triple(s: string) {
    |s| >= 3 && ((s[0] == '/' && s[1] == '/' && s[2] == '/') || Triple(s[1..]))
  }

  /** The one pass leaves a double slash exactly if there was a triple one. */
  lemma {:induction false} CollapseLeavesDoubleIff(s: string)
    ensures Double(CollapseOnce(s)) <==> Triple(s)
    decreases |s|
  {
    if s == "" {
    } else if |s| >= 2 && s[0] == '/' && s[1] == '/' {
      var r := s[2..];
      CollapseLeavesDoubleIff(r);
      assert CollapseOnce(s)[1..] == CollapseOnce(r);
      assert s[1..][1..] == r;
      assert Triple(s) <==> (r != "" && r[0] == '/') || Triple(r);
    } else {
      CollapseLeavesDoubleIff(s[1..]);
      assert CollapseOnce(s)[1..] == CollapseOnce(s[1..]);
    }
  }

  lemma {:induction false} PrefixHasNoDouble(p: string, s: string)
    requires p <= s && !Double(s)
    ensures !Double(p)
    decreases |p|
  {
    if |p| < 2 {
    } else {
      PrefixHasNoDouble(p[1..], s[1..]);
    }
  }

  /** A path without three slashes in a row is rebuilt from parent and name without doubles. */
  lemma StrippedHasNoDouble(path: string)
    requires !Triple(path)
    ensures !Double(Stripped(path))
  {
    CollapseLeavesDoubleIff(path);
    PrefixHasNoDouble(Stripped(path), CollapseOnce(path));
  }

  // ---------- When the parent is "/" ----------

  lemma {:induction false} CollapseSlashes(k: nat, x: string)
    requires StartsPlain(x)
    ensures CollapseOnce(Slashes(k) + x) == Slashes((k + 1) / 2) + CollapseOnce(x)
    decreases k
  {
    var s := Slashes(k) + x;
    if k == 0 {
      assert s == x;
      assert Slashes(0) + CollapseOnce(x) == CollapseOnce(x);
    } else if k == 1 {
      assert s[1..] == x;
      assert CollapseOnce(s) == ['/'] + CollapseOnce(x);
      assert Slashes(1) == ['/'];
    } else {
      assert s[2..] == Slashes(k - 2) + x;
      CollapseSlashes(k - 2, x);
      assert Slashes((k + 1) / 2) == "/" + Slashes((k - 1) / 2);
    }
  }

  lemma {:induction false} CollapsePlain(name: string, x: string)
    requires Plain(name)
    ensures CollapseOnce(name + x) == name + CollapseOnce(x)
    decreases |name|
  {
    var s := name + x;
    if name == "" {
      assert s == x;
    } else {
      assert name[0] in name;
      forall c | c in name[1..] ensures c in name {}
      CollapsePlain(name[1..], x);
      assert s[1..] == name[1..] + x;
    }
  }

  lemma {:induction false} TrimSlashes(y: string, j: nat)
    requires y != "" && y[|y| - 1] != '/'
    ensures TrimEnd(y + Slashes(j)) == y
    decreases j
  {
    var s := y + Slashes(j);
    if j == 0 {
      assert s == y;
    } else {
      assert s[|s| - 1] == '/';
      assert s[..|s| - 1] == y + Slashes(j - 1);
      TrimSlashes(y, j - 1);
    }
  }

  lemma {:induction false} TrimmedPart(s: string) returns (j: nat)
    ensures s == TrimEnd(s) + Slashes(j)
    decreases |s|
  {
    if s != "" && s[|s| - 1] == '/' {
      j := TrimmedPart(s[..|s| - 1]);
      assert s == s[..|s| - 1] + "/";
      assert Slashes(j + 1) == Slashes(j) + "/";
      j := j + 1;
    } else {
      j := 0;
      assert s + Slashes(0) == s;
    }
  }

  lemma {:induction false} SplitPlain(parent: string, name: string)
    requires Plain(name)
    ensures SplitLast(parent + "/" + name) == Split(name, Some(parent))
    decreases |name|
  {
    var s := parent + "/" + name;
    if name == "" {
      assert s[..|s| - 1] == parent;
    } else {
      var init := name[..|name| - 1];
      forall c | c in init ensures c in name {}
      assert name[|name| - 1] in name;
      SplitPlain(parent, init);
      assert s[..|s| - 1] == parent + "/" + init;
      assert name == init + [name[|name| - 1]];
    }
  }

  /** Three or four slashes, one component, and any number of slashes behind it. */
  ghost predicate SlashedComponent(path: string) {
    exists k: nat, name: string, m: nat ::
      3 <= k <= 4 && name != "" && Plain(name) && path == Slashes(k) + name + Slashes(m)
  }

  lemma SlashedComponentSplits(k: nat, name: string, m: nat)
    requires 3 <= k <= 4 && name != "" && Plain(name)
    ensures SplitLast(Stripped(Slashes(k) + name + Slashes(m))) == Split(name, Some("/"))
  {
    var path := Slashes(k) + name + Slashes(m);
    assert name[0] in name;
    assert name[|name| - 1] in name;
    CollapseSlashes(k, name + Slashes(m));
    assert path == Slashes(k) + (name + Slashes(m));
    CollapsePlain(name, Slashes(m));
    CollapseSlashes(m, "");
    assert Slashes(m) + "" == Slashes(m);
    var j := (m + 1) / 2;
    var y := "/" + "/" + name;
    assert Slashes(2) == "/" + "/";
    assert CollapseOnce(path) == y + Slashes(j);
    TrimSlashes(y, j);
    SplitPlain("/", name);
  }

  lemma {:induction false} LeadingSlashes(s: string) returns (k: nat, x: string)
    ensures s == Slashes(k) + x && StartsPlain(x)
    decreases |s|
  {
    if s != "" && s[0] == '/' {
      k, x := LeadingSlashes(s[1..]);
      assert Slashes(k + 1) == "/" + Slashes(k);
      assert s == "/" + s[1..];
      k := k + 1;
    } else {
      k, x := 0, s;
      assert s == Slashes(0) + s;
    }
  }

  lemma {:induction false} LeadingPlain(s: string) returns (name: string, z: string)
    ensures s == name + z && Plain(name) && (z == "" || z[0] == '/')
    ensures s != "" && s[0] != '/' ==> name != ""
    decreases |s|
  {
    if s != "" && s[0] != '/' {
      name, z := LeadingPlain(s[1..]);
      name := [s[0]] + name;
    } else {
      name, z := "", s;
    }
  }

  /** Only slashes collapse to nothing but slashes. */
  lemma {:induction false} CollapsedToSlashes(z: string, j: nat)
    requires CollapseOnce(z) == Slashes(j)
    ensures z == Slashes(|z|)
    decreases |z|
  {
    if z == "" {
    } else {
      assert CollapseOnce(z)[0] == '/';
      var n := if |z| >= 2 && z[1] == '/' then 2 else 1;
      assert CollapseOnce(z)[1..] == CollapseOnce(z[n..]);
      assert Slashes(j)[1..] == Slashes(j - 1);
      CollapsedToSlashes(z[n..], j - 1);
      assert z == Slashes(n) + z[n..];
    }
  }

  /** The position of the first slash, or the length if there is none. */
  function FirstSlash(s: string): nat {
    if s == "" || s[0] == '/' then 0 else 1 + FirstSlash(s[1..])
  }

  /** The number of slashes in front. */
  function LeadCount(s: string): nat {
    if s == "" || s[0] != '/' then 0 else 1 + LeadCount(s[1..])
  }

  lemma {:induction false} FirstSlashAt(a: string, u: string)
    requires Plain(a) && (u == "" || u[0] == '/')
    ensures FirstSlash(a + u) == |a|
    decreases |a|
  {
    if a == "" {
      assert a + u == u;
    } else {
      assert a[0] in a;
      forall c | c in a[1..] ensures c in a {}
      FirstSlashAt(a[1..], u);
      assert (a + u)[1..] == a[1..] + u;
    }
  }

  lemma {:induction false} LeadCountAt(k: nat, x: string)
    requires StartsPlain(x)
    ensures LeadCount(Slashes(k) + x) == k
    decreases k
  {
    var s := Slashes(k) + x;
    if k == 0 {
      assert s == x;
    } else {
      LeadCountAt(k - 1, x);
      assert s[1..] == Slashes(k - 1) + x;
    }
  }

  /** Where the first slash behind a name stands decides the name. */
  lemma PlainPrefixUnique(a: string, u: string, b: string, v: string)
    requires a + u == b + v && Plain(a) && Plain(b)
    requires u == "" || u[0] == '/'
    requires v == "" || v[0] == '/'
    ensures a == b && u == v
  {
    FirstSlashAt(a, u);
    FirstSlashAt(b, v);
    assert (a + u)[..|a|] == a && (b + v)[..|b|] == b;
    assert (a + u)[|a|..] == u && (b + v)[|b|..] == v;
  }

  /** How many slashes a string starts with, and what follows them, is determined. */
  lemma LeadingSlashesUnique(k: nat, x: string, l: nat, y: string)
    requires Slashes(k) + x == Slashes(l) + y && StartsPlain(x) && StartsPlain(y)
    ensures k == l && x == y
  {
    LeadCountAt(k, x);
    LeadCountAt(l, y);
    assert (Slashes(k) + x)[k..] == x && (Slashes(l) + y)[l..] == y;
  }

  /** A path in three parts, from what its collapsed form says about them. */
  lemma SlashedParts(path: string, name: string, j: nat, k: nat, x: string, nm: string, z: string)
    requires path == Slashes(k) + x && StartsPlain(x)
    requires x == nm + z && Plain(nm) && (z == "" || z[0] == '/')
    requires CollapseOnce(path) == Slashes(2) + (name + Slashes(j))
    requires name != "" && Plain(name) && name[0] != '/'
    ensures SlashedComponent(path)
  {
    hide Slashes;
    CollapseSlashes(k, x);
    LeadingSlashesUnique((k + 1) / 2, CollapseOnce(x), 2, name + Slashes(j));
    CollapsePlain(nm, z);
    PlainPrefixUnique(nm, CollapseOnce(z), name, Slashes(j));
    CollapsedToSlashes(z, j);
    assert path == Slashes(k) + name + Slashes(|z|);
  }

  lemma ParentIsSlash(path: string, name: string)
    requires Plain(name) && Stripped(path) == "/" + "/" + name
    ensures SlashedComponent(path)
  {
    var j := TrimmedPart(CollapseOnce(path));
    var k, x := LeadingSlashes(path);
    var nm, z := LeadingPlain(x);
    assert name != "" by {
      assert Stripped(path)[|Stripped(path)| - 1] != '/';
    }
    assert name[0] in name;
    assert CollapseOnce(path) == Slashes(2) + (name + Slashes(j)) by {
      assert Slashes(2) == "/" + "/";
    }
    SlashedParts(path, name, j, k, x, nm, z);
  }

  /** The parent of a path comes out as "/" exactly for the paths of that form. */
  lemma ParentIsSlashIff(path: string)
    ensures SplitLast(Stripped(path)).parent == Some("/") <==> SlashedComponent(path)
  {
    if SlashedComponent(path) {
      var k: nat, name: string, m: nat :|
        3 <= k <= 4 && name != "" && Plain(name) && path == Slashes(k) + name + Slashes(m);
      SlashedComponentSplits(k, name, m);
    }
    var split := SplitLast(Stripped(path));
    if split.parent == Some("/") {
      ParentIsSlash(path, split.name);
    }
  }
}
