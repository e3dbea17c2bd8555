/** `apiclient get --exclude`: removing dotted prefixes from a tree of settings.  The code cuts
    whole subtrees and drops objects that became empty; this is proved to be the flat operation
    "drop every leaf whose dotted path starts with a prefix". */
module PrefixExclusion {
  import opened Wrappers
  import opened Json

  type Path = seq<string>

  /** A key's dotted path, as the code builds it. */
  function Dot(parent: string, key: string): string {
    if parent == "" then key else parent + "." + key
  }

  predicate Excluded(path: string, prefixes: seq<string>) {
    exists p :: p in prefixes && p <= path
  }

  /** What is left of a value found at a dotted path. */
  function Pruned(v: Json, parent: string, prefixes: seq<string>): (r: Json)
    ensures r.Object? <==> v.Object?
    ensures !v.Object? ==> r == v
  {
    if !v.Object? then v
    else
      Object(map k | k in v.members
                     && !Excluded(Dot(parent, k), prefixes)
                     && Pruned(v.members[k], Dot(parent, k), prefixes) != EMPTY_OBJECT
               :: Pruned(v.members[k], Dot(parent, k), prefixes))
  }

  // ------------------------------------------------------------------------------- the method

  /** `remove_prefixes_recursive`, the mutated value handed through.  The flag says whether the
      processed object became empty. */
  method RemovePrefixesRecursive(value: Json, parent: string, prefixes: seq<string>)
    returns (result: Json, empty: bool)
    ensures result == Pruned(value, parent, prefixes)
    ensures empty <==> result == EMPTY_OBJECT
    decreases value
  {
    if !value.Object? {
      return value, false;
    }
    var members := value.members;
    var keysToRemove, keysToRecurse := Classify(members, parent, prefixes);
    members := RemoveKeys(members, keysToRemove);
    hide *;
    for i := 0 to |keysToRecurse|
      invariant Settling(value, keysToRecurse, members, i, parent, prefixes)
    {
      var key := keysToRecurse[i];
      NextUnsettled(value, keysToRecurse, members, i, parent, prefixes);
      var nested, shouldRemove := RemovePrefixesRecursive(members[key], Dot(parent, key), prefixes);
      ghost var before := members;
      if shouldRemove {
        members := members - {key};
      } else {
        members := members[key := nested];
      }
      SettleOne(value, keysToRecurse, before, i, parent, prefixes, nested, members);
    }
    result, empty := Object(members), members == map[];
    SettledIsPruned(value, keysToRecurse, members, parent, prefixes);
  }

  /** The first i keys of the work list are processed, the others as they were. */
  ghost predicate Settling(value: Json, keys: seq<string>, members: map<string, Json>, i: nat, parent: string,
                           prefixes: seq<string>)
  {
    && value.Object? && i <= |keys|
    && (forall k :: k in keys <==> k in value.members && !Excluded(Dot(parent, k), prefixes))
    && (forall a, b :: 0 <= a < b < |keys| ==> keys[a] != keys[b])
    && (forall k :: k in members ==> k in keys)
    && (forall j :: 0 <= j < i ==> keys[j] in value.members && Settled(members, value, keys[j], parent, prefixes))
    && (forall j :: i <= j < |keys| ==> keys[j] in members && keys[j] in value.members
                                        && members[keys[j]] == value.members[keys[j]])
  }

  lemma NextUnsettled(value: Json, keys: seq<string>, members: map<string, Json>, i: nat, parent: string,
                      prefixes: seq<string>)
    requires Settling(value, keys, members, i, parent, prefixes) && i < |keys|
    ensures value.Object? && keys[i] in members && keys[i] in value.members
    ensures members[keys[i]] == value.members[keys[i]]
    ensures members[keys[i]] < value
  {
  }

  lemma SettleOne(value: Json, keys: seq<string>, members: map<string, Json>, i: nat, parent: string,
                  prefixes: seq<string>, nested: Json, next: map<string, Json>)
    requires Settling(value, keys, members, i, parent, prefixes) && i < |keys|
    requires keys[i] in members && nested == Pruned(members[keys[i]], Dot(parent, keys[i]), prefixes)
    requires next == if nested == EMPTY_OBJECT then members - {keys[i]} else members[keys[i] := nested]
    ensures Settling(value, keys, next, i + 1, parent, prefixes)
  {
    hide Pruned, Excluded, Dot;
    assert keys[i] in keys;
    forall j | 0 <= j < |keys| && j != i
      ensures keys[j] in next <==> keys[j] in members
      ensures keys[j] in next ==> next[keys[j]] == members[keys[j]]
    {
      assert keys[j] != keys[i];
    }
  }

  lemma SettledIsPruned(value: Json, keys: seq<string>, members: map<string, Json>, parent: string, prefixes: seq<string>)
    requires Settling(value, keys, members, |keys|, parent, prefixes)
    ensures Object(members) == Pruned(value, parent, prefixes)
  {
    forall k | k in keys
      ensures k in value.members && Settled(members, value, k, parent, prefixes)
    {
      var j :| 0 <= j < |keys| && keys[j] == k;
    }
    assert members == Pruned(value, parent, prefixes).members;
  }

  method RemoveKeys(members: map<string, Json>, keys: seq<string>) returns (left: map<string, Json>)
    ensures left == map k | k in members && k !in keys :: members[k]
  {
    left := members;
    for i := 0 to |keys|
      invariant left == map k | k in members && k !in keys[..i] :: members[k]
    {
      left := left - {keys[i]};
    }
  }

  /** A key that has been processed: gone if its value became empty, pruned otherwise. */
  ghost predicate Settled(members: map<string, Json>, value: Json, k: string, parent: string, prefixes: seq<string>)
    requires value.Object? && k in value.members
  {
    var pruned := Pruned(value.members[k], Dot(parent, k), prefixes);
    if pruned == EMPTY_OBJECT then k !in members else k in members && members[k] == pruned
  }

  /** The two work lists. */
  method Classify(members: map<string, Json>, parent: string, prefixes: seq<string>)
    returns (remove: seq<string>, recurse: seq<string>)
    ensures forall k :: k in remove <==> k in members && Excluded(Dot(parent, k), prefixes)
    ensures forall k :: k in recurse <==> k in members && !Excluded(Dot(parent, k), prefixes)
    ensures forall i, j :: 0 <= i < j < |recurse| ==> recurse[i] != recurse[j]
  {
    remove, recurse := [], [];
    var keys := members.Keys;
    while keys != {}
      invariant keys <= members.Keys
      invariant forall k :: k in remove <==> k in members && k !in keys && Excluded(Dot(parent, k), prefixes)
      invariant forall k :: k in recurse <==> k in members && k !in keys && !Excluded(Dot(parent, k), prefixes)
      invariant forall i, j :: 0 <= i < j < |recurse| ==> recurse[i] != recurse[j]
      decreases keys
    {
      var key :| key in keys;
      keys := keys - {key};
      if Excluded(Dot(parent, key), prefixes) {
        remove := remove + [key];
      } else {
        assert key !in recurse;
        recurse := recurse + [key];
      }
    }
  }

  method RemovePrefixes(value: Json, prefixes: seq<string>) returns (result: Json)
    ensures result == Pruned(value, "", prefixes)
  {
    var empty;
    result, empty := RemovePrefixesRecursive(value, "", prefixes);
  }

  // ------------------------------------------------------------------------ leaves and their paths

  /** The value at a key path, if it is there and is not an object. */
  function Leaf(v: Json, path: Path): Option<Json>
    decreases |path|
  {
    if path == [] then (if v.Object? then None else Some(v))
    else if v.Object? && path[0] in v.members then Leaf(v.members[path[0]], path[1..])
    else None
  }

  /** The dotted form of a key path below a parent. */
  function Dotted(parent: string, path: Path): string
    decreases |path|
  {
    if path == [] then parent else Dotted(Dot(parent, path[0]), path[1..])
  }

  lemma {:induction false} DottedExtends(parent: string, path: Path)
    ensures parent <= Dotted(parent, path)
    decreases |path|
  {
    if path != [] {
      DottedExtends(Dot(parent, path[0]), path[1..]);
    }
  }

  /** A path below an excluded one is excluded. */
  lemma ExcludedBelow(parent: string, path: Path, prefixes: seq<string>)
    requires Excluded(parent, prefixes)
    ensures Excluded(Dotted(parent, path), prefixes)
  {
    DottedExtends(parent, path);
    var p :| p in prefixes && p <= parent;
    assert p <= Dotted(parent, path);
  }

  /** Pruning an object is filtering its leaves by dotted path, values unchanged. */
  lemma {:induction false} PruningFiltersLeaves(v: Json, parent: string, prefixes: seq<string>, path: Path)
    requires v.Object? && path != []
    ensures Leaf(Pruned(v, parent, prefixes), path) ==
            if exists p :: p in prefixes && p <= Dotted(parent, path) then None else Leaf(v, path)
    decreases |path|
  {
    var k, rest := path[0], path[1..];
    if Excluded(Dot(parent, k), prefixes) {
      ExcludedBelow(Dot(parent, k), rest, prefixes);
    } else if k in v.members && v.members[k].Object? && rest != [] {
      PruningFiltersLeaves(v.members[k], Dot(parent, k), prefixes, rest);
    }
  }

  // -------------------------------------------------------------------- trees without empty objects

  /** No empty object below the root, arrays aside. */
  predicate Tidy(v: Json) {
    v.Object? ==> forall k :: k in v.members ==> v.members[k] != EMPTY_OBJECT && Tidy(v.members[k])
  }

  lemma {:induction false} PrunedIsTidy(v: Json, parent: string, prefixes: seq<string>)
    ensures Tidy(Pruned(v, parent, prefixes))
  {
    if v.Object? {
      forall k | k in v.members ensures Tidy(Pruned(v.members[k], Dot(parent, k), prefixes)) {
        PrunedIsTidy(v.members[k], Dot(parent, k), prefixes);
      }
    }
  }

  lemma {:induction false} TidyHasLeaf(v: Json) returns (path: Path)
    requires Tidy(v) && v != EMPTY_OBJECT
    ensures Leaf(v, path).Some?
  {
    if !v.Object? {
      path := [];
    } else {
      var k :| k in v.members;
      var rest := TidyHasLeaf(v.members[k]);
      path := [k] + rest;
      assert path[1..] == rest;
    }
  }

  ghost predicate SameLeaves(a: Json, b: Json) {
    forall path: Path :: path != [] ==> Leaf(a, path) == Leaf(b, path)
  }

  lemma LeafBelow(v: Json, k: string, path: Path)
    requires v.Object? && k in v.members
    ensures Leaf(v, [k] + path) == Leaf(v.members[k], path)
  {
    assert ([k] + path)[1..] == path;
  }

  lemma KeyShared(a: Json, b: Json, k: string)
    requires a.Object? && b.Object? && Tidy(a) && SameLeaves(a, b) && k in a.members
    ensures k in b.members
  {
    var path := TidyHasLeaf(a.members[k]);
    LeafBelow(a, k, path);
    assert Leaf(b, [k] + path).Some?;
  }

  lemma ChildrenShare(a: Json, b: Json, k: string)
    requires a.Object? && b.Object? && SameLeaves(a, b) && k in a.members && k in b.members
    ensures Leaf(a.members[k], []) == Leaf(b.members[k], [])
    ensures SameLeaves(a.members[k], b.members[k])
  {
    forall path: Path
      ensures Leaf(a.members[k], path) == Leaf(b.members[k], path)
    {
      LeafBelow(a, k, path);
      LeafBelow(b, k, path);
    }
  }

  /** A tidy object is determined by its leaves. */
  lemma {:induction false} LeavesDetermine(a: Json, b: Json)
    requires a.Object? && b.Object? && Tidy(a) && Tidy(b) && SameLeaves(a, b)
    ensures a == b
    decreases a
  {
    forall k | k in a.members || k in b.members
      ensures k in a.members && k in b.members
    {
      if k in a.members { KeyShared(a, b, k); } else { KeyShared(b, a, k); }
    }
    forall k | k in a.members
      ensures a.members[k] == b.members[k]
    {
      ChildrenShare(a, b, k);
      if a.members[k].Object? {
        LeavesDetermine(a.members[k], b.members[k]);
      }
    }
    assert a.members == b.members;
  }

  // ------------------------------------------------------------------------------- consequences

  lemma ExcludedConcat(path: string, p: seq<string>, q: seq<string>)
    ensures Excluded(path, p + q) <==> Excluded(path, p) || Excluded(path, q)
  {
    if Excluded(path, p) {
      var x :| x in p && x <= path;
      assert x in p + q;
    }
    if Excluded(path, q) {
      var x :| x in q && x <= path;
      assert x in p + q;
    }
  }

  /** Excluding P and then Q is excluding both at once, for every value. */
  lemma ExclusionsCompose(v: Json, p: seq<string>, q: seq<string>)
    ensures Pruned(Pruned(v, "", p), "", q) == Pruned(v, "", p + q)
  {
    var once, both := Pruned(v, "", p), Pruned(v, "", p + q);
    if v.Object? {
      forall path: Path | path != []
        ensures Leaf(Pruned(once, "", q), path) == Leaf(both, path)
      {
        PruningFiltersLeaves(v, "", p, path);
        PruningFiltersLeaves(once, "", q, path);
        PruningFiltersLeaves(v, "", p + q, path);
        ExcludedConcat(Dotted("", path), p, q);
      }
      PrunedIsTidy(once, "", q);
      PrunedIsTidy(v, "", p + q);
      LeavesDetermine(Pruned(once, "", q), both);
    }
  }

  /** Only which prefixes are excluded matters, not their order or repetition. */
  lemma ExclusionIsBySet(v: Json, p: seq<string>, q: seq<string>)
    requires forall x :: x in p <==> x in q
    ensures Pruned(v, "", p) == Pruned(v, "", q)
  {
    if v.Object? {
      forall path: Path | path != []
        ensures Leaf(Pruned(v, "", p), path) == Leaf(Pruned(v, "", q), path)
      {
        PruningFiltersLeaves(v, "", p, path);
        PruningFiltersLeaves(v, "", q, path);
        assert Excluded(Dotted("", path), p) <==> Excluded(Dotted("", path), q);
      }
      PrunedIsTidy(v, "", p);
      PrunedIsTidy(v, "", q);
      LeavesDetermine(Pruned(v, "", p), Pruned(v, "", q));
    }
  }

  lemma ExclusionIdempotent(v: Json, p: seq<string>)
    ensures Pruned(Pruned(v, "", p), "", p) == Pruned(v, "", p)
  {
    ExclusionsCompose(v, p, p);
    ExclusionIsBySet(v, p + p, p);
  }

  // ---------------------------------------------------------------------- what a dotted path is

  /** The keys joined by dots. */
  function Join(path: Path): string {
    if path == [] then ""
    else if |path| == 1 then path[0]
    else path[0] + "." + Join(path[1..])
  }

  lemma {:induction false} DottedBelow(parent: string, path: Path)
    requires parent != "" && path != []
    ensures Dotted(parent, path) == parent + "." + Join(path)
    decreases |path|
  {
    if |path| == 1 {
      assert path[1..] == [];
    } else {
      DottedBelow(Dot(parent, path[0]), path[1..]);
      assert parent + "." + path[0] + "." + Join(path[1..]) == parent + "." + (path[0] + "." + Join(path[1..]));
    }
  }

  lemma {:induction false} DottedNoLonger(path: Path)
    ensures |Dotted("", path)| <= |Join(path)|
  {
    if |path| == 1 {
      assert path[1..] == [];
    } else if path != [] {
      if path[0] == "" {
        DottedNoLonger(path[1..]);
      } else {
        DottedBelow(path[0], path[1..]);
      }
    }
  }

  /** The code's dotted path is the keys joined by dots, except that a leading empty key loses
      its dot. */
  lemma DottedIsJoinIff(path: Path)
    ensures Dotted("", path) == Join(path) <==> |path| <= 1 || path[0] != ""
  {
    if |path| == 1 {
      assert path[1..] == [];
    } else if |path| > 1 {
      if path[0] == "" {
        DottedNoLonger(path[1..]);
      } else {
        DottedBelow(path[0], path[1..]);
      }
    }
  }

  /** A path that the code writes without its leading dot. */
  lemma EmptyKeyLosesDot()
    ensures Dotted("", ["", "a"]) == "a" && Join(["", "a"]) == ".a"
  {
    assert ["", "a"][1..] == ["a"] && ["a"][1..] == [];
  }

  // ------------------------------------------------------------------ prefixes ending in a dot

  predicate Dotless(path: Path) { forall k :: k in path ==> '.' !in k }

  /** What follows the first dot of a text. */
  lemma FirstDot(a: string, x: string, b: string, y: string)
    requires '.' !in a && '.' !in b
    ensures a + "." + x <= b + "." + y <==> a == b && x <= y
    ensures !(a + "." + x <= b)
  {
    var left, right := a + "." + x, b + "." + y;
    assert left[|a|] == '.' && right[|b|] == '.';
    assert forall i :: 0 <= i < |a| ==> left[i] == a[i] && a[i] != '.';
    assert forall i :: 0 <= i < |b| ==> right[i] == b[i] && b[i] != '.';
    if left <= right {
      assert |a| >= |b| by { assert right[|a|] == '.'; }
      assert |a| <= |b| by { assert forall i :: 0 <= i < |left| ==> left[i] == right[i]; }
      assert a == left[..|a|] && b == right[..|a|];
      assert x == left[|a| + 1..] && y == right[|a| + 1..];
    }
    if a == b && x <= y {
      assert y == x + y[|x|..];
      assert right == left + y[|x|..];
    }
  }

  lemma {:induction false} DottedPrefix(ks: Path, path: Path)
    requires ks != [] && path != [] && Dotless(ks) && Dotless(path)
    ensures Join(ks) + "." <= Join(path) <==> ks < path
    decreases |ks|
  {
    var x := if |ks| == 1 then "" else Join(ks[1..]) + ".";
    var y := if |path| == 1 then "" else Join(path[1..]);
    assert Join(ks) + "." == ks[0] + "." + x;
    assert ks[0] in ks && path[0] in path;
    FirstDot(ks[0], x, path[0], y);
    if |path| > 1 {
      assert Join(path) == path[0] + "." + y;
      if |ks| > 1 {
        DottedPrefix(ks[1..], path[1..]);
      }
      assert ks == [ks[0]] + ks[1..] && path == [path[0]] + path[1..];
      assert ks < path <==> ks[0] == path[0] && ks[1..] < path[1..];
    }
  }

  /** A prefix made of keys and a trailing dot hits exactly what lies below those keys. */
  ghost predicate HitsBelow(ks: Path, path: Path) {
    Excluded(Dotted("", path), [Join(ks) + "."]) <==> ks < path
  }

  /** That is promised of every such prefix.  It holds of all paths over a set of keys exactly when
      no key is empty or contains a dot. */
  lemma TrailingDotIff(keys: set<string>)
    ensures (forall ks: Path, path: Path ::
               ks != [] && Dotless(ks) && (forall k :: k in path ==> k in keys) ==> HitsBelow(ks, path))
            <==> forall k :: k in keys ==> k != "" && '.' !in k
  {
    if forall k :: k in keys ==> k != "" && '.' !in k {
      forall ks: Path, path: Path | ks != [] && Dotless(ks) && (forall k :: k in path ==> k in keys)
        ensures HitsBelow(ks, path)
      {
        OneExclusion(ks, path);
        if path != [] {
          assert path[0] in path;
          DottedIsJoinIff(path);
          DottedPrefix(ks, path);
        }
      }
    } else {
      var k :| k in keys && (k == "" || '.' in k);
      var ks, path := Missed(k);
      assert !HitsBelow(ks, path);
    }
  }

  lemma OneExclusion(ks: Path, path: Path)
    ensures Excluded(Dotted("", path), [Join(ks) + "."]) <==> Join(ks) + "." <= Dotted("", path)
  {
    assert Join(ks) + "." in [Join(ks) + "."];
  }

  /** A prefix that goes wrong on a path made of one bad key. */
  lemma Missed(k: string) returns (ks: Path, path: Path)
    requires k == "" || '.' in k
    ensures ks != [] && Dotless(ks) && (forall x :: x in path ==> x == k) && !HitsBelow(ks, path)
  {
    if k == "" {
      ks, path := [""], ["", ""];
      assert path[1..] == [""] && [""][1..] == [];
      assert Dotted("", path) == "";
      assert ks < path;
    } else {
      var i := DotAt(k);
      ks, path := [k[..i]], [k];
      assert path[1..] == [];
      assert Dotted("", path) == k;
      assert k == k[..i] + "." + k[i + 1..];
    }
    OneExclusion(ks, path);
  }

  lemma DotAt(k: string) returns (i: nat)
    requires '.' in k
    ensures i < |k| && k[i] == '.' && '.' !in k[..i]
  {
    i := 0;
    while k[i] != '.'
      invariant i < |k| && '.' !in k[..i] && '.' in k[i..]
      decreases |k| - i
    {
      assert k[i..] == [k[i]] + k[i + 1..];
      i := i + 1;
    }
  }

  /** One key with a dot in it is taken for a path below the prefix. */
  lemma TrailingDotHitsSibling()
    ensures Pruned(Object(map["a.b" := Number("1")]), "", ["a."]) == EMPTY_OBJECT
  {
    assert "a." <= Dot("", "a.b") && "a." in ["a."];
  }
}
