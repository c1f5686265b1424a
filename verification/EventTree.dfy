/** The OCSF event under construction: maps nested by reference, changed in place
    (normalizer.go:140-160, pack.go:285-321). */
module EventTree {
  import opened Text

  /** A dotted path, split. */
  type Path = seq<string>

  /** strings.Split(path, "."). */
  function SplitDots(s: string): (p: Path)
    ensures p != []
  {
    var k := Index(s, '.');
    if k == |s| then [s] else [s[..k]] + SplitDots(s[k + 1..])
  }

  /** No part holds a dot, and the parts give the string back. */
  lemma {:induction false} SplitParts(s: string)
    ensures forall i :: 0 <= i < |SplitDots(s)| ==> '.' !in SplitDots(s)[i]
    ensures Join(SplitDots(s)) == s
    decreases |s|
  {
    var k := Index(s, '.');
    if k < |s| {
      SplitParts(s[k + 1..]);
      assert s == s[..k] + "." + s[k + 1..];
    } else {
      assert s[..k] == s;
    }
  }

  function Join(p: Path): string
  {
    if p == [] then "" else if |p| == 1 then p[0] else p[0] + "." + Join(p[1..])
  }

  /** A value of a field; nil is kept apart. */
  datatype Val = Nil | Of(text: string)

  datatype Slot = Leaf(val: Val) | Sub(obj: Obj)

  /** map[string]any. */
  class Obj {
    var entries: map<string, Slot>

    constructor ()
      ensures entries == map[]
    {
      entries := map[];
    }
  }

  /** What stands at a path. */
  datatype Node = Absent | Dir | Value(val: Val)

  /** What an assignment to `path` makes of what stood at `q`. */
  function SetAt(q: Path, before: Node, path: Path, val: Val): Node
  {
    if q == path then Value(val)
    else if path <= q then Absent
    else if q <= path then Dir
    else before
  }

  function Child(p: Path, key: string): (q: Path)
    ensures q != [] && Parent(q) == p && Last(q) == key
  {
    var q := p + [key];
    assert q[..|p|] == p;
    q
  }

  function Parent(q: Path): (p: Path)
    requires q != []
    ensures p + [Last(q)] == q && |p| == |q| - 1
  {
    q[..|q| - 1]
  }

  function Last(q: Path): string
    requires q != []
  {
    q[|q| - 1]
  }

  predicate OnWay(q: Path, path: Path) { q <= path }

  type Contents = map<Path, map<string, Slot>>

  /** What stands at `q` when the maps hold `ents`. */
  function NodeAt(ents: Contents, q: Path): Node
  {
    if q in ents then Dir
    else if q != [] && Parent(q) in ents && Last(q) in ents[Parent(q)] && ents[Parent(q)][Last(q)].Leaf? then
      Value(ents[Parent(q)][Last(q)].val)
    else Absent
  }

  /** A map in a slot is the one at the slot's path. */
  ghost predicate Held(nodes: map<Path, Obj>, ents: Contents, p: Path, key: string)
  {
    p in ents && key in ents[p] && ents[p][key].Sub? ==>
      Child(p, key) in nodes && nodes[Child(p, key)] == ents[p][key].obj
  }

  /** A map that is not the root is held by its parent. */
  ghost predicate Linked(nodes: map<Path, Obj>, ents: Contents, p: Path)
  {
    p in nodes && p != [] ==>
      Parent(p) in ents && Last(p) in ents[Parent(p)] && ents[Parent(p)][Last(p)] == Sub(nodes[p])
  }

  ghost predicate Distinct(nodes: map<Path, Obj>)
  {
    forall p, q :: p in nodes && q in nodes && nodes[p] == nodes[q] ==> p == q
  }

  /** The maps form a tree. */
  ghost predicate Shape(nodes: map<Path, Obj>, ents: Contents)
  {
    && nodes.Keys == ents.Keys && [] in nodes && Distinct(nodes)
    && (forall p, key {:trigger Held(nodes, ents, p, key)} :: Held(nodes, ents, p, key))
    && forall p {:trigger Linked(nodes, ents, p)} :: Linked(nodes, ents, p)
  }

  lemma NoChild(nodes: map<Path, Obj>, ents: Contents, p: Path, key: string)
    requires Shape(nodes, ents) && p in nodes && (key in ents[p] ==> ents[p][key].Leaf?)
    ensures Child(p, key) !in nodes
  {
    assert Linked(nodes, ents, Child(p, key));
  }

  lemma NoGrandchild(nodes: map<Path, Obj>, ents: Contents, q: Path)
    requires Shape(nodes, ents) && q != [] && Parent(q) !in nodes
    ensures q !in nodes
  {
    assert Linked(nodes, ents, q);
  }

  lemma SameChild(q: Path, p: Path, key: string)
    requires q != [] && Parent(q) == p && Last(q) == key
    ensures q == Child(p, key)
  {
    assert q == Parent(q) + [Last(q)];
    var c := Child(p, key);
    assert c == Parent(c) + [Last(c)];
  }

  /** A new map under `p`. */
  ghost function WithDir(ents: Contents, p: Path, key: string, sub: Obj): Contents
    requires p in ents
  {
    ents[p := ents[p][key := Sub(sub)]][Child(p, key) := map[]]
  }

  lemma DirShape(nodes: map<Path, Obj>, ents: Contents, p: Path, key: string, sub: Obj)
    requires Shape(nodes, ents) && p in nodes && sub !in nodes.Values
    requires key in ents[p] ==> ents[p][key].Leaf?
    ensures Shape(nodes[Child(p, key) := sub], WithDir(ents, p, key, sub))
  {
    hide Parent, Last, Child;
    NoChild(nodes, ents, p, key);
    var c := Child(p, key);
    var nodes', ents' := nodes[c := sub], WithDir(ents, p, key, sub);
    forall q
      ensures Linked(nodes', ents', q)
    {
      assert Linked(nodes, ents, q);
      if q != [] && Parent(q) == p && Last(q) == key { SameChild(q, p, key); }
      if q != [] && Parent(q) == c { NoGrandchild(nodes, ents, q); }
    }
    forall q, k
      ensures Held(nodes', ents', q, k)
    {
      assert Held(nodes, ents, q, k);
    }
  }

  lemma DirNode(nodes: map<Path, Obj>, ents: Contents, p: Path, key: string, sub: Obj, q: Path)
    requires Shape(nodes, ents) && p in nodes
    requires key in ents[p] ==> ents[p][key].Leaf?
    ensures NodeAt(WithDir(ents, p, key, sub), q) == if q == Child(p, key) then Dir else NodeAt(ents, q)
  {
    hide Parent, Last, Child;
    NoChild(nodes, ents, p, key);
    if q != [] && Parent(q) == p && Last(q) == key { SameChild(q, p, key); }
    if q != [] && Parent(q) == Child(p, key) { NoGrandchild(nodes, ents, q); }
  }

  /** A leaf in place of whatever stood at the slot: the maps below it are gone. */
  ghost function WithLeaf(ents: Contents, p: Path, key: string, val: Val): Contents
    requires p in ents
  {
    map q | q in ents && !(Child(p, key) <= q) :: if q == p then ents[p][key := Leaf(val)] else ents[q]
  }

  ghost function Without(nodes: map<Path, Obj>, c: Path): map<Path, Obj>
  {
    map q | q in nodes && !(c <= q) :: nodes[q]
  }

  lemma Below(c: Path, q: Path)
    requires q != []
    ensures c <= q <==> c == q || c <= Parent(q)
  {
    if c <= q && c != q { assert c == q[..|c|] == Parent(q)[..|c|]; }
    if c <= Parent(q) { assert c == Parent(q)[..|c|] == q[..|c|]; }
  }

  lemma LeafShape(nodes: map<Path, Obj>, ents: Contents, p: Path, key: string, val: Val)
    requires Shape(nodes, ents) && p in nodes
    ensures Shape(Without(nodes, Child(p, key)), WithLeaf(ents, p, key, val))
  {
    hide Parent, Last, Child;
    var c := Child(p, key);
    var nodes', ents' := Without(nodes, c), WithLeaf(ents, p, key, val);
    Below(c, c);
    forall q
      ensures Linked(nodes', ents', q)
    {
      assert Linked(nodes, ents, q);
      if q != [] {
        Below(c, q);
        if Parent(q) == p && Last(q) == key { SameChild(q, p, key); }
      }
    }
    forall q, k
      ensures Held(nodes', ents', q, k)
    {
      assert Held(nodes, ents, q, k);
      Below(c, Child(q, k));
    }
  }

  lemma LeafNode(nodes: map<Path, Obj>, ents: Contents, p: Path, key: string, val: Val, q: Path)
    requires Shape(nodes, ents) && p in nodes
    ensures NodeAt(WithLeaf(ents, p, key, val), q) ==
      var c := Child(p, key); if q != c && q <= c then NodeAt(ents, q) else SetAt(q, NodeAt(ents, q), c, val)
  {
    hide Parent, Last, Child;
    var c := Child(p, key);
    Below(c, c);
    if q != [] {
      Below(c, q);
      if Parent(q) == p && Last(q) == key { SameChild(q, p, key); }
    }
  }

  /** The event: its root map, and for the proof every map by its path. */
  class Tree {
    const root: Obj
    ghost var nodes: map<Path, Obj>
    ghost var ents: Contents

    ghost predicate Valid()
      reads this, nodes.Values
    {
      && Shape(nodes, ents) && nodes[[]] == root
      && forall p :: p in nodes ==> nodes[p].entries == ents[p]
    }

    /** What stands at `q`. */
    ghost function At(q: Path): Node
      reads this
    {
      NodeAt(ents, q)
    }

    constructor ()
      ensures Valid() && fresh(nodes.Values)
      ensures forall q :: At(q) == if q == [] then Dir else Absent
    {
      root := new Obj();
      new;
      nodes, ents := map[[] := root], map[[] := map[]];
    }

    /** curr[key] = make(map[string]any), where no map was. */
    method MakeDir(ghost p: Path, curr: Obj, key: string) returns (sub: Obj)
      requires Valid() && p in nodes && nodes[p] == curr
      requires key in curr.entries ==> curr.entries[key].Leaf?
      modifies this`nodes, this`ents, curr
      ensures Valid() && fresh(sub) && nodes == old(nodes)[Child(p, key) := sub]
      ensures forall q :: At(q) == if q == Child(p, key) then Dir else old(At(q))
    {
      hide Shape, Held, Linked, Child, NodeAt;
      ShapeKeys(nodes, ents);
      sub := new Obj();
      DirShape(nodes, ents, p, key, sub);
      NoChild(nodes, ents, p, key);
      forall q ensures NodeAt(WithDir(ents, p, key, sub), q) == if q == Child(p, key) then Dir else NodeAt(ents, q) {
        DirNode(nodes, ents, p, key, sub, q);
      }
      curr.entries := curr.entries[key := Sub(sub)];
      nodes, ents := nodes[Child(p, key) := sub], WithDir(ents, p, key, sub);
    }

    /** curr[key] = val. */
    method PutLeaf(ghost p: Path, curr: Obj, key: string, val: Val)
      requires Valid() && p in nodes && nodes[p] == curr
      modifies this`nodes, this`ents, curr
      ensures Valid() && nodes.Values <= old(nodes.Values)
      ensures forall q :: At(q) == var c := Child(p, key);
        if q != c && q <= c then old(At(q)) else SetAt(q, old(At(q)), c, val)
    {
      hide Shape, Held, Linked, Child, NodeAt;
      ShapeKeys(nodes, ents);
      LeafShape(nodes, ents, p, key, val);
      forall q ensures NodeAt(WithLeaf(ents, p, key, val), q) == var c := Child(p, key);
        if q != c && q <= c then NodeAt(ents, q) else SetAt(q, NodeAt(ents, q), c, val)
      {
        LeafNode(nodes, ents, p, key, val, q);
      }
      RootStays(nodes, p, key);
      curr.entries := curr.entries[key := Leaf(val)];
      nodes, ents := Without(nodes, Child(p, key)), WithLeaf(ents, p, key, val);
    }

    /** One turn of the loop: the map at the key, made anew in place of a value. */
    method Descend(ghost p: Path, curr: Obj, key: string) returns (sub: Obj)
      requires Valid() && p in nodes && nodes[p] == curr
      modifies this`nodes, this`ents, curr
      ensures Valid() && (nodes == old(nodes) || (fresh(sub) && nodes == old(nodes)[Child(p, key) := sub]))
      ensures Child(p, key) in nodes && nodes[Child(p, key)] == sub
      ensures forall q :: At(q) == if q == Child(p, key) then Dir else old(At(q))
    {
      hide Linked, Child, NodeAt;
      if key in curr.entries && curr.entries[key].Sub? {
        sub := curr.entries[key].obj;
        assert Held(nodes, ents, p, key);
        DirAt(ents, Child(p, key));
      } else {
        sub := MakeDir(p, curr, key);
      }
    }

    /** setNestedValue. */
    method SetNested(path: Path, val: Val)
      requires Valid() && path != []
      modifies this`nodes, this`ents, nodes.Values
      ensures Valid() && fresh(nodes.Values - old(nodes.Values))
      ensures forall q :: At(q) == SetAt(q, old(At(q)), path, val)
    {
      hide Shape, NodeAt, Child;
      var curr, i := root, 0;
      ShapeKeys(nodes, ents);
      DirAt(ents, []);
      while i < |path| - 1
        invariant 0 <= i < |path| && Valid() && fresh(nodes.Values - old(nodes.Values))
        invariant path[..i] in nodes && nodes[path[..i]] == curr
        invariant forall q :: At(q) == if OnWay(q, path[..i]) then Dir else old(At(q))
      {
        PathStep(path, i);
        curr := Descend(path[..i], curr, path[i]);
        i := i + 1;
      }
      PathStep(path, i);
      PutLeaf(path[..i], curr, path[i], val);
    }

    /** The walk of LookupNested; a mapped value is never looked into. */
    method Walk(path: Path) returns (r: Node)
      requires Valid()
      ensures r == At(path)
    {
      hide Shape, NodeAt, Child;
      var current, i := Sub(root), 0;
      ShapeKeys(nodes, ents);
      assert path[..0] == [];
      while i < |path|
        invariant 0 <= i <= |path|
        invariant current.Sub? ==> path[..i] in nodes && nodes[path[..i]] == current.obj
        invariant current.Leaf? ==> path[..i] !in nodes && At(path[..i]) == Value(current.val)
      {
        PathStep(path, i);
        StepAt(nodes, ents, path[..i], path[i]);
        if current.Leaf? || path[i] !in current.obj.entries {
          NothingBelow(nodes, ents, path[..i + 1], path);
          return Absent;
        }
        current := current.obj.entries[path[i]];
        i := i + 1;
      }
      assert path[..i] == path;
      if current.Leaf? { return Value(current.val); }
      DirAt(ents, path);
      r := Dir;
    }

    /** One key of the root map. */
    method Top(key: string) returns (r: Node)
      requires Valid()
      ensures r == At([key])
    {
      hide Shape, NodeAt, Child;
      ShapeKeys(nodes, ents);
      StepAt(nodes, ents, [], key);
      assert Child([], key) == [key] by { SameChild([key], [], key); }
      if key !in root.entries { return Absent; }
      if root.entries[key].Leaf? { return Value(root.entries[key].val); }
      DirAt(ents, [key]);
      r := Dir;
    }

    /** event[key] = val. */
    method SetTop(key: string, val: Val)
      requires Valid()
      modifies this`nodes, this`ents, nodes.Values
      ensures Valid() && nodes.Values <= old(nodes.Values)
      ensures forall q :: At(q) == SetAt(q, old(At(q)), [key], val)
    {
      hide Shape, NodeAt, Child;
      ShapeKeys(nodes, ents);
      assert Child([], key) == [key] by { SameChild([key], [], key); }
      DirAt(ents, []);
      PutLeaf([], root, key, val);
    }

    /** LookupNested: the whole path as one key first, then part by part. */
    method LookupNested(path: string) returns (r: Node)
      requires Valid()
      ensures r == if path == "" then Absent else Found(At([path]), At(SplitDots(path)))
    {
      if path == "" { return Absent; }
      r := Top(path);
      if r.Absent? { r := Walk(SplitDots(path)); }
    }
  }

  function Found(whole: Node, parts: Node): Node { if whole.Absent? then parts else whole }

  /** What stands one step further. */
  lemma StepAt(nodes: map<Path, Obj>, ents: Contents, p: Path, key: string)
    requires Shape(nodes, ents)
    ensures var c := Child(p, key);
      if p !in nodes || key !in ents[p] then c !in nodes && NodeAt(ents, c) == Absent
      else if ents[p][key].Sub? then c in nodes && nodes[c] == ents[p][key].obj
      else c !in nodes && NodeAt(ents, c) == Value(ents[p][key].val)
  {
    assert Held(nodes, ents, p, key);
    assert Linked(nodes, ents, Child(p, key));
  }

  /** Under a path with no map there is nothing. */
  lemma {:induction false} NothingBelow(nodes: map<Path, Obj>, ents: Contents, p: Path, q: Path)
    requires Shape(nodes, ents) && p !in nodes && NodeAt(ents, p) == Absent && p <= q
    ensures q !in nodes && NodeAt(ents, q) == Absent
    decreases |q|
  {
    if p != q {
      Below(p, q);
      NothingBelow(nodes, ents, p, Parent(q));
      assert Linked(nodes, ents, q);
    }
  }

  lemma DirAt(ents: Contents, p: Path)
    requires p in ents
    ensures NodeAt(ents, p) == Dir
  {
  }

  lemma PathStep(path: Path, i: nat)
    requires i < |path|
    ensures Child(path[..i], path[i]) == path[..i + 1] && (i + 1 == |path| ==> path[..i + 1] == path)
    ensures forall q :: OnWay(q, path[..i + 1]) <==> OnWay(q, path[..i]) || q == path[..i + 1]
  {
    assert path[..i + 1] == path[..i] + [path[i]];
    forall q
      ensures OnWay(q, path[..i + 1]) <==> OnWay(q, path[..i]) || q == path[..i + 1]
    {
      if q <= path[..i + 1] && |q| <= i { assert q == path[..i + 1][..|q|] == path[..i][..|q|]; }
      if q <= path[..i] { assert q == path[..i][..|q|] == path[..i + 1][..|q|]; }
    }
  }

  lemma ShapeKeys(nodes: map<Path, Obj>, ents: Contents)
    requires Shape(nodes, ents)
    ensures nodes.Keys == ents.Keys && Distinct(nodes) && [] in nodes
  {
  }

  lemma RootStays(nodes: map<Path, Obj>, p: Path, key: string)
    requires [] in nodes
    ensures [] in Without(nodes, Child(p, key)) && Without(nodes, Child(p, key))[[]] == nodes[[]]
  {
  }
}
