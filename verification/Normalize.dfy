/** Normalize: the mapped values, then the defaults (normalizer.go:49-76, 164-275; pack.go:186-196;
    schema.go:8-15).  The map of a pack is walked in any order. */
module Normalize {
  import opened Wrappers
  import opened Text
  import opened EventTree

  // ----- the targets of the pinned OCSF schema

  function Singles(): seq<string>
  {
    ["time", "category_name", "class_name", "message", "action", "activity_name", "status", "severity_id"]
  }

  function Pairs(): seq<(string, string)>
  {
    [("src_endpoint", "ip"), ("src_endpoint", "port"), ("dst_endpoint", "ip"), ("dst_endpoint", "port"),
     ("device", "hostname"), ("finding_info", "title"), ("http_request", "http_method"),
     ("http_request", "user_agent"), ("http_request", "version"), ("http_response", "status_code"),
     ("service", "name"), ("traffic", "bytes_in"), ("traffic", "bytes_out"), ("dst_endpoint", "hostname"),
     ("transaction", "id"), ("transaction", "amount"), ("transaction", "currency")]
  }

  function Triples(): seq<(string, string, string)>
  {
    [("actor", "user", "name"), ("actor", "user", "uid"), ("http_request", "url", "path")]
  }

  predicate Target(p: Path)
  {
    || (|p| == 1 && p[0] in Singles())
    || (|p| == 2 && (p[0], p[1]) in Pairs())
    || (|p| == 3 && (p[0], p[1], p[2]) in Triples())
  }

  predicate TargetAllowed(path: string) { Target(SplitDots(path)) }

  /** What tells the first parts apart: length and first byte. */
  predicate SingleHead(s: string)
  {
    s != "" && (|s|, s[0]) in {(4, 't'), (13, 'c'), (10, 'c'), (7, 'm'), (6, 'a'), (13, 'a'), (6, 's'), (11, 's')}
  }

  predicate GroupHead(s: string)
  {
    s != "" && (|s|, s[0]) in {(12, 's'), (12, 'd'), (5, 'a'), (6, 'd'), (12, 'f'), (12, 'h'), (13, 'h'), (7, 's'),
                               (7, 't'), (11, 't')}
  }

  lemma SinglesForm(a: string)
    requires a in Singles()
    ensures SingleHead(a)
  {
  }

  lemma PairsForm(a: string, b: string)
    requires (a, b) in Pairs()
    ensures GroupHead(a) && a[0] != 'a' && b != "url"
  {
  }

  lemma TriplesForm(a: string, b: string, c: string)
    requires (a, b, c) in Triples()
    ensures GroupHead(a) && (a[0] == 'a' || b == "url")
  {
  }

  /** No target stands in the way of another. */
  lemma PrefixFree(a: Path, b: Path)
    requires Target(a) && Target(b) && a <= b
    ensures a == b
  {
    hide Singles, Pairs, Triples;
    if |a| < |b| {
      assert a[0] == b[0];
      if |a| == 1 { SinglesForm(a[0]); } else { PairsForm(a[0], a[1]); assert a[1] == b[1]; }
      if |b| == 2 { PairsForm(b[0], b[1]); } else { TriplesForm(b[0], b[1], b[2]); }
      assert false;
    }
  }

  // ----- the mapped values

  /** spec.map after Validate: every target is governed by the schema. */
  predicate Validated(m: map<string, string>)
  {
    forall src :: src in m ==> HasPrefix(m[src], "event.") && TargetAllowed(TrimPrefix(m[src], "event."))
  }

  function PathOf(m: map<string, string>, src: string): (p: Path)
    requires src in m
    ensures p != []
  {
    SplitDots(TrimPrefix(m[src], "event."))
  }

  /** The sources that have a value to map. */
  predicate Active(m: map<string, string>, x: map<string, Val>, src: string)
  {
    src in m && src in x && !x[src].Nil?
  }

  /** What stands at each path. */
  type View = Path -> Node

  function Empty(): View { q => if q == [] then Dir else Absent }

  function SetView(v: View, path: Path, val: Val): View { q => SetAt(q, v(q), path, val) }

  /** The event after mapping the sources in this order. */
  function Build(order: seq<string>, m: map<string, string>, x: map<string, Val>): View
  {
    if order == [] then Empty()
    else
      var src := order[|order| - 1];
      var v := Build(order[..|order| - 1], m, x);
      if Active(m, x, src) then SetView(v, PathOf(m, src), x[src]) else v
  }

  /** Why `node` stands at `q`, in terms of the set of sources only. */
  ghost predicate Explains(srcs: set<string>, m: map<string, string>, x: map<string, Val>, q: Path, node: Node)
  {
    match node
    case Value(val) => exists src :: src in srcs && Active(m, x, src) && PathOf(m, src) == q && x[src] == val
    case Dir => q == [] || exists src :: src in srcs && Active(m, x, src) && q < PathOf(m, src)
    case Absent => q != [] && forall src :: src in srcs && Active(m, x, src) ==> !(q <= PathOf(m, src))
  }

  function Elements(order: seq<string>): set<string> { set s | s in order }

  lemma ElementsLast(order: seq<string>)
    requires order != []
    ensures Elements(order) == Elements(order[..|order| - 1]) + {order[|order| - 1]}
  {
    assert order == order[..|order| - 1] + [order[|order| - 1]];
  }

  lemma TargetOf(m: map<string, string>, src: string)
    requires Validated(m) && src in m
    ensures Target(PathOf(m, src))
  {
  }

  /** Nothing is mapped below a target. */
  lemma NothingBeyond(m: map<string, string>, src: string, q: Path, other: string)
    requires Validated(m) && src in m && other in m && PathOf(m, src) <= q && q != PathOf(m, src)
    ensures !(q <= PathOf(m, other))
  {
    hide Validated, Target, PathOf;
    TargetOf(m, src);
    TargetOf(m, other);
    if q <= PathOf(m, other) {
      Chain(PathOf(m, src), q, PathOf(m, other));
      PrefixFree(PathOf(m, src), PathOf(m, other));
    }
  }

  lemma ExplainsMore(srcs: set<string>, m: map<string, string>, x: map<string, Val>, src: string, q: Path, before: Node)
    requires Validated(m) && Active(m, x, src) && Explains(srcs, m, x, q, before)
    ensures Explains(srcs + {src}, m, x, q, SetAt(q, before, PathOf(m, src), x[src]))
  {
    hide Validated, PathOf;
    var path := PathOf(m, src);
    if q != path && path <= q {
      forall other | other in srcs + {src} && Active(m, x, other)
        ensures !(q <= PathOf(m, other))
      {
        NothingBeyond(m, src, q, other);
      }
    }
  }

  lemma Chain(a: Path, b: Path, c: Path)
    requires a <= b <= c
    ensures a <= c && (a == c ==> a == b)
  {
  }

  lemma {:induction false} BuildExplained(order: seq<string>, m: map<string, string>, x: map<string, Val>, q: Path)
    requires Validated(m)
    ensures Explains(Elements(order), m, x, q, Build(order, m, x)(q))
    decreases |order|
  {
    hide Validated, PathOf;
    if order != [] {
      var src, before := order[|order| - 1], order[..|order| - 1];
      ElementsLast(order);
      BuildExplained(before, m, x, q);
      if Active(m, x, src) {
        ExplainsMore(Elements(before), m, x, src, q, Build(before, m, x)(q));
      } else {
        ExplainsInactive(Elements(before), m, x, src, q, Build(before, m, x)(q));
      }
    }
  }

  lemma ExplainsInactive(srcs: set<string>, m: map<string, string>, x: map<string, Val>, src: string, q: Path,
                         node: Node)
    requires !Active(m, x, src) && Explains(srcs, m, x, q, node)
    ensures Explains(srcs + {src}, m, x, q, node)
  {
  }

  /** Sources that share a target have the same value. */
  ghost predicate Consistent(m: map<string, string>, x: map<string, Val>)
  {
    forall a, b :: Active(m, x, a) && Active(m, x, b) && PathOf(m, a) == PathOf(m, b) ==> x[a] == x[b]
  }

  lemma OneExplanation(srcs: set<string>, m: map<string, string>, x: map<string, Val>, q: Path, n1: Node, n2: Node)
    requires Validated(m) && Consistent(m, x)
    requires Explains(srcs, m, x, q, n1) && Explains(srcs, m, x, q, n2)
    ensures n1 == n2
  {
    hide Validated, Target, HasPrefix, TrimPrefix;
    if n1.Value? && n2.Dir? { NotBoth(srcs, m, x, q, n1, n2); }
    if n2.Value? && n1.Dir? { NotBoth(srcs, m, x, q, n2, n1); }
  }

  lemma NotBoth(srcs: set<string>, m: map<string, string>, x: map<string, Val>, q: Path, val: Node, dir: Node)
    requires Validated(m) && val.Value? && dir.Dir?
    requires Explains(srcs, m, x, q, val)
    ensures !Explains(srcs, m, x, q, dir)
  {
    hide Validated, Target, HasPrefix, TrimPrefix;
    var a :| a in srcs && Active(m, x, a) && PathOf(m, a) == q && x[a] == val.val;
    TargetOf(m, a);
    forall b | b in srcs && Active(m, x, b)
      ensures !(q < PathOf(m, b))
    {
      TargetOf(m, b);
      if q < PathOf(m, b) { PrefixFree(q, PathOf(m, b)); }
    }
  }

  /** An iteration of the map: every key once, in any order. */
  ghost predicate Order(order: seq<string>, m: map<string, string>)
  {
    Elements(order) == m.Keys && forall i, j :: 0 <= i < j < |order| ==> order[i] != order[j]
  }

  ghost predicate SameView(v: View, w: View) { forall q :: v(q) == w(q) }

  lemma SameTree(o1: seq<string>, o2: seq<string>, m: map<string, string>, x: map<string, Val>)
    requires Validated(m) && Consistent(m, x) && Order(o1, m) && Order(o2, m)
    ensures SameView(Build(o1, m, x), Build(o2, m, x))
  {
    hide Validated, Consistent, Build, Explains;
    forall q
      ensures Build(o1, m, x)(q) == Build(o2, m, x)(q)
    {
      BuildExplained(o1, m, x, q);
      BuildExplained(o2, m, x, q);
      OneExplanation(m.Keys, m, x, q, Build(o1, m, x)(q), Build(o2, m, x)(q));
    }
  }

  lemma {:induction false} SomeOrder(keys: set<string>) returns (order: seq<string>)
    ensures Elements(order) == keys && forall i, j :: 0 <= i < j < |order| ==> order[i] != order[j]
    decreases keys
  {
    if keys == {} {
      order := [];
    } else {
      var k :| k in keys;
      order := SomeOrder(keys - {k});
      assert k !in order by { assert k !in Elements(order); }
      ghost var before := order;
      order := order + [k];
      ElementsLast(order);
      assert order[..|order| - 1] == before;
    }
  }

  /** An order in which `src` comes last, so that its value stays. */
  lemma LastOrder(m: map<string, string>, x: map<string, Val>, src: string) returns (order: seq<string>)
    requires Active(m, x, src)
    ensures Order(order, m) && Build(order, m, x)(PathOf(m, src)) == Value(x[src])
  {
    var before := SomeOrder(m.Keys - {src});
    assert src !in before by { assert src !in Elements(before); }
    order := before + [src];
    assert order[..|order| - 1] == before;
    ElementsLast(order);
    assert Elements(order) == m.Keys;
    var v := Build(before, m, x);
    assert Build(order, m, x) == SetView(v, PathOf(m, src), x[src]);
    var p := PathOf(m, src);
    assert SetView(v, p, x[src])(p) == SetAt(p, v(p), p, x[src]);
  }

  /** Order independence, exactly: every iteration order gives the same event if and only if the
      sources that share a target have the same value. */
  lemma OrderIndependence(m: map<string, string>, x: map<string, Val>)
    requires Validated(m)
    ensures (forall o1, o2 :: Order(o1, m) && Order(o2, m) ==> SameView(Build(o1, m, x), Build(o2, m, x))) <==>
      Consistent(m, x)
  {
    hide Build, Validated, PathOf;
    if Consistent(m, x) {
      forall o1, o2 | Order(o1, m) && Order(o2, m)
        ensures SameView(Build(o1, m, x), Build(o2, m, x))
      {
        SameTree(o1, o2, m, x);
      }
    } else {
      var a, b :| Active(m, x, a) && Active(m, x, b) && PathOf(m, a) == PathOf(m, b) && x[a] != x[b];
      var o1 := LastOrder(m, x, a);
      var o2 := LastOrder(m, x, b);
      assert Build(o1, m, x)(PathOf(m, a)) != Build(o2, m, x)(PathOf(m, a));
    }
  }

  /** Every mapped value stands at its path. */
  lemma MappedStands(order: seq<string>, m: map<string, string>, x: map<string, Val>, src: string)
    requires Validated(m) && Consistent(m, x) && Order(order, m) && Active(m, x, src)
    ensures Build(order, m, x)(PathOf(m, src)) == Value(x[src])
  {
    hide Validated, Build, PathOf;
    var q := PathOf(m, src);
    BuildExplained(order, m, x, q);
    OneExplanation(m.Keys, m, x, q, Build(order, m, x)(q), Value(x[src]));
  }

  // ----- the defaults

  /** enrichTaxonomyDefaults. */
  function Defaults(category: string): seq<(string, string)>
  {
    if category == "network_device" then Taxa("Network Activity", "Network Activity", "Network Activity: Traffic")
    else if category == "server" then Taxa("Application Activity", "HTTP Activity", "HTTP Activity: HTTP Request")
    else if category == "os" then Taxa("Authentication", "Authentication", "Authentication: Logon")
    else if category == "endpoint" then Taxa("Findings", "Security Finding", "Security Finding: Alert")
    else if category == "application" then
      Taxa("Application Activity", "Application Activity", "Application Activity: Generic")
    else if category == "database" then Taxa("System Activity", "Database Activity", "Database Activity: Query")
    else if category == "cloud" then Taxa("Cloud Activity", "API Activity", "Cloud Activity: API Call")
    else if category == "container" then
      Taxa("System Activity", "Container Lifecycle", "Container Activity: Lifecycle")
    else if category == "iam" then
      Taxa("Identity & Access Management", "Account Change", "IAM: Account Modification")
    else if category == "iot" then Taxa("Device Activity", "Device Status", "Device Activity: Status Report")
    else if category == "other" then Taxa("Other Activity", "Base Event", "Other: Generic")
    else []
  }

  function Taxa(category: string, class_: string, type_: string): (d: seq<(string, string)>)
    ensures |d| == 3
  {
    [("category_name", category), ("class_name", class_), ("type_name", type_)]
  }

  function DefaultView(v: View, key: string, val: string): View
  {
    if v([key]).Absent? then SetView(v, [key], Of(val)) else v
  }

  function DefaultsView(v: View, defaults: seq<(string, string)>): View
  {
    if defaults == [] then v else DefaultsView(DefaultView(v, defaults[0].0, defaults[0].1), defaults[1..])
  }

  predicate Unset(node: Node) { node.Absent? || node == Value(Nil) }

  function TimeView(v: View, time: string): View
  {
    if Unset(v(["time"])) then SetView(v, ["time"], Of(time)) else v
  }

  /** Time, unmapped fields, taxonomy. */
  function Finish(v: View, time: string, unmapped: Option<Val>, category: string): View
  {
    var v1 := TimeView(v, time);
    var v2 := if unmapped.Some? then SetView(v1, ["unmapped"], unmapped.value) else v1;
    DefaultsView(v2, Defaults(category))
  }

  /** The map loop. */
  method MapFields(order: seq<string>, m: map<string, string>, x: map<string, Val>) returns (event: Tree)
    ensures fresh(event) && fresh(event.nodes.Values) && event.Valid()
    ensures forall q :: event.At(q) == Build(order, m, x)(q)
  {
    hide Tree.Valid, Tree.At, PathOf, Build;
    event := new Tree();
    var i := 0;
    BuildNone(m, x);
    assert order[..0] == [];
    while i < |order|
      invariant i <= |order| && event.Valid() && fresh(event) && fresh(event.nodes.Values)
      invariant forall q :: event.At(q) == Build(order[..i], m, x)(q)
    {
      var src := order[i];
      BuildNext(order, i, m, x);
      if src in m && src in x && !x[src].Nil? { event.SetNested(PathOf(m, src), x[src]); }
      i := i + 1;
    }
    assert order[..i] == order;
  }

  lemma BuildNone(m: map<string, string>, x: map<string, Val>)
    ensures Build([], m, x) == Empty()
  {
  }

  lemma BuildNext(order: seq<string>, i: nat, m: map<string, string>, x: map<string, Val>)
    requires i < |order|
    ensures Build(order[..i + 1], m, x) ==
      if Active(m, x, order[i]) then SetView(Build(order[..i], m, x), PathOf(m, order[i]), x[order[i]])
      else Build(order[..i], m, x)
  {
    assert order[..i + 1][..i] == order[..i];
  }

  /** Normalize, as far as it builds the event.  The receive time is a parameter; `unmapped` is there
      when the pack preserves unmapped fields and some are left. */
  method Normalize(order: seq<string>, m: map<string, string>, x: map<string, Val>, time: string,
                   unmapped: Option<Val>, category: string) returns (event: Tree)
    ensures fresh(event) && event.Valid()
    ensures forall q :: event.At(q) == Finish(Build(order, m, x), time, unmapped, category)(q)
  {
    hide Tree.Valid, Tree.At, Defaults, Build, DefaultsView;
    event := MapFields(order, m, x);
    ghost var v := Build(order, m, x);
    var t := event.Top("time");
    if t.Absent? || t == Value(Nil) {
      event.SetTop("time", Of(time));
      v := SetView(v, ["time"], Of(time));
    }
    if unmapped.Some? {
      event.SetTop("unmapped", unmapped.value);
      v := SetView(v, ["unmapped"], unmapped.value);
    }
    Enrich(event, category, v);
  }

  method Enrich(event: Tree, category: string, ghost v: View)
    requires event.Valid() && forall q :: event.At(q) == v(q)
    modifies event, event.nodes.Values
    ensures event.Valid()
    ensures forall q :: event.At(q) == DefaultsView(v, Defaults(category))(q)
  {
    hide Tree.Valid, Tree.At, Defaults;
    var defaults, i := Defaults(category), 0;
    ghost var w := v;
    while i < |defaults|
      invariant i <= |defaults| && event.Valid() && event.nodes.Values <= old(event.nodes.Values)
      invariant DefaultsView(v, defaults) == DefaultsView(w, defaults[i..])
      invariant forall q :: event.At(q) == w(q)
    {
      var d := defaults[i];
      assert defaults[i..][0] == d && defaults[i..][1..] == defaults[i + 1..];
      var t := event.Top(d.0);
      if t.Absent? { event.SetTop(d.0, Of(d.1)); }
      w := DefaultView(w, d.0, d.1);
      i := i + 1;
    }
  }

  // ----- the defaults never overwrite a mapped value

  /** Whatever stands below a top key stands in a map. */
  ghost predicate Rooted(v: View)
  {
    forall q :: |q| > 1 && !v(q).Absent? ==> v(q[..1]).Dir?
  }

  lemma SetRooted(v: View, path: Path, val: Val)
    requires Rooted(v) && path != []
    ensures Rooted(SetView(v, path, val))
  {
    var w := SetView(v, path, val);
    forall q | |q| > 1 && !w(q).Absent?
      ensures w(q[..1]).Dir?
    {
      assert w(q) == SetAt(q, v(q), path, val) && w(q[..1]) == SetAt(q[..1], v(q[..1]), path, val);
      if q <= path { assert q[..1] == path[..1]; }
    }
  }

  lemma {:induction false} BuildRooted(order: seq<string>, m: map<string, string>, x: map<string, Val>)
    ensures Rooted(Build(order, m, x))
    decreases |order|
  {
    hide PathOf, Rooted;
    if order == [] {
      EmptyRooted();
    } else {
      var src, before := order[|order| - 1], order[..|order| - 1];
      BuildRooted(before, m, x);
      if Active(m, x, src) { SetRooted(Build(before, m, x), PathOf(m, src), x[src]); }
    }
  }

  lemma EmptyRooted()
    ensures Rooted(Empty())
  {
  }

  /** A top key that is set changes nothing outside itself and what stood below it. */
  lemma SetElsewhere(v: View, key: string, val: Val, q: Path)
    requires q != [] && q[0] != key
    ensures SetView(v, [key], val)(q) == v(q)
  {
  }

  lemma TopStands(v: View, key: string, q: Path)
    requires Rooted(v) && q != [] && q[0] == key && !v(q).Absent?
    ensures q == [key] || v([key]).Dir?
  {
    assert q[..1] == [key];
    if |q| == 1 { assert q == [key]; }
  }

  /** A default keeps every value that stands. */
  lemma DefaultKeeps(v: View, key: string, val: string, q: Path)
    requires Rooted(v) && q != [] && v(q).Value?
    ensures DefaultView(v, key, val)(q) == v(q) && Rooted(DefaultView(v, key, val))
  {
    SetRooted(v, [key], Of(val));
    if q[0] == key { TopStands(v, key, q); } else { SetElsewhere(v, key, Of(val), q); }
  }

  lemma {:induction false} DefaultsKeep(v: View, defaults: seq<(string, string)>, q: Path)
    requires Rooted(v) && q != [] && v(q).Value?
    ensures DefaultsView(v, defaults)(q) == v(q)
    decreases |defaults|
  {
    hide Rooted, DefaultView;
    if defaults != [] {
      DefaultKeeps(v, defaults[0].0, defaults[0].1, q);
      DefaultsKeep(DefaultView(v, defaults[0].0, defaults[0].1), defaults[1..], q);
    }
  }

  lemma NotUnmapped(p: Path)
    requires Target(p)
    ensures p[0] != "unmapped"
  {
    hide Singles, Pairs, Triples;
    if |p| == 1 { SinglesForm(p[0]); }
    else if |p| == 2 { PairsForm(p[0], p[1]); }
    else { TriplesForm(p[0], p[1], p[2]); }
  }

  /** Time, unmapped and taxonomy keep every value at a target. */
  lemma FinishKeeps(v: View, time: string, unmapped: Option<Val>, category: string, q: Path)
    requires Rooted(v) && Target(q) && v(q).Value? && v(q) != Value(Nil)
    ensures Finish(v, time, unmapped, category)(q) == v(q)
  {
    hide Target, Rooted, Defaults, DefaultsView;
    assert q != [] by { TargetNotEmpty(q); }
    var v1 := TimeView(v, time);
    TimeKeeps(v, time, q);
    NotUnmapped(q);
    var v2 := v1;
    if unmapped.Some? {
      SetElsewhere(v1, "unmapped", unmapped.value, q);
      SetRooted(v1, ["unmapped"], unmapped.value);
      v2 := SetView(v1, ["unmapped"], unmapped.value);
    }
    DefaultsKeep(v2, Defaults(category), q);
  }

  lemma TargetNotEmpty(q: Path)
    requires Target(q)
    ensures q != []
  {
  }

  lemma TimeKeeps(v: View, time: string, q: Path)
    requires Rooted(v) && q != [] && v(q).Value? && v(q) != Value(Nil)
    ensures TimeView(v, time)(q) == v(q) && Rooted(TimeView(v, time))
  {
    SetRooted(v, ["time"], Of(time));
    if q[0] == "time" {
      TopStands(v, "time", q);
    } else {
      SetElsewhere(v, "time", Of(time), q);
    }
  }

  /** The receive time stands in the event exactly when no time was mapped. */
  lemma FinishTime(v: View, time: string, unmapped: Option<Val>, category: string)
    requires Rooted(v) && !v(["time"]).Dir?
    ensures Finish(v, time, unmapped, category)(["time"]) == if Unset(v(["time"])) then Value(Of(time)) else v(["time"])
  {
    hide Rooted, Defaults, DefaultsView;
    var v1 := TimeView(v, time);
    SetRooted(v, ["time"], Of(time));
    var v2 := v1;
    if unmapped.Some? {
      assert |"time"| != |"unmapped"|;
      SetElsewhere(v1, "unmapped", unmapped.value, ["time"]);
      SetRooted(v1, ["unmapped"], unmapped.value);
      v2 := SetView(v1, ["unmapped"], unmapped.value);
    }
    DefaultsKeep(v2, Defaults(category), ["time"]);
  }

  /** Every mapped value is in the finished event. */
  lemma MappedKept(order: seq<string>, m: map<string, string>, x: map<string, Val>, time: string,
                   unmapped: Option<Val>, category: string, src: string)
    requires Validated(m) && Consistent(m, x) && Order(order, m) && Active(m, x, src)
    ensures Finish(Build(order, m, x), time, unmapped, category)(PathOf(m, src)) == Value(x[src])
  {
    hide Validated, Consistent, Order, Build, PathOf, Finish, Target;
    MappedStands(order, m, x, src);
    BuildRooted(order, m, x);
    TargetOf(m, src);
    FinishKeeps(Build(order, m, x), time, unmapped, category, PathOf(m, src));
  }

  /** The finished event does not depend on the iteration order either. */
  lemma FinishSame(v: View, w: View, time: string, unmapped: Option<Val>, category: string)
    requires SameView(v, w)
    ensures SameView(Finish(v, time, unmapped, category), Finish(w, time, unmapped, category))
  {
    hide Defaults, DefaultsView;
    assert v(["time"]) == w(["time"]);
    var v1, w1 := TimeView(v, time), TimeView(w, time);
    assert SameView(v1, w1);
    var v2 := if unmapped.Some? then SetView(v1, ["unmapped"], unmapped.value) else v1;
    var w2 := if unmapped.Some? then SetView(w1, ["unmapped"], unmapped.value) else w1;
    assert SameView(v2, w2);
    DefaultsSame(v2, w2, Defaults(category));
    assert Finish(v, time, unmapped, category) == DefaultsView(v2, Defaults(category));
    assert Finish(w, time, unmapped, category) == DefaultsView(w2, Defaults(category));
  }

  lemma {:induction false} DefaultsSame(v: View, w: View, defaults: seq<(string, string)>)
    requires SameView(v, w)
    ensures SameView(DefaultsView(v, defaults), DefaultsView(w, defaults))
    decreases |defaults|
  {
    if defaults != [] {
      var key, val := defaults[0].0, defaults[0].1;
      assert v([key]) == w([key]);
      assert SameView(DefaultView(v, key, val), DefaultView(w, key, val));
      DefaultsSame(DefaultView(v, key, val), DefaultView(w, key, val), defaults[1..]);
    }
  }

  // ----- found by LookupNested

  /** No key of the finished event but the mapped parts and the defaults: none holds a dot. */
  lemma NoDottedKey(order: seq<string>, m: map<string, string>, x: map<string, Val>, time: string,
                    unmapped: Option<Val>, category: string, key: string)
    requires Validated(m) && '.' in key
    ensures Finish(Build(order, m, x), time, unmapped, category)([key]).Absent?
  {
    hide Validated, PathOf, Build, Active;
    var v, q := Build(order, m, x), [key];
    BuildExplained(order, m, x, q);
    forall src | src in m
      ensures !(q <= PathOf(m, src))
    {
      PathParts(m, src);
      OtherHead(key, PathOf(m, src));
    }
    assert v(q).Absent? by { NothingAt(Elements(order), m, x, q, v(q)); }
    FinishElsewhere(v, time, unmapped, category, key);
  }

  lemma OtherHead(key: string, p: Path)
    requires p != [] && p[0] != key
    ensures !([key] <= p)
  {
  }

  lemma NothingAt(srcs: set<string>, m: map<string, string>, x: map<string, Val>, q: Path, node: Node)
    requires Explains(srcs, m, x, q, node) && q != [] && forall src :: src in m ==> !(q <= PathOf(m, src))
    ensures node == Absent
  {
  }

  lemma PathParts(m: map<string, string>, src: string)
    requires src in m
    ensures forall i :: 0 <= i < |PathOf(m, src)| ==> '.' !in PathOf(m, src)[i]
  {
    SplitParts(TrimPrefix(m[src], "event."));
  }

  lemma FinishElsewhere(v: View, time: string, unmapped: Option<Val>, category: string, key: string)
    requires '.' in key
    ensures Finish(v, time, unmapped, category)([key]) == v([key])
  {
    hide DefaultsView, Defaults;
    var q := [key];
    assert '.' !in "time" && '.' !in "unmapped";
    SetElsewhere(v, "time", Of(time), q);
    var v1 := TimeView(v, time);
    if unmapped.Some? { SetElsewhere(v1, "unmapped", unmapped.value, q); }
    var v2 := if unmapped.Some? then SetView(v1, ["unmapped"], unmapped.value) else v1;
    DefaultKeys(category);
    DefaultsElsewhere(v2, Defaults(category), key);
  }

  lemma DefaultKeys(category: string)
    ensures forall i :: 0 <= i < |Defaults(category)| ==>
      Defaults(category)[i].0 in ["category_name", "class_name", "type_name"]
  {
  }

  lemma {:induction false} DefaultsElsewhere(v: View, defaults: seq<(string, string)>, key: string)
    requires '.' in key && forall i :: 0 <= i < |defaults| ==>
      defaults[i].0 in ["category_name", "class_name", "type_name"]
    ensures DefaultsView(v, defaults)([key]) == v([key])
    decreases |defaults|
  {
    if defaults != [] {
      assert '.' !in "category_name" && '.' !in "class_name" && '.' !in "type_name";
      SetElsewhere(v, defaults[0].0, Of(defaults[0].1), [key]);
      DefaultsElsewhere(DefaultView(v, defaults[0].0, defaults[0].1), defaults[1..], key);
    }
  }

  /** Looking up a mapped target in the finished event gives the mapped value. */
  lemma MappedFound(order: seq<string>, m: map<string, string>, x: map<string, Val>, time: string,
                    unmapped: Option<Val>, category: string, src: string)
    requires Validated(m) && Consistent(m, x) && Order(order, m) && Active(m, x, src)
    ensures var w := Finish(Build(order, m, x), time, unmapped, category);
      var target := TrimPrefix(m[src], "event.");
      Found(w([target]), w(SplitDots(target))) == Value(x[src])
  {
    hide Validated, Consistent, Order, Build, Finish, TrimPrefix, HasPrefix;
    var target := TrimPrefix(m[src], "event.");
    MappedKept(order, m, x, time, unmapped, category, src);
    if '.' in target {
      NoDottedKey(order, m, x, time, unmapped, category, target);
    } else {
      IndexSkip(target, "", '.');
      assert target + "" == target && SplitDots(target) == [target];
    }
  }

  // ----- the two taxonomy tables agree

  /** The taxonomy table of the schema: category and class of a source category. */
  function Taxonomy(source: string): Option<(string, string)>
  {
    if source == "network_device" then Some(("Network Activity", "Network Activity"))
    else if source == "server" then Some(("Application Activity", "HTTP Activity"))
    else if source == "os" then Some(("Authentication", "Authentication"))
    else if source == "endpoint" then Some(("Findings", "Security Finding"))
    else if source == "application" then Some(("Application Activity", "Application Activity"))
    else if source == "database" then Some(("System Activity", "Database Activity"))
    else if source == "cloud" then Some(("Cloud Activity", "API Activity"))
    else if source == "container" then Some(("System Activity", "Container Lifecycle"))
    else if source == "iam" then Some(("Identity & Access Management", "Account Change"))
    else if source == "iot" then Some(("Device Activity", "Device Status"))
    else if source == "other" then Some(("Other Activity", "Base Event"))
    else None
  }

  predicate ValidateTaxonomy(source: string, category: Node, class_: Node)
  {
    var want := Taxonomy(source);
    want.Some? && category == Value(Of(want.value.0)) && class_ == Value(Of(want.value.1))
  }

  lemma TablesAgree(source: string)
    ensures Taxonomy(source).None? ==> Defaults(source) == []
    ensures Taxonomy(source).Some? ==>
      |Defaults(source)| == 3 &&
        Defaults(source) == Taxa(Taxonomy(source).value.0, Taxonomy(source).value.1, Defaults(source)[2].1)
  {
  }

  lemma DefaultsThree(v: View, d: seq<(string, string)>)
    requires |d| == 3
    ensures DefaultsView(v, d) ==
      DefaultView(DefaultView(DefaultView(v, d[0].0, d[0].1), d[1].0, d[1].1), d[2].0, d[2].1)
  {
    hide DefaultView;
    var v3 := DefaultView(v, d[0].0, d[0].1);
    var v4 := DefaultView(v3, d[1].0, d[1].1);
    assert DefaultsView(v, d) == DefaultsView(v3, d[1..]);
    assert d[1..][0] == d[1] && d[1..][1..] == d[2..];
    assert DefaultsView(v3, d[1..]) == DefaultsView(v4, d[2..]);
    assert d[2..][0] == d[2] && d[2..][1..] == [];
    assert DefaultsView(v4, d[2..]) == DefaultsView(DefaultView(v4, d[2].0, d[2].1), []);
  }

  /** An event whose pack maps neither the category nor the class passes the taxonomy check exactly
      when its source category is known. */
  lemma DefaultsPassTaxonomy(v: View, time: string, unmapped: Option<Val>, source: string)
    requires v(["category_name"]).Absent? && v(["class_name"]).Absent?
    ensures var w := Finish(v, time, unmapped, source);
      ValidateTaxonomy(source, w(["category_name"]), w(["class_name"])) <==> Taxonomy(source).Some?
  {
    hide Defaults, Taxonomy;
    TablesAgree(source);
    var cat, cls, typ := "category_name", "class_name", "type_name";
    assert |cat| == 13 && |cls| == 10 && |typ| == 9 && |"time"| == 4 && |"unmapped"| == 8;
    var v1 := TimeView(v, time);
    SetElsewhere(v, "time", Of(time), [cat]);
    SetElsewhere(v, "time", Of(time), [cls]);
    var v2 := if unmapped.Some? then SetView(v1, ["unmapped"], unmapped.value) else v1;
    if unmapped.Some? {
      SetElsewhere(v1, "unmapped", unmapped.value, [cat]);
      SetElsewhere(v1, "unmapped", unmapped.value, [cls]);
    }
    if Taxonomy(source).Some? {
      var d := Defaults(source);
      var v3 := DefaultView(v2, cat, d[0].1);
      SetElsewhere(v2, cat, Of(d[0].1), [cls]);
      var v4 := DefaultView(v3, cls, d[1].1);
      SetElsewhere(v3, cls, Of(d[1].1), [cat]);
      SetElsewhere(v4, typ, Of(d[2].1), [cat]);
      SetElsewhere(v4, typ, Of(d[2].1), [cls]);
      DefaultsThree(v2, d);
    }
  }
}
