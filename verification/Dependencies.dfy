/** Dependency graphs by name, their cycles, and what a boot order is. */
module DependencyGraph {
  import opened Prelude

  type Name = string

  /** The declared dependencies; a name without an entry has none. */
  type Deps = map<Name, seq<Name>>

  function DepsOf(deps: Deps, n: Name): seq<Name> {
    if n in deps then deps[n] else []
  }

  /** Each name depends on the next one. */
  ghost predicate IsWalk(deps: Deps, p: seq<Name>) {
    forall i, j :: 0 <= i < j < |p| && j == i + 1 ==> p[j] in DepsOf(deps, p[i])
  }

  ghost predicate IsCycle(deps: Deps, p: seq<Name>) {
    |p| >= 2 && p[0] == p[|p| - 1] && IsWalk(deps, p)
  }

  ghost predicate Cyclic(deps: Deps) {
    exists p :: IsCycle(deps, p)
  }

  /** Every dependency stands before its dependent. */
  ghost predicate DependenciesFirst(deps: Deps, order: seq<Name>) {
    forall i, d :: 0 <= i < |order| && d in DepsOf(deps, order[i]) ==> d in order[..i]
  }

  ghost predicate Closed(deps: Deps, names: seq<Name>) {
    && (forall n :: n in deps ==> n in names)
    && (forall n, d :: n in names && d in DepsOf(deps, n) ==> d in names)
  }

  /** Along a walk the positions in a boot order strictly decrease, so no walk returns to its start. */
  lemma {:induction false} OrderedWalk(deps: Deps, order: seq<Name>, p: seq<Name>, k: nat, at: nat) returns (j: nat)
    requires DependenciesFirst(deps, order) && IsWalk(deps, p)
    requires 0 < k < |p| && at < |order| && order[at] == p[0]
    ensures j < at && order[j] == p[k]
  {
    var i := at;
    if k > 1 {
      i := OrderedWalk(deps, order, p, k - 1, at);
    }
    assert order[i] == p[k - 1];
    assert p[k] in order[..i];
    j :| 0 <= j < i && order[j] == p[k];
  }

  lemma OrderedIsAcyclic(deps: Deps, order: seq<Name>)
    requires DependenciesFirst(deps, order) && Distinct(order)
    requires forall n :: n in deps ==> n in order
    ensures !Cyclic(deps)
  {
    if p :| IsCycle(deps, p) {
      assert p[1] in DepsOf(deps, p[0]);
      var at :| 0 <= at < |order| && order[at] == p[0];
      var j := OrderedWalk(deps, order, p, |p| - 1, at);
      assert false;
    }
  }

  lemma {:induction false} ElementCount<T>(xs: seq<T>, s: set<T>)
    requires Distinct(xs) && forall x :: x in xs ==> x in s
    ensures |xs| <= |s|
    ensures |xs| == |s| ==> forall x :: x in s ==> x in xs
    decreases |xs|
  {
    if xs == [] {
      if |s| == 0 { assert s == {}; }
    } else {
      var front, last := xs[..|xs| - 1], xs[|xs| - 1];
      assert xs == front + [last];
      ElementCount(front, s - {last});
    }
  }

  /** `next` picks for every stuck name a dependency that is stuck as well. */
  ghost predicate Blocks(deps: Deps, stuck: set<Name>, next: Name -> Name) {
    forall m {:trigger next(m)} :: m in stuck ==> next(m) in stuck && next(m) in DepsOf(deps, m)
  }

  lemma {:induction false} LongWalk(deps: Deps, stuck: set<Name>, next: Name -> Name, n: Name, len: nat)
    returns (p: seq<Name>)
    requires n in stuck && Blocks(deps, stuck, next)
    ensures |p| == len + 1 && p[0] == n && IsWalk(deps, p)
    ensures forall x :: x in p ==> x in stuck
    decreases len
  {
    if len == 0 {
      p := [n];
    } else {
      var rest := LongWalk(deps, stuck, next, next(n), len - 1);
      p := [n] + rest;
    }
  }

  /** A walk that stays inside `stuck` and is longer than `stuck` is large meets itself. */
  lemma StuckIsCyclic(deps: Deps, stuck: set<Name>, next: Name -> Name)
    requires stuck != {} && Blocks(deps, stuck, next)
    ensures Cyclic(deps)
  {
    var n :| n in stuck;
    var p := LongWalk(deps, stuck, next, n, |stuck|);
    assert !Distinct(p) by {
      if Distinct(p) { ElementCount(p, stuck); }
    }
    var i, j :| 0 <= i < j < |p| && p[i] == p[j];
    assert IsCycle(deps, p[i..j + 1]);
  }

  lemma {:induction false} SamePermutation<T>(a: seq<T>, b: seq<T>)
    requires Distinct(a) && Distinct(b) && forall x :: x in a <==> x in b
    ensures multiset(a) == multiset(b)
  {
    forall x ensures multiset(a)[x] == multiset(b)[x] {
      OccursOnce(a, x);
      OccursOnce(b, x);
    }
  }

  lemma {:induction false} OccursOnce<T>(xs: seq<T>, x: T)
    requires Distinct(xs)
    ensures multiset(xs)[x] == if x in xs then 1 else 0
  {
    if xs != [] {
      var front, last := xs[..|xs| - 1], xs[|xs| - 1];
      assert xs == front + [last];
      OccursOnce(front, x);
    }
  }
}

/** Kahn's algorithm as infra/seed/sort.go:41-80 and infra/modular/registry.go:97-140 run it. */
module Kahn {
  import opened Prelude
  import opened DependencyGraph

  /** The dependencies in `xs` that are not yet placed, repetitions counted. */
  ghost function Open(xs: seq<Name>, placed: set<Name>): nat {
    if xs == [] then 0 else (if xs[0] in placed then 0 else 1) + Open(xs[1..], placed)
  }

  ghost function Count(xs: seq<Name>, x: Name): nat {
    if xs == [] then 0 else (if xs[0] == x then 1 else 0) + Count(xs[1..], x)
  }

  lemma {:induction false} CountConcat(xs: seq<Name>, ys: seq<Name>, x: Name)
    ensures Count(xs + ys, x) == Count(xs, x) + Count(ys, x)
  {
    if xs == [] {
      assert xs + ys == ys;
    } else {
      assert (xs + ys)[1..] == xs[1..] + ys;
      CountConcat(xs[1..], ys, x);
    }
  }

  lemma CountSnoc(xs: seq<Name>, y: Name, x: Name)
    ensures Count(xs + [y], x) == Count(xs, x) + if x == y then 1 else 0
  {
    CountConcat(xs, [y], x);
  }

  lemma {:induction false} CountMember(xs: seq<Name>, x: Name)
    ensures Count(xs, x) > 0 <==> x in xs
  {
    if xs != [] { CountMember(xs[1..], x); }
  }

  lemma {:induction false} OpenPlace(xs: seq<Name>, placed: set<Name>, n: Name)
    requires n !in placed
    ensures Open(xs, placed) == Open(xs, placed + {n}) + Count(xs, n)
  {
    if xs != [] { OpenPlace(xs[1..], placed, n); }
  }

  lemma {:induction false} OpenZero(xs: seq<Name>, placed: set<Name>)
    ensures Open(xs, placed) == 0 <==> forall x :: x in xs ==> x in placed
  {
    if xs != [] {
      assert xs == [xs[0]] + xs[1..];
      OpenZero(xs[1..], placed);
    }
  }

  lemma {:induction false} OpenNone(xs: seq<Name>)
    ensures Open(xs, {}) == |xs|
  {
    if xs != [] { OpenNone(xs[1..]); }
  }

  function Entry(rev: map<Name, seq<Name>>, n: Name): seq<Name> {
    if n in rev then rev[n] else []
  }

  /** `rev` lists every dependent of a name as often as it declares that name. */
  ghost predicate Reverses(rev: map<Name, seq<Name>>, deps: Deps) {
    forall d, n :: Count(Entry(rev, d), n) == Count(DepsOf(deps, n), d)
  }

  /** Adds `name` to the lists of its dependencies. */
  method AddDependent(rev0: map<Name, seq<Name>>, name: Name, ds: seq<Name>) returns (rev: map<Name, seq<Name>>)
    ensures forall d, n :: Count(Entry(rev, d), n) == Count(Entry(rev0, d), n) + if n == name then Count(ds, d) else 0
  {
    rev := rev0;
    assert forall d :: Count(ds[..0], d) == 0;
    var k := 0;
    while k < |ds|
      invariant 0 <= k <= |ds|
      invariant forall d, n :: Count(Entry(rev, d), n) ==
                               Count(Entry(rev0, d), n) + if n == name then Count(ds[..k], d) else 0
    {
      ghost var prev := rev;
      rev := rev[ds[k] := Entry(rev, ds[k]) + [name]];
      forall d, n ensures Count(Entry(rev, d), n) ==
                          Count(Entry(rev0, d), n) + if n == name then Count(ds[..k + 1], d) else 0
      {
        assert ds[..k + 1] == ds[..k] + [ds[k]];
        CountSnoc(ds[..k], ds[k], d);
        CountSnoc(Entry(prev, ds[k]), name, n);
        assert Count(Entry(prev, d), n) == Count(Entry(rev0, d), n) + if n == name then Count(ds[..k], d) else 0;
      }
      k := k + 1;
    }
    assert ds[..k] == ds;
  }

  /** The map iteration order of the source is the order in which names leave `left`: any order. */
  method ReverseDeps(deps: Deps) returns (rev: map<Name, seq<Name>>)
    ensures Reverses(rev, deps)
  {
    rev := map[];
    var left := deps.Keys;
    while left != {}
      invariant left <= deps.Keys
      invariant forall d, n :: Count(Entry(rev, d), n) == if n in left then 0 else Count(DepsOf(deps, n), d)
      decreases |left|
    {
      var name :| name in left;
      rev := AddDependent(rev, name, deps[name]);
      left := left - {name};
    }
  }

  predicate NoDeps(deps: Deps, names: seq<Name>) {
    forall n :: n in names ==> DepsOf(deps, n) == []
  }

  ghost function Members(xs: seq<Name>): set<Name> {
    set x | x in xs
  }

  ghost predicate Degrees(deg: map<Name, int>, names: seq<Name>, deps: Deps, placed: set<Name>) {
    forall n :: n in names ==> n in deg && deg[n] == Open(DepsOf(deps, n), placed)
  }

  /** Exactly the names with no open dependency have entered the queue, each once. */
  ghost predicate QueueExact(deg: map<Name, int>, names: seq<Name>, entered: seq<Name>) {
    && Distinct(entered)
    && (forall n :: n in entered ==> n in names)
    && (forall n :: n in names && n in deg ==> (n in entered <==> deg[n] == 0))
  }

  method InitialQueue(names: seq<Name>, deps: Deps) returns (deg: map<Name, int>, queue: seq<Name>)
    requires Distinct(names)
    ensures Degrees(deg, names, deps, {}) && QueueExact(deg, names, queue)
    ensures NoDeps(deps, names) ==> queue == names
  {
    deg := map[];
    for k := 0 to |names|
      invariant forall n :: n in names[..k] ==> n in deg && deg[n] == |DepsOf(deps, n)|
    {
      deg := deg[names[k] := |DepsOf(deps, names[k])|];
    }
    assert names[..|names|] == names;
    queue := [];
    for k := 0 to |names|
      invariant Distinct(queue)
      invariant forall n :: n in queue <==> n in names[..k] && deg[n] == 0
      invariant NoDeps(deps, names) ==> queue == names[..k]
    {
      assert names[k] !in names[..k];
      if deg[names[k]] == 0 {
        queue := queue + [names[k]];
      }
    }
    forall n | n in names ensures deg[n] == Open(DepsOf(deps, n), {}) {
      OpenNone(DepsOf(deps, n));
    }
  }

  /** Midway through the dependents of the name being placed. */
  ghost predicate Halfway(deg: map<Name, int>, names: seq<Name>, deps: Deps, placed: set<Name>, seen: seq<Name>) {
    forall n :: n in names ==> n in deg && deg[n] == Open(DepsOf(deps, n), placed) - Count(seen, n)
  }

  lemma TakeNext(xs: seq<Name>, k: nat)
    requires k < |xs|
    ensures xs[..k + 1] == xs[..k] + [xs[k]]
  {
  }

  lemma AppendLater(xs: seq<Name>, ys: seq<Name>, x: Name)
    ensures xs + (ys + [x]) == xs + ys + [x]
  {
  }

  ghost predicate ListsDependents(dependents: seq<Name>, deps: Deps, name: Name) {
    forall n :: Count(dependents, n) == Count(DepsOf(deps, n), name)
  }

  /** The next dependent still counts `name` among its open dependencies. */
  lemma StillOpen(deps: Deps, names: seq<Name>, placed: set<Name>, name: Name, dependents: seq<Name>, k: nat)
    requires name !in placed && Closed(deps, names) && k < |dependents|
    requires ListsDependents(dependents, deps, name)
    ensures dependents[k] in names
    ensures Open(DepsOf(deps, dependents[k]), placed) > Count(dependents[..k], dependents[k])
  {
    var m := dependents[k];
    assert dependents == dependents[..k] + dependents[k..];
    CountConcat(dependents[..k], dependents[k..], m);
    CountMember(DepsOf(deps, m), name);
    OpenPlace(DepsOf(deps, m), placed, name);
    assert Count(dependents, m) == Count(DepsOf(deps, m), name);
  }

  /** One dependent loses one open dependency; it had one, so it was not in the queue yet. */
  lemma Decrement(deg: map<Name, int>, names: seq<Name>, deps: Deps, placed: set<Name>, seen: seq<Name>,
                  m: Name, entered: seq<Name>)
    requires m in names && Open(DepsOf(deps, m), placed) > Count(seen, m)
    requires Halfway(deg, names, deps, placed, seen) && QueueExact(deg, names, entered)
    ensures m in deg && m !in entered
    ensures Halfway(deg[m := deg[m] - 1], names, deps, placed, seen + [m])
    ensures QueueExact(deg[m := deg[m] - 1], names, if deg[m] == 1 then entered + [m] else entered)
  {
    forall n ensures Count(seen + [m], n) == Count(seen, n) + if n == m then 1 else 0 {
      CountSnoc(seen, m, n);
    }
  }

  lemma AllDecremented(deg: map<Name, int>, names: seq<Name>, deps: Deps, placed: set<Name>, name: Name,
                       dependents: seq<Name>)
    requires name !in placed && ListsDependents(dependents, deps, name)
    requires Halfway(deg, names, deps, placed, dependents)
    ensures Degrees(deg, names, deps, placed + {name})
  {
    forall n | n in names ensures n in deg && deg[n] == Open(DepsOf(deps, n), placed + {name}) {
      OpenPlace(DepsOf(deps, n), placed, name);
      assert Count(dependents, n) == Count(DepsOf(deps, n), name);
    }
  }

  /** Takes `name` off the open dependencies of its dependents; those with none left join the queue. */
  method Place(name: Name, dependents: seq<Name>, ghost names: seq<Name>, ghost deps: Deps, ghost placed: set<Name>,
               deg0: map<Name, int>, ghost done: seq<Name>, queue0: seq<Name>)
    returns (deg: map<Name, int>, queue: seq<Name>)
    requires name !in placed && Closed(deps, names) && ListsDependents(dependents, deps, name)
    requires Degrees(deg0, names, deps, placed) && QueueExact(deg0, names, done + queue0)
    ensures Degrees(deg, names, deps, placed + {name}) && QueueExact(deg, names, done + queue)
    ensures dependents == [] ==> queue == queue0
  {
    deg, queue := deg0, queue0;
    assert Halfway(deg, names, deps, placed, dependents[..0]);
    var k := 0;
    while k < |dependents|
      invariant 0 <= k <= |dependents|
      invariant Halfway(deg, names, deps, placed, dependents[..k])
      invariant QueueExact(deg, names, done + queue)
      invariant k == 0 ==> queue == queue0
    {
      var m := dependents[k];
      TakeNext(dependents, k);
      StillOpen(deps, names, placed, name, dependents, k);
      Decrement(deg, names, deps, placed, dependents[..k], m, done + queue);
      deg := deg[m := deg[m] - 1];
      if deg[m] == 0 {
        AppendLater(done, queue, m);
        queue := queue + [m];
      }
      k := k + 1;
    }
    assert dependents[..k] == dependents;
    AllDecremented(deg, names, deps, placed, name, dependents);
  }

  /**
   The names in the order they leave the queue. Whatever the iteration order, the result holds every
   name exactly when the graph has no cycle.
   */
  method Sort(names: seq<Name>, deps: Deps) returns (order: seq<Name>)
    requires Distinct(names) && Closed(deps, names)
    ensures Distinct(order) && (forall n :: n in order ==> n in names)
    ensures DependenciesFirst(deps, order)
    ensures |order| == |names| <==> !Cyclic(deps)
    ensures |order| == |names| ==> multiset(order) == multiset(names)
    ensures NoDeps(deps, names) ==> order == names
  {
    var deg, queue := InitialQueue(names, deps);
    var rev := ReverseDeps(deps);
    order := [];
    assert order + queue == queue && Members(order) == {};
    while queue != []
      invariant Degrees(deg, names, deps, Members(order))
      invariant QueueExact(deg, names, order + queue)
      invariant DependenciesFirst(deps, order)
      invariant NoDeps(deps, names) ==> order + queue == names
      decreases |names| - |order|
    {
      var name := queue[0];
      HeadIsReady(deg, names, deps, order, queue);
      if NoDeps(deps, names) {
        NoDependents(rev, deps, name, names);
      }
      ghost var before := order;
      order := order + [name];
      deg, queue := Place(name, Entry(rev, name), names, deps, Members(before), deg, order, queue[1..]);
      assert Members(order) == Members(before) + {name};
    }
    assert order + queue == order;
    Complete(deg, names, deps, order);
  }

  /** The head of the queue is new and all its dependencies are placed. */
  lemma HeadIsReady(deg: map<Name, int>, names: seq<Name>, deps: Deps, order: seq<Name>, queue: seq<Name>)
    requires queue != [] && Degrees(deg, names, deps, Members(order))
    requires QueueExact(deg, names, order + queue) && DependenciesFirst(deps, order)
    ensures queue[0] !in Members(order) && queue[0] in names
    ensures |order| < |names|
    ensures DependenciesFirst(deps, order + [queue[0]])
    ensures order + [queue[0]] + queue[1..] == order + queue
  {
    var entered := order + queue;
    assert entered[|order|] == queue[0];
    assert forall i :: 0 <= i < |order| ==> entered[i] == order[i];
    MembersBound(names);
    ElementCount(entered, Members(names));
    OpenZero(DepsOf(deps, queue[0]), Members(order));
    PlaceLast(deps, order, queue[0]);
  }

  lemma NoDependents(rev: map<Name, seq<Name>>, deps: Deps, name: Name, names: seq<Name>)
    requires Reverses(rev, deps) && Closed(deps, names)
    requires NoDeps(deps, names)
    ensures Entry(rev, name) == []
  {
    var xs := Entry(rev, name);
    if xs != [] {
      CountMember(xs, xs[0]);
      CountMember(DepsOf(deps, xs[0]), name);
      assert false;
    }
  }

  lemma PlaceLast(deps: Deps, order: seq<Name>, name: Name)
    requires DependenciesFirst(deps, order) && forall d :: d in DepsOf(deps, name) ==> d in order
    ensures DependenciesFirst(deps, order + [name])
  {
    var longer := order + [name];
    forall i, d | 0 <= i < |longer| && d in DepsOf(deps, longer[i]) ensures d in longer[..i] {
      if i < |order| {
        assert d in order[..i];
        assert longer[..i] == order[..i];
      } else {
        assert longer[..i] == order;
      }
    }
  }

  lemma {:induction false} MembersBound(xs: seq<Name>)
    ensures |Members(xs)| <= |xs|
  {
    if xs != [] {
      var front := xs[..|xs| - 1];
      MembersBound(front);
      assert xs == front + [xs[|xs| - 1]];
      assert Members(xs) == Members(front) + {xs[|xs| - 1]};
    }
  }

  /** Some dependency of a name that never entered the queue is not placed either. */
  ghost function Blocker(deps: Deps, order: seq<Name>, m: Name): (d: Name)
    requires Open(DepsOf(deps, m), Members(order)) != 0
    ensures d in DepsOf(deps, m) && d !in order
  {
    OpenZero(DepsOf(deps, m), Members(order));
    var d :| d in DepsOf(deps, m) && d !in order;
    d
  }

  lemma IncompleteIsCyclic(deg: map<Name, int>, names: seq<Name>, deps: Deps, order: seq<Name>, missing: Name)
    requires Closed(deps, names) && missing in names && missing !in order
    requires Degrees(deg, names, deps, Members(order)) && QueueExact(deg, names, order)
    ensures Cyclic(deps)
  {
    var stuck := set n | n in names && n !in order;
    var next := (m: Name) => if Open(DepsOf(deps, m), Members(order)) != 0 then Blocker(deps, order, m) else m;
    assert missing in stuck;
    StuckIsCyclic(deps, stuck, next);
  }

  /** When the queue runs dry, what is missing is stuck in a cycle. */
  lemma Complete(deg: map<Name, int>, names: seq<Name>, deps: Deps, order: seq<Name>)
    requires Distinct(names) && Closed(deps, names)
    requires Degrees(deg, names, deps, Members(order)) && QueueExact(deg, names, order)
    requires DependenciesFirst(deps, order)
    ensures |order| == |names| <==> !Cyclic(deps)
    ensures |order| == |names| ==> multiset(order) == multiset(names)
  {
    MembersBound(names);
    ElementCount(names, Members(names));
    ElementCount(order, Members(names));
    MembersBound(order);
    ElementCount(order, Members(order));
    if missing :| missing in names && missing !in order {
      IncompleteIsCyclic(deg, names, deps, order, missing);
    } else {
      ElementCount(names, Members(order));
      OrderedIsAcyclic(deps, order);
      SamePermutation(order, names);
    }
  }
}

/**
 Registration and boot ordering of seeders (infra/seed/registry.go, infra/seed/sort.go) and of modules
 (infra/modular/registry.go).
 */
module Components {
  import opened Prelude
  import opened DependencyGraph
  import Kahn

  /** A seeder or a module. A module that declares no dependencies has an empty list. */
  datatype Component = Component(name: Name, dependsOn: seq<Name>)

  datatype SortError = Unregistered(component: Name, dependency: Name) | CycleDetected

  function Names(cs: seq<Component>): seq<Name> {
    seq(|cs|, i requires 0 <= i < |cs| => cs[i].name)
  }

  ghost predicate UniqueNames(cs: seq<Component>) {
    Distinct(Names(cs))
  }

  predicate Registered(cs: seq<Component>, d: Name) {
    exists i :: 0 <= i < |cs| && cs[i].name == d
  }

  ghost predicate AllRegistered(cs: seq<Component>) {
    forall i, k :: 0 <= i < |cs| && 0 <= k < |cs[i].dependsOn| ==> Registered(cs, cs[i].dependsOn[k])
  }

  /** The first declared dependency, in registration and then declaration order, that nobody registered. */
  ghost predicate FirstMissing(cs: seq<Component>, i: int, k: int) {
    && 0 <= i < |cs| && 0 <= k < |cs[i].dependsOn| && !Registered(cs, cs[i].dependsOn[k])
    && (forall j, m :: 0 <= j < i && 0 <= m < |cs[j].dependsOn| ==> Registered(cs, cs[j].dependsOn[m]))
    && (forall m :: 0 <= m < k ==> Registered(cs, cs[i].dependsOn[m]))
  }

  /** The declared dependencies by name; components without any have no entry. */
  function Graph(cs: seq<Component>): Deps {
    if cs == [] then map[]
    else
      var c := cs[|cs| - 1];
      Graph(cs[..|cs| - 1]) + if c.dependsOn == [] then map[] else map[c.name := c.dependsOn]
  }

  lemma GraphSnoc(cs: seq<Component>, i: nat)
    requires i < |cs|
    ensures Graph(cs[..i + 1]) ==
            if cs[i].dependsOn == [] then Graph(cs[..i]) else Graph(cs[..i])[cs[i].name := cs[i].dependsOn]
  {
    assert cs[..i + 1][..i] == cs[..i];
  }

  lemma {:induction false} GraphKeys(cs: seq<Component>, n: Name)
    requires n in Graph(cs)
    ensures Registered(cs, n)
  {
    var front := cs[..|cs| - 1];
    if n in Graph(front) {
      GraphKeys(front, n);
      var i :| 0 <= i < |front| && front[i].name == n;
      assert cs[i].name == n;
    } else {
      assert cs[|cs| - 1].name == n;
    }
  }

  lemma {:induction false} GraphAt(cs: seq<Component>, i: nat)
    requires UniqueNames(cs) && i < |cs|
    ensures DepsOf(Graph(cs), cs[i].name) == cs[i].dependsOn
  {
    var n := |cs| - 1;
    var front := cs[..n];
    assert forall j :: 0 <= j < n ==> Names(front)[j] == Names(cs)[j];
    assert forall j :: 0 <= j < |cs| ==> Names(cs)[j] == cs[j].name;
    if i < n {
      GraphAt(front, i);
    } else if cs[n].name in Graph(front) {
      GraphKeys(front, cs[n].name);
      assert false;
    }
  }

  lemma GraphClosed(cs: seq<Component>)
    requires UniqueNames(cs) && AllRegistered(cs)
    ensures Closed(Graph(cs), Names(cs))
  {
    forall n | n in Graph(cs) ensures n in Names(cs) {
      GraphKeys(cs, n);
      var i :| 0 <= i < |cs| && cs[i].name == n;
      assert Names(cs)[i] == n;
    }
    forall n, d | n in Names(cs) && d in DepsOf(Graph(cs), n) ensures d in Names(cs) {
      var i :| 0 <= i < |cs| && Names(cs)[i] == n;
      GraphAt(cs, i);
      var k :| 0 <= k < |cs[i].dependsOn| && cs[i].dependsOn[k] == d;
      assert Registered(cs, cs[i].dependsOn[k]);
      var j :| 0 <= j < |cs| && cs[j].name == d;
      assert Names(cs)[j] == d;
    }
  }

  /**
   What a sort must return: the first unregistered dependency if there is one, a cycle error exactly when
   the graph has a cycle, and otherwise the same components, dependencies first.
   */
  ghost predicate Correct(cs: seq<Component>, r: Result<seq<Component>, SortError>) {
    match r
    case Ok(sorted) =>
      && AllRegistered(cs) && !Cyclic(Graph(cs))
      && multiset(sorted) == multiset(cs) && DependenciesFirst(Graph(cs), Names(sorted))
    case Err(Unregistered(c, d)) =>
      exists i, k :: FirstMissing(cs, i, k) && cs[i].name == c && cs[i].dependsOn[k] == d
    case Err(CycleDetected) => AllRegistered(cs) && Cyclic(Graph(cs))
  }

  method FindMissing(cs: seq<Component>, byName: map<Name, Component>, i: nat) returns (missing: Option<Name>)
    requires i < |cs| && (forall d :: d in byName <==> Registered(cs, d))
    requires forall j, m :: 0 <= j < i && 0 <= m < |cs[j].dependsOn| ==> Registered(cs, cs[j].dependsOn[m])
    ensures missing.None? ==> forall m :: 0 <= m < |cs[i].dependsOn| ==> Registered(cs, cs[i].dependsOn[m])
    ensures missing.Some? ==> exists k :: FirstMissing(cs, i, k) && cs[i].dependsOn[k] == missing.value
  {
    for k := 0 to |cs[i].dependsOn|
      invariant forall m :: 0 <= m < k ==> Registered(cs, cs[i].dependsOn[m])
    {
      if cs[i].dependsOn[k] !in byName {
        assert FirstMissing(cs, i, k);
        return Some(cs[i].dependsOn[k]);
      }
    }
    missing := None;
  }

  method BuildDeps(cs: seq<Component>, byName: map<Name, Component>) returns (r: Result<Deps, SortError>)
    requires UniqueNames(cs) && forall d :: d in byName <==> Registered(cs, d)
    ensures r.Ok? ==> r.value == Graph(cs) && AllRegistered(cs)
    ensures r.Err? ==> r.error.Unregistered? && exists i, k ::
              FirstMissing(cs, i, k) && cs[i].name == r.error.component && cs[i].dependsOn[k] == r.error.dependency
  {
    var deps: Deps := map[];
    for i := 0 to |cs|
      invariant forall j, m :: 0 <= j < i && 0 <= m < |cs[j].dependsOn| ==> Registered(cs, cs[j].dependsOn[m])
      invariant deps == Graph(cs[..i])
    {
      var missing := FindMissing(cs, byName, i);
      if missing.Some? {
        return Err(Unregistered(cs[i].name, missing.value));
      }
      GraphSnoc(cs, i);
      if cs[i].dependsOn != [] {
        deps := deps[cs[i].name := cs[i].dependsOn];
      }
    }
    assert cs[..|cs|] == cs;
    r := Ok(deps);
  }

  method IndexByName(cs: seq<Component>) returns (byName: map<Name, Component>)
    requires UniqueNames(cs)
    ensures forall d :: d in byName <==> Registered(cs, d)
    ensures forall i :: 0 <= i < |cs| ==> cs[i].name in byName && byName[cs[i].name] == cs[i]
  {
    byName := map[];
    for i := 0 to |cs|
      invariant forall d :: d in byName <==> exists j :: 0 <= j < i && cs[j].name == d
      invariant forall j :: 0 <= j < i ==> cs[j].name in byName && byName[cs[j].name] == cs[j]
    {
      assert Names(cs)[i] == cs[i].name;
      assert forall j :: 0 <= j < i ==> Names(cs)[j] == cs[j].name && Names(cs)[j] != Names(cs)[i];
      byName := byName[cs[i].name := cs[i]];
    }
  }

  /** Reads the components back in the order of their names. */
  method Pick(cs: seq<Component>, byName: map<Name, Component>, order: seq<Name>) returns (sorted: seq<Component>)
    requires forall i :: 0 <= i < |cs| ==> cs[i].name in byName && byName[cs[i].name] == cs[i]
    requires Distinct(order) && (forall n :: n in order <==> n in Names(cs)) && UniqueNames(cs)
    ensures Names(sorted) == order && multiset(sorted) == multiset(cs)
    ensures order == Names(cs) ==> sorted == cs
  {
    sorted := [];
    for k := 0 to |order|
      invariant |sorted| == k
      invariant forall j :: 0 <= j < k ==> sorted[j].name == order[j] && sorted[j] in cs
      invariant order == Names(cs) ==> sorted == cs[..k]
    {
      assert order[k] in Names(cs);
      var i :| 0 <= i < |cs| && Names(cs)[i] == order[k];
      assert cs[i].name == order[k];
      if order == Names(cs) { assert Names(cs)[k] == cs[k].name; }
      sorted := sorted + [byName[order[k]]];
    }
    SamePick(cs, sorted, order);
  }

  lemma SamePick(cs: seq<Component>, sorted: seq<Component>, order: seq<Name>)
    requires Distinct(order) && (forall n :: n in order <==> n in Names(cs)) && UniqueNames(cs)
    requires Names(sorted) == order && forall j :: 0 <= j < |sorted| ==> sorted[j] in cs
    ensures multiset(sorted) == multiset(cs)
  {
    assert forall j :: 0 <= j < |sorted| ==> Names(sorted)[j] == sorted[j].name;
    assert forall j :: 0 <= j < |cs| ==> Names(cs)[j] == cs[j].name;
    forall c | c in cs ensures c in sorted {
      var i :| 0 <= i < |cs| && cs[i] == c;
      assert Names(cs)[i] in order;
      var k :| 0 <= k < |order| && order[k] == Names(cs)[i];
      var j :| 0 <= j < |cs| && cs[j] == sorted[k];
      assert Names(cs)[j] == Names(cs)[i];
    }
    SamePermutation(sorted, cs);
  }

  method TopologicalSort(cs: seq<Component>) returns (r: Result<seq<Component>, SortError>)
    requires UniqueNames(cs)
    ensures Correct(cs, r)
    ensures (forall i :: 0 <= i < |cs| ==> cs[i].dependsOn == []) ==> r == Ok(cs)
  {
    var byName := IndexByName(cs);
    var built := BuildDeps(cs, byName);
    if built.Err? {
      return Err(built.error);
    }
    GraphClosed(cs);
    var order := Kahn.Sort(Names(cs), built.value);
    forall i | 0 <= i < |cs| ensures DepsOf(Graph(cs), Names(cs)[i]) == cs[i].dependsOn {
      GraphAt(cs, i);
    }
    if |order| != |cs| {
      return Err(CycleDetected);
    }
    assert forall n :: n in order <==> n in Names(cs) by {
      assert forall n :: n in order <==> multiset(order)[n] > 0;
    }
    var sorted := Pick(cs, byName, order);
    r := Ok(sorted);
  }

  /** The registry of either kind. */
  class Registry {
    var components: seq<Component>
    var seen: set<Name>

    ghost predicate Valid()
      reads this
    {
      UniqueNames(components) && forall n :: n in seen <==> Registered(components, n)
    }

    constructor ()
      ensures Valid() && components == []
    {
      components, seen := [], {};
    }

    method Register(c: Component) returns (ok: bool)
      requires Valid()
      modifies this
      ensures Valid()
      ensures ok <==> !Registered(old(components), c.name)
      ensures components == if ok then old(components) + [c] else old(components)
    {
      ok := c.name !in seen;
      if ok {
        assert forall i :: 0 <= i < |components| ==> Names(components)[i] == components[i].name;
        ghost var before := components;
        seen := seen + {c.name};
        components := components + [c];
        assert Names(components) == Names(before) + [c.name];
        assert components[|before|].name == c.name;
        forall n | Registered(before, n) ensures Registered(components, n) {
          var i :| 0 <= i < |before| && before[i].name == n;
          assert components[i].name == n;
        }
      }
    }

    method HasDependencies() returns (some: bool)
      ensures some <==> exists i :: 0 <= i < |components| && components[i].dependsOn != []
    {
      for i := 0 to |components|
        invariant forall j :: 0 <= j < i ==> components[j].dependsOn == []
      {
        if |components[i].dependsOn| > 0 {
          return true;
        }
      }
      some := false;
    }

    /** Boot order. Without dependencies the sort is skipped; the result is what it would have returned. */
    method Modules() returns (r: Result<seq<Component>, SortError>)
      requires Valid()
      ensures Correct(components, r)
      ensures (forall i :: 0 <= i < |components| ==> components[i].dependsOn == []) ==> r == Ok(components)
    {
      var some := HasDependencies();
      if !some {
        NothingToSort(components);
        return Ok(components);
      }
      r := TopologicalSort(components);
    }
  }

  lemma NothingToSort(cs: seq<Component>)
    requires UniqueNames(cs) && forall i :: 0 <= i < |cs| ==> cs[i].dependsOn == []
    ensures Correct(cs, Ok(cs))
  {
    var g := Graph(cs);
    forall n ensures DepsOf(g, n) == [] {
      if n in g {
        GraphKeys(cs, n);
        var i :| 0 <= i < |cs| && cs[i].name == n;
        GraphAt(cs, i);
      }
    }
    assert !Cyclic(g) by {
      if p :| IsCycle(g, p) {
        assert p[1] in DepsOf(g, p[0]);
      }
    }
  }
}
