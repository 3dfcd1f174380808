/** Breadth-first search with a bound on the distance, over an arbitrary graph on names: first-in
    first-out order makes the depth at which a name is first met its distance from the seeds. */
module Bfs {
  import opened Lists
  import opened Scrape

  /** The names one hop away. */
  type Graph = string -> seq<string>

  /** The names at most k hops away from the seeds. */
  ghost function Within(g: Graph, seeds: set<string>, k: nat): set<string> {
    if k == 0 then seeds
    else Within(g, seeds, k - 1) + set n, h | n in Within(g, seeds, k - 1) && h in g(n) :: h
  }

  lemma {:induction false} WithinGrows(g: Graph, seeds: set<string>, j: nat, k: nat)
    requires j <= k
    ensures Within(g, seeds, j) <= Within(g, seeds, k)
    decreases k
  {
    if j < k {
      WithinGrows(g, seeds, j, k - 1);
    }
  }

  /** A way of hops from a seed to the name. */
  ghost predicate Way(g: Graph, seeds: set<string>, path: seq<string>, name: string) {
    path != [] && path[0] in seeds && path[|path| - 1] == name &&
    forall i | 0 < i < |path| :: path[i] in g(path[i - 1])
  }

  lemma WayOn(g: Graph, seeds: set<string>, path: seq<string>, name: string, next: string)
    requires Way(g, seeds, path, name) && next in g(name)
    ensures Way(g, seeds, path + [next], next)
  {
    var longer := path + [next];
    forall i | 0 < i < |longer| ensures longer[i] in g(longer[i - 1]) {
      assert longer[i - 1] == path[i - 1];
    }
  }

  lemma {:induction false} WayOf(g: Graph, seeds: set<string>, k: nat, name: string) returns (path: seq<string>)
    requires name in Within(g, seeds, k)
    ensures |path| <= k + 1 && Way(g, seeds, path, name)
    decreases k
  {
    if k == 0 {
      path := [name];
    } else if name in Within(g, seeds, k - 1) {
      path := WayOf(g, seeds, k - 1, name);
    } else {
      var n, h :| n in Within(g, seeds, k - 1) && h in g(n) && h == name;
      var shorter := WayOf(g, seeds, k - 1, n);
      WayOn(g, seeds, shorter, n, name);
      path := shorter + [name];
    }
  }

  lemma {:induction false} WayWithin(g: Graph, seeds: set<string>, path: seq<string>, name: string)
    requires Way(g, seeds, path, name)
    ensures name in Within(g, seeds, |path| - 1)
    decreases |path|
  {
    if |path| > 1 {
      var front := path[..|path| - 1];
      assert Way(g, seeds, front, front[|front| - 1]);
      WayWithin(g, seeds, front, front[|front| - 1]);
      assert path[|path| - 1] in g(path[|path| - 2]);
    }
  }

  /** Within k hops are exactly the names to which a way of at most k hops leads. */
  lemma WithinIff(g: Graph, seeds: set<string>, k: nat, name: string)
    ensures name in Within(g, seeds, k) <==> exists path :: |path| <= k + 1 && Way(g, seeds, path, name)
  {
    if name in Within(g, seeds, k) {
      var path := WayOf(g, seeds, k, name);
    }
    if path :| |path| <= k + 1 && Way(g, seeds, path, name) {
      WayWithin(g, seeds, path, name);
      WithinGrows(g, seeds, |path| - 1, k);
    }
  }

  // ---------------------------------------------------------------- the invariant

  function Names(items: seq<Item>): set<string> {
    set i | i in items :: i.name
  }

  ghost predicate Distinct(items: seq<Item>) {
    forall i, j | 0 <= i < j < |items| :: items[i].name != items[j].name
  }

  ghost predicate Sorted(items: seq<Item>) {
    forall i, j | 0 <= i < j < |items| :: items[i].depth <= items[j].depth
  }

  /** The depth of an item is its distance from the seeds. */
  ghost predicate Minimal(g: Graph, max: nat, seeds: set<string>, item: Item) {
    item.depth <= max && item.name in Within(g, seeds, item.depth) &&
    (item.depth > 0 ==> item.name !in Within(g, seeds, item.depth - 1))
  }

  ghost predicate Listed(seeds: set<string>, all: seq<Item>) {
    Distinct(all) && Sorted(all) && seeds <= Names(all)
  }

  /** Every name found so far, in the order of the queue. */
  ghost predicate Ordered(g: Graph, max: nat, seeds: set<string>, all: seq<Item>) {
    Listed(seeds, all) && forall i | i in all :: Minimal(g, max, seeds, i)
  }

  ghost predicate AllIn(keys: seq<string>, names: set<string>) {
    forall k | k in keys :: k in names
  }

  /** The first n names have been queried and their targets are known. */
  ghost predicate Expanded(g: Graph, max: nat, all: seq<Item>, n: nat) {
    n <= |all| && forall i | 0 <= i < n && all[i].depth < max :: AllIn(g(all[i].name), Names(all))
  }

  /** All queued names are at the depth of the first one or one deeper. */
  ghost predicate Narrow(all: seq<Item>, n: nat) {
    forall i | n <= i < |all| :: all[i].depth <= all[n].depth + 1
  }

  // ---------------------------------------------------------------- whole levels

  lemma PlaceOf(all: seq<Item>, name: string) returns (i: nat)
    requires name in Names(all)
    ensures i < |all| && all[i].name == name
  {
    var item :| item in all && item.name == name;
    i :| 0 <= i < |all| && all[i] == item;
  }

  /** A name nearer than k has been queried, so its targets are known. */
  lemma NearNameExpanded(g: Graph, max: nat, seeds: set<string>, all: seq<Item>, n: nat, k: nat, x: string)
    requires Ordered(g, max, seeds, all) && Expanded(g, max, all, n) && 0 < k <= max
    requires forall i | n <= i < |all| :: all[i].depth >= k
    requires x in Within(g, seeds, k - 1) && x in Names(all)
    ensures AllIn(g(x), Names(all))
  {
    var i := PlaceOf(all, x);
    assert all[i] in all;
    NotDeeper(g, max, seeds, all[i], k);
    assert i < n;
  }

  lemma NotDeeper(g: Graph, max: nat, seeds: set<string>, item: Item, k: nat)
    requires Minimal(g, max, seeds, item) && 0 < k && item.name in Within(g, seeds, k - 1)
    ensures item.depth < k
  {
    if 0 < item.depth && k <= item.depth {
      NotNearer(g, seeds, k - 1, item.depth - 1, item.name);
    }
  }

  lemma {:induction false} NotNearer(g: Graph, seeds: set<string>, j: nat, k: nat, x: string)
    requires j <= k && x !in Within(g, seeds, k)
    ensures x !in Within(g, seeds, j)
    decreases k
  {
    if j < k {
      NotNearer(g, seeds, j, k - 1, x);
    }
  }

  /** Up to depth k everything has been found, if no name of smaller depth is still to be queried. */
  lemma {:induction false} LevelsFound(g: Graph, max: nat, seeds: set<string>, all: seq<Item>, n: nat, k: nat)
    requires Ordered(g, max, seeds, all) && Expanded(g, max, all, n) && k <= max
    requires forall i | n <= i < |all| :: all[i].depth >= k
    ensures Within(g, seeds, k) <= Names(all)
    decreases k
  {
    if k > 0 {
      LevelsFound(g, max, seeds, all, n, k - 1);
      forall y | y in Within(g, seeds, k) ensures y in Names(all) {
        LevelOn(g, max, seeds, all, n, k, y);
      }
    }
  }

  lemma LevelOn(g: Graph, max: nat, seeds: set<string>, all: seq<Item>, n: nat, k: nat, y: string)
    requires Ordered(g, max, seeds, all) && Expanded(g, max, all, n) && 0 < k <= max
    requires forall i | n <= i < |all| :: all[i].depth >= k
    requires Within(g, seeds, k - 1) <= Names(all) && y in Within(g, seeds, k)
    ensures y in Names(all)
  {
    if y !in Within(g, seeds, k - 1) {
      var x := HopFrom(g, seeds, k, y);
      NearNameExpanded(g, max, seeds, all, n, k, x);
    }
  }

  lemma HopFrom(g: Graph, seeds: set<string>, k: nat, y: string) returns (x: string)
    requires k > 0 && y in Within(g, seeds, k) && y !in Within(g, seeds, k - 1)
    ensures x in Within(g, seeds, k - 1) && y in g(x)
  {
    var n, h :| n in Within(g, seeds, k - 1) && h in g(n) && h == y;
    x := n;
  }

  // ---------------------------------------------------------------- queuing

  lemma NamesSnoc(all: seq<Item>, item: Item)
    ensures Names(all + [item]) == Names(all) + {item.name}
  {
    assert forall i :: i in all + [item] <==> i in all || i == item;
  }

  /** What has been found, with the front n of it already queried. */
  ghost predicate Tracks(f: Frontier, all: seq<Item>, n: nat) {
    n <= |all| && f.seen == Names(all) && f.queue == all[n..]
  }

  /** The queue while names of the given depth are added, all of them `ok`. */
  ghost predicate Filling(ok: Item -> bool, seeds: set<string>, f: Frontier, all: seq<Item>, n: nat, depth: nat) {
    Listed(seeds, all) && Tracks(f, all, n) && forall i | i in all :: i.depth <= depth && ok(i)
  }

  lemma FillOne(ok: Item -> bool, seeds: set<string>, f: Frontier, all: seq<Item>, n: nat, key: string, depth: nat)
      returns (longer: seq<Item>)
    requires Filling(ok, seeds, f, all, n, depth) && (key in f.seen || ok(Item(key, depth)))
    ensures all <= longer && Filling(ok, seeds, Enqueue(f, key, depth), longer, n, depth) && key in Names(longer)
  {
    if key in f.seen {
      longer := all;
    } else {
      longer := all + [Item(key, depth)];
      NamesSnoc(all, Item(key, depth));
      ListedSnoc(seeds, all, Item(key, depth));
      assert all[n..] + [Item(key, depth)] == longer[n..];
    }
  }

  lemma ListedSnoc(seeds: set<string>, all: seq<Item>, item: Item)
    requires Listed(seeds, all) && item.name !in Names(all) && forall i | i in all :: i.depth <= item.depth
    ensures Listed(seeds, all + [item])
  {
    NamesSnoc(all, item);
    forall i | 0 <= i < |all| ensures all[i].name != item.name {
      assert all[i] in all && all[i].name in Names(all);
    }
  }

  lemma {:induction false} FillAll(ok: Item -> bool, seeds: set<string>, f: Frontier, all: seq<Item>, n: nat,
      keys: seq<string>, depth: nat)
      returns (longer: seq<Item>)
    requires Filling(ok, seeds, f, all, n, depth)
    requires forall h | h in keys :: h in Names(all) || ok(Item(h, depth))
    ensures all <= longer && Filling(ok, seeds, EnqueueAll(f, keys, depth), longer, n, depth) &&
      AllIn(keys, Names(longer))
    decreases |keys|
  {
    if keys == [] {
      longer := all;
    } else {
      var front, key := keys[..|keys| - 1], keys[|keys| - 1];
      assert keys == front + [key];
      var mid := FillAll(ok, seeds, f, all, n, front, depth);
      NamesGrow(all, mid);
      longer := FillOne(ok, seeds, EnqueueAll(f, front, depth), mid, n, key, depth);
      NamesGrow(mid, longer);
      AllInSnoc(front, key, Names(mid), Names(longer));
    }
  }

  lemma AllInSnoc(front: seq<string>, key: string, before: set<string>, after: set<string>)
    requires AllIn(front, before) && before <= after && key in after
    ensures AllIn(front + [key], after)
  {
  }

  lemma NamesGrow(a: seq<Item>, b: seq<Item>)
    requires a <= b
    ensures Names(a) <= Names(b)
  {
    assert forall i :: i in a ==> i in b;
  }

  lemma HopIsMinimal(g: Graph, max: nat, seeds: set<string>, all: seq<Item>, item: Item, key: string)
    requires Minimal(g, max, seeds, item) && item.depth < max
    requires key in g(item.name) && key !in Names(all)
    requires Within(g, seeds, item.depth) <= Names(all)
    ensures Minimal(g, max, seeds, Item(key, item.depth + 1))
  {
  }

  ghost function MinimalTest(g: Graph, max: nat, seeds: set<string>): Item -> bool {
    i => Minimal(g, max, seeds, i)
  }

  // ---------------------------------------------------------------- bounds and rounds

  lemma DistinctSize(items: seq<Item>)
    requires Distinct(items)
    ensures |Names(items)| == |items|
    decreases |items|
  {
    if items != [] {
      var front, last := items[..|items| - 1], items[|items| - 1];
      assert items == front + [last];
      NamesSnoc(front, last);
      DistinctSize(front);
    }
  }

  lemma FoundFitsWithin(g: Graph, max: nat, seeds: set<string>, all: seq<Item>)
    requires Ordered(g, max, seeds, all)
    ensures Names(all) <= Within(g, seeds, max) && |all| <= |Within(g, seeds, max)|
  {
    forall x | x in Names(all) ensures x in Within(g, seeds, max) {
      var i := PlaceOf(all, x);
      assert Minimal(g, max, seeds, all[i]);
      WithinGrows(g, seeds, all[i].depth, max);
    }
    DistinctSize(all);
    SubsetSize(Names(all), Within(g, seeds, max));
  }

  lemma ExpandedGrows(g: Graph, max: nat, all: seq<Item>, longer: seq<Item>, n: nat)
    requires Expanded(g, max, all, n) && all <= longer && n < |all|
    requires all[n].depth < max ==> AllIn(g(all[n].name), Names(longer))
    ensures Expanded(g, max, longer, n + 1)
  {
    NamesGrow(all, longer);
    forall i | 0 <= i < n + 1 && longer[i].depth < max
      ensures AllIn(g(longer[i].name), Names(longer))
    {
      if i < n {
        assert AllIn(g(all[i].name), Names(all));
      }
    }
  }

  /** One round: the popped item's targets join the queue. */
  lemma Advance(g: Graph, max: nat, seeds: set<string>, f: Frontier, all: seq<Item>, n: nat, item: Item)
      returns (longer: seq<Item>)
    requires Ordered(g, max, seeds, all) && Expanded(g, max, all, n) && Narrow(all, n)
    requires n < |all| && all[n] == item && Tracks(f, all, n + 1)
    requires Within(g, seeds, item.depth) <= Names(all)
    ensures all <= longer
    ensures Tracks(if item.depth < max then EnqueueAll(f, g(item.name), item.depth + 1) else f, longer, n + 1)
    ensures Ordered(g, max, seeds, longer) && Expanded(g, max, longer, n + 1) && Narrow(longer, n + 1)
  {
    AllShallow(all, n);
    if item.depth < max {
      longer := QueueKeys(g, max, seeds, f, all, n + 1, item, g(item.name), item.depth + 1);
    } else {
      longer := all;
    }
    ExpandedGrows(g, max, all, longer, n);
    NarrowAgain(longer, n);
  }

  lemma QueueKeys(g: Graph, max: nat, seeds: set<string>, f: Frontier, all: seq<Item>, n: nat, item: Item,
      keys: seq<string>, depth: nat)
      returns (longer: seq<Item>)
    requires Ordered(g, max, seeds, all) && Tracks(f, all, n) && Within(g, seeds, item.depth) <= Names(all)
    requires item in all && keys == g(item.name) && depth == item.depth + 1 <= max
    requires forall i | i in all :: i.depth <= depth
    ensures all <= longer && Ordered(g, max, seeds, longer) && Tracks(EnqueueAll(f, keys, depth), longer, n)
    ensures AllIn(keys, Names(longer)) && forall i | i in longer :: i.depth <= depth
  {
    var ok := HopsAreOk(g, max, seeds, all, item, keys, depth);
    longer := QueueTested(g, max, seeds, ok, f, all, n, keys, depth);
  }

  lemma HopsAreOk(g: Graph, max: nat, seeds: set<string>, all: seq<Item>, item: Item, keys: seq<string>, depth: nat)
      returns (ok: Item -> bool)
    requires Ordered(g, max, seeds, all) && Within(g, seeds, item.depth) <= Names(all)
    requires item in all && keys == g(item.name) && depth == item.depth + 1 <= max
    ensures ok == MinimalTest(g, max, seeds) && forall h | h in keys :: h in Names(all) || ok(Item(h, depth))
  {
    ok := MinimalTest(g, max, seeds);
    HopsAreMinimal(g, max, seeds, all, item, ok);
  }

  /** The same with the test as a value, so that nothing is known of it but its results. */
  lemma QueueTested(g: Graph, max: nat, seeds: set<string>, ok: Item -> bool, f: Frontier, all: seq<Item>, n: nat,
      keys: seq<string>, depth: nat)
      returns (longer: seq<Item>)
    requires ok == MinimalTest(g, max, seeds) && Ordered(g, max, seeds, all) && Tracks(f, all, n)
    requires (forall i | i in all :: i.depth <= depth) && forall h | h in keys :: h in Names(all) || ok(Item(h, depth))
    ensures all <= longer && Ordered(g, max, seeds, longer) && Tracks(EnqueueAll(f, keys, depth), longer, n)
    ensures AllIn(keys, Names(longer)) && forall i | i in longer :: i.depth <= depth
  {
    OkIfOrdered(g, max, seeds, all, ok);
    longer := FillTested(ok, seeds, f, all, n, keys, depth);
    OrderedIfOk(g, max, seeds, longer, ok);
  }

  predicate AllOk(ok: Item -> bool, all: seq<Item>) {
    forall i | i in all :: ok(i)
  }

  lemma FillTested(ok: Item -> bool, seeds: set<string>, f: Frontier, all: seq<Item>, n: nat, keys: seq<string>,
      depth: nat)
      returns (longer: seq<Item>)
    requires Listed(seeds, all) && AllOk(ok, all) && Tracks(f, all, n) && forall i | i in all :: i.depth <= depth
    requires forall h | h in keys :: h in Names(all) || ok(Item(h, depth))
    ensures all <= longer && Listed(seeds, longer) && AllOk(ok, longer) && Tracks(EnqueueAll(f, keys, depth), longer, n)
    ensures AllIn(keys, Names(longer)) && forall i | i in longer :: i.depth <= depth
  {
    longer := FillAll(ok, seeds, f, all, n, keys, depth);
  }

  lemma HopsAreMinimal(g: Graph, max: nat, seeds: set<string>, all: seq<Item>, item: Item, ok: Item -> bool)
    requires Minimal(g, max, seeds, item) && item.depth < max && Within(g, seeds, item.depth) <= Names(all)
    requires ok == MinimalTest(g, max, seeds)
    ensures forall h | h in g(item.name) :: h in Names(all) || ok(Item(h, item.depth + 1))
  {
    forall h | h in g(item.name) && h !in Names(all) ensures ok(Item(h, item.depth + 1)) {
      HopIsMinimal(g, max, seeds, all, item, h);
    }
  }

  lemma OkIfOrdered(g: Graph, max: nat, seeds: set<string>, all: seq<Item>, ok: Item -> bool)
    requires ok == MinimalTest(g, max, seeds) && Ordered(g, max, seeds, all)
    ensures Listed(seeds, all) && AllOk(ok, all)
  {
  }

  lemma OrderedIfOk(g: Graph, max: nat, seeds: set<string>, all: seq<Item>, ok: Item -> bool)
    requires ok == MinimalTest(g, max, seeds) && Listed(seeds, all) && AllOk(ok, all)
    ensures Ordered(g, max, seeds, all)
  {
    forall i | i in all ensures Minimal(g, max, seeds, i) {
      assert ok(i);
    }
  }

  lemma AllShallow(all: seq<Item>, n: nat)
    requires Sorted(all) && Narrow(all, n) && n < |all|
    ensures forall i | i in all :: i.depth <= all[n].depth + 1
  {
    forall i | i in all ensures i.depth <= all[n].depth + 1 {
      var k :| 0 <= k < |all| && all[k] == i;
    }
  }

  lemma NarrowAgain(all: seq<Item>, n: nat)
    requires Sorted(all) && n < |all| && forall i | i in all :: i.depth <= all[n].depth + 1
    ensures Narrow(all, n + 1)
  {
    forall i | n + 1 <= i < |all| ensures all[i].depth <= all[n + 1].depth + 1 {
      assert all[i] in all;
      assert all[n].depth <= all[n + 1].depth;
    }
  }

  /** When an item is taken off the queue, everything as near as it has been found. */
  lemma BeforeRound(g: Graph, max: nat, seeds: set<string>, f: Frontier, all: seq<Item>, n: nat)
    requires Ordered(g, max, seeds, all) && Expanded(g, max, all, n) && Tracks(f, all, n) && f.queue != []
    ensures n < |all| <= |Within(g, seeds, max)| && f.queue[0] == all[n]
    ensures Within(g, seeds, all[n].depth) <= Names(all)
    ensures Tracks(Frontier(f.seen, f.queue[1..]), all, n + 1)
  {
    assert all[n] in all;
    assert Minimal(g, max, seeds, all[n]);
    FoundFitsWithin(g, max, seeds, all);
    LevelsFound(g, max, seeds, all, n, all[n].depth);
  }

  /** When the queue is empty, exactly what lies within the bound has been found. */
  lemma AfterRounds(g: Graph, max: nat, seeds: set<string>, all: seq<Item>, n: nat)
    requires Ordered(g, max, seeds, all) && Expanded(g, max, all, n) && n == |all|
    ensures Names(all) == Within(g, seeds, max)
  {
    FoundFitsWithin(g, max, seeds, all);
    LevelsFound(g, max, seeds, all, n, max);
  }
}
