/** The scrape as a whole: which names are queried, and what is returned. */
module ScrapeWalk {
  import opened Text
  import opened Records
  import opened Scrape
  import opened Bfs

  /** The fixed parameters of a walk. */
  datatype Site = Site(net: Network, domain: string, types: nat)

  /** One hop: an in-zone CNAME target in some answer about the name. */
  function HopGraph(w: Site): Graph {
    name => Hops(w.net, w.domain, name, w.types)
  }

  /** The in-zone records of all answers about the name. */
  function RecordsAt(w: Site): string -> seq<Record> {
    name => Found(w.net, w.domain, name, w.types)
  }

  function Collect(finds: string -> seq<Record>, items: seq<Item>): seq<Record> {
    if items == [] then [] else Collect(finds, items[..|items| - 1]) + finds(items[|items| - 1].name)
  }

  function KeySet(keys: seq<string>): set<string> {
    set k | k in keys :: k
  }

  function Seeds(domain: string, labels: seq<string>): set<string> {
    KeySet(SeedKeys(domain, labels))
  }

  /** The queue while the seeds are put in. */
  ghost predicate Seeding(f: Frontier, keys: seq<string>) {
    Distinct(f.queue) && Tracks(f, f.queue, 0) && f.seen == KeySet(keys) && forall k | k in f.queue :: k.depth == 0
  }

  lemma SeedOne(f: Frontier, keys: seq<string>, key: string)
    requires Seeding(f, keys)
    ensures Seeding(Enqueue(f, key, 0), keys + [key])
  {
    KeySetSnoc(keys, key);
    if key in f.seen {
      assert KeySet(keys + [key]) == f.seen;
    } else {
      QueueSnoc(f.queue, Item(key, 0));
      NamesSnoc(f.queue, Item(key, 0));
    }
  }

  lemma KeySetSnoc(keys: seq<string>, key: string)
    ensures KeySet(keys + [key]) == KeySet(keys) + {key}
  {
    forall k ensures k in KeySet(keys + [key]) <==> k in KeySet(keys) + {key} {
      assert k in keys + [key] <==> k in keys || k == key;
    }
  }

  lemma QueueSnoc(queue: seq<Item>, item: Item)
    requires Distinct(queue) && item.name !in Names(queue)
    ensures Distinct(queue + [item])
    ensures forall i :: i in queue + [item] <==> i in queue || i == item
  {
    var longer := queue + [item];
    forall i, j | 0 <= i < j < |longer| ensures longer[i].name != longer[j].name {
      assert longer[i] == queue[i] && queue[i] in queue && queue[i].name in Names(queue);
    }
  }

  lemma SeedNone(keys: seq<string>)
    ensures Seeding(Frontier({}, []), keys[..0])
  {
  }

  lemma SeedNext(f: Frontier, keys: seq<string>, i: nat)
    requires i < |keys| && Seeding(f, keys[..i])
    ensures Seeding(Enqueue(f, keys[i], 0), keys[..i + 1])
  {
    assert keys[..i + 1] == keys[..i] + [keys[i]];
    SeedOne(f, keys[..i], keys[i]);
  }

  lemma SeedsOrdered(g: Graph, max: nat, f: Frontier, keys: seq<string>)
    requires Seeding(f, keys)
    ensures Ordered(g, max, KeySet(keys), f.queue)
  {
    forall i | i in f.queue ensures Minimal(g, max, KeySet(keys), i) {
      assert i.name in Names(f.queue);
    }
  }

  method EnqueueSeeds(domain: string, labels: seq<string>) returns (f: Frontier)
    ensures Seeding(f, SeedKeys(domain, labels))
  {
    f := Frontier({}, []);
    ghost var keys := SeedKeys(domain, labels);
    SeedNone(keys);
    for i := 0 to |labels|
      invariant Seeding(f, keys[..i])
    {
      SeedNext(f, keys, i);
      f := EnqueueName(f, LabelName(labels[i], domain), 0);
    }
    assert keys[..|labels|] == keys;
  }

  lemma CollectNext(finds: string -> seq<Record>, order: seq<Item>, longer: seq<Item>, n: nat)
    requires n < |order| && order <= longer
    ensures Collect(finds, longer[..n + 1]) == Collect(finds, order[..n]) + finds(order[n].name)
  {
    assert longer[..n + 1][..n] == order[..n];
  }

  /** All queries about the item at the head of the queue. */
  method QueryItem(w: Site, item: Item, f: Frontier, records: seq<Record>, ghost g: Graph,
      ghost finds: string -> seq<Record>, ghost max: nat)
      returns (f': Frontier, records': seq<Record>)
    requires g == HopGraph(w) && finds == RecordsAt(w) && max == MAX_DEPTH
    ensures records' == records + finds(item.name)
    ensures f' == if item.depth < max then EnqueueAll(f, g(item.name), item.depth + 1) else f
  {
    f', records' := QueryName(w.net, w.domain, w.types, item, f, records);
  }

  /** The queue loop. */
  method Scan(w: Site, f0: Frontier, ghost seeds: set<string>, ghost g: Graph, ghost finds: string -> seq<Record>,
      ghost max: nat)
      returns (records: seq<Record>, ghost order: seq<Item>)
    requires g == HopGraph(w) && finds == RecordsAt(w) && max == MAX_DEPTH
    requires Tracks(f0, f0.queue, 0) && Ordered(g, max, seeds, f0.queue) && Narrow(f0.queue, 0)
    ensures Ordered(g, max, seeds, order) && Names(order) == Within(g, seeds, max)
    ensures records == Collect(finds, order)
  {
    var f := f0;
    order := f.queue;
    ghost var n := 0;
    records := [];
    while f.queue != []
      invariant Tracks(f, order, n) && Ordered(g, max, seeds, order)
      invariant Expanded(g, max, order, n) && Narrow(order, n)
      invariant records == Collect(finds, order[..n])
      decreases |Within(g, seeds, max)| - n
    {
      var item := f.queue[0];
      BeforeRound(g, max, seeds, f, order, n);
      f := Frontier(f.seen, f.queue[1..]);
      ghost var longer := Advance(g, max, seeds, f, order, n, item);
      CollectNext(finds, order, longer, n);
      f, records := QueryItem(w, item, f, records, g, finds, max);
      order, n := longer, n + 1;
    }
    AfterRounds(g, max, seeds, order, n);
    assert order[..n] == order;
  }

  // ---------------------------------------------------------------- the result

  /** The records found for any of the names. */
  ghost function RecordsOfNames(finds: string -> seq<Record>, names: set<string>): set<Record> {
    set n, r | n in names && r in finds(n) :: r
  }

  ghost function KeysOf(recs: set<Record>): set<string> {
    set r | r in recs :: DedupKey(r)
  }

  ghost function Members(recs: seq<Record>): set<Record> {
    set r | r in recs :: r
  }

  lemma MembersAppend(a: seq<Record>, b: seq<Record>)
    ensures Members(a + b) == Members(a) + Members(b)
  {
    assert forall r :: r in a + b <==> r in a || r in b;
  }

  lemma RecordsOfMore(finds: string -> seq<Record>, names: set<string>, name: string)
    ensures RecordsOfNames(finds, names + {name}) == RecordsOfNames(finds, names) + Members(finds(name))
  {
  }

  lemma {:induction false} CollectMembers(finds: string -> seq<Record>, items: seq<Item>)
    ensures Members(Collect(finds, items)) == RecordsOfNames(finds, Names(items))
  {
    if items == [] {
      assert Names(items) == {};
      assert Members(Collect(finds, items)) == {};
    } else {
      var front, last := items[..|items| - 1], items[|items| - 1];
      CollectMembers(finds, front);
      MembersAppend(Collect(finds, front), finds(last.name));
      RecordsOfMore(finds, Names(front), last.name);
      assert items == front + [last];
      NamesSnoc(front, last);
    }
  }

  /** A list without duplicate keys that holds some of the records and all their keys. */
  ghost predicate Summary(records: seq<Record>, found: set<Record>) {
    DistinctKeys(records) && Members(records) <= found && DedupKeys(records) == KeysOf(found)
  }

  lemma CollectedSummary(finds: string -> seq<Record>, order: seq<Item>, names: set<string>)
    requires Names(order) == names
    ensures Summary(Dedup(Collect(finds, order)), RecordsOfNames(finds, names))
  {
    var all := Collect(finds, order);
    DedupExact(all);
    CollectMembers(finds, order);
    assert DedupKeys(all) == KeysOf(Members(all));
  }

  /** The label "@" stands for the domain, any other for what is below it; names are asked for in lower case and
      without a final dot. */
  lemma SeedsAre(domain: string, labels: seq<string>, name: string)
    ensures name in Seeds(domain, labels) <==>
      exists l | l in labels :: name == ToLower(TrimDot(if l == "@" then domain else l + "." + domain))
  {
    var keys := SeedKeys(domain, labels);
    if name in keys {
      var i :| 0 <= i < |keys| && keys[i] == name;
      assert labels[i] in labels && name == NameKey(LabelName(labels[i], domain));
    }
    if l :| l in labels && name == ToLower(TrimDot(if l == "@" then domain else l + "." + domain)) {
      var i :| 0 <= i < |labels| && labels[i] == l;
      assert keys[i] == name;
    }
  }

  /** An answer about a name within four hops of the seeds carries the record. */
  ghost predicate Answered(w: Site, labels: seq<string>, rec: Record) {
    exists name | name in Within(HopGraph(w), Seeds(w.domain, labels), 4) :: Told(w.net, w.domain, w.types, name, rec)
  }

  lemma AnsweredIff(w: Site, labels: seq<string>, rec: Record)
    ensures Answered(w, labels, rec) <==>
      rec in RecordsOfNames(RecordsAt(w), Within(HopGraph(w), Seeds(w.domain, labels), MAX_DEPTH))
  {
    var names := Within(HopGraph(w), Seeds(w.domain, labels), MAX_DEPTH);
    forall name ensures rec in RecordsAt(w)(name) <==> Told(w.net, w.domain, w.types, name, rec) {
      FoundIff(w.net, w.domain, w.types, name, rec);
    }
  }

  lemma ReturnedIsAnswered(w: Site, labels: seq<string>, records: seq<Record>)
    requires Summary(records, RecordsOfNames(RecordsAt(w), Within(HopGraph(w), Seeds(w.domain, labels), MAX_DEPTH)))
    ensures forall rec | rec in records :: Answered(w, labels, rec)
    ensures forall rec | Answered(w, labels, rec) :: exists kept | kept in records :: DedupKey(kept) == DedupKey(rec)
  {
    var found := RecordsOfNames(RecordsAt(w), Within(HopGraph(w), Seeds(w.domain, labels), MAX_DEPTH));
    forall rec | rec in records ensures Answered(w, labels, rec) {
      assert rec in Members(records);
      AnsweredIff(w, labels, rec);
    }
    forall rec | Answered(w, labels, rec) ensures exists kept | kept in records :: DedupKey(kept) == DedupKey(rec) {
      AnsweredIff(w, labels, rec);
      assert DedupKey(rec) in KeysOf(found);
      assert DedupKey(rec) in DedupKeys(records);
    }
  }

  /** Terminates for any answers and returns, without duplicates, exactly what is found for the names
      within four in-zone CNAME hops of the seeds. `order` lists the names in the order they are
      queried: each exactly once, at its distance from the seeds. */
  method IteratedScrape(w: Site, labels: seq<string>) returns (records: seq<Record>, ghost order: seq<Item>)
    ensures Summary(records, RecordsOfNames(RecordsAt(w), Within(HopGraph(w), Seeds(w.domain, labels), MAX_DEPTH)))
    ensures Ordered(HopGraph(w), MAX_DEPTH, Seeds(w.domain, labels), order)
    ensures Names(order) == Within(HopGraph(w), Seeds(w.domain, labels), MAX_DEPTH)
    ensures records == Dedup(Collect(RecordsAt(w), order))
    ensures forall rec | rec in records :: Answered(w, labels, rec)
    ensures forall rec | Answered(w, labels, rec) :: exists kept | kept in records :: DedupKey(kept) == DedupKey(rec)
  {
    var f := EnqueueSeeds(w.domain, labels);
    SeedsOrdered(HopGraph(w), MAX_DEPTH, f, SeedKeys(w.domain, labels));
    var all;
    all, order := Scan(w, f, Seeds(w.domain, labels), HopGraph(w), RecordsAt(w), MAX_DEPTH);
    CollectedSummary(RecordsAt(w), order, Within(HopGraph(w), Seeds(w.domain, labels), MAX_DEPTH));
    records := DedupRecords(all);
    ReturnedIsAnswered(w, labels, records);
  }

  // ---------------------------------------------------------------- what is returned

  /** The owner of a returned record is the zone or below it. */
  predicate Inside(r: Record, domain: string) {
    var n, z := ToLower(r.name), ToLower(TrimDot(domain));
    n == z || HasSuffix(n, "." + z)
  }

  lemma FoundOneInside(rr: Rr, domain: string)
    ensures forall r | r in FoundOne(rr, domain) :: Inside(r, domain)
  {
  }

  lemma {:induction false} FoundInInside(rrs: seq<Rr>, domain: string)
    ensures forall r | r in FoundIn(rrs, domain) :: Inside(r, domain)
  {
    if rrs != [] {
      FoundInInside(rrs[..|rrs| - 1], domain);
      FoundOneInside(rrs[|rrs| - 1], domain);
    }
  }

  lemma {:induction false} FoundInside(net: Network, domain: string, name: string, types: nat)
    ensures forall r | r in Found(net, domain, name, types) :: Inside(r, domain)
  {
    if types > 0 {
      FoundInside(net, domain, name, types - 1);
      FoundInInside(Usable(net(name, types - 1)), domain);
    }
  }

  /** Whatever the servers answer, every returned record is in zone and none is returned twice. */
  lemma {:induction false} ReturnedInZone(w: Site, order: seq<Item>)
    ensures forall r | r in Collect(RecordsAt(w), order) :: Inside(r, w.domain)
    ensures forall r | r in Dedup(Collect(RecordsAt(w), order)) :: Inside(r, w.domain)
    ensures DistinctKeys(Dedup(Collect(RecordsAt(w), order)))
  {
    if order != [] {
      ReturnedInZone(w, order[..|order| - 1]);
      FoundInside(w.net, w.domain, order[|order| - 1].name, w.types);
    }
    DedupExact(Collect(RecordsAt(w), order));
  }
}
