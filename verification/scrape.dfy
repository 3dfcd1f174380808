/** Scraping a zone by queries: a breadth-first walk over labels and in-zone CNAME targets. */
module Scrape {
  import opened Text
  import opened Records

  /** The answer records, by what the conversion does with them. */
  datatype Rr =
    | Cname(owner: string, target: string, ttl: int)
    | Ns(owner: string, host: string, ttl: int)
    | Data(owner: string, typ: string, content: string, ttl: int, priority: int, weight: int, port: int)
    | Unsupported(owner: string)

  /** `usable` is the response code NOERROR or NXDOMAIN. */
  datatype Answer = QueryFailed | Response(usable: bool, rrs: seq<Rr>)

  /** The authoritative servers: any answers whatever to a name and a record type. The record types are
      numbered from 0; the program asks for ten of them, the proofs hold for any number `types`. */
  type Network = (string, nat) -> Answer

  const MAX_DEPTH := 4

  function RrToRecord(rr: Rr): Option<Record> {
    match rr
    case Cname(owner, target, ttl) => Some(Record("CNAME", TrimDot(owner), TrimDot(target), ttl, 0, 0, 0, "", "", None))
    case Ns(owner, host, ttl) => Some(Record("NS", TrimDot(owner), TrimDot(host), ttl, 0, 0, 0, "", "", None))
    case Data(owner, typ, content, ttl, priority, weight, port) =>
      Some(Record(typ, TrimDot(owner), content, ttl, priority, weight, port, "", "", None))
    case Unsupported(_) => None
  }

  predicate ButDot(full: string, s: string) {
    full == s + "." || (full == s && !Dotted(s))
  }

  /** The answer record carries just this record: the same fields, the names but for a final dot. */
  predicate Carries(rr: Rr, rec: Record) {
    && rec.service == "" && rec.protocol == "" && rec.dc == None && !rr.Unsupported?
    && ButDot(rr.owner, rec.name) && rec.ttl == rr.ttl
    && (rr.Cname? ==> rec.typ == "CNAME" && ButDot(rr.target, rec.content))
    && (rr.Ns? ==> rec.typ == "NS" && ButDot(rr.host, rec.content))
    && (rr.Data? ==> rec.typ == rr.typ && rec.content == rr.content)
    && rec.priority == (if rr.Data? then rr.priority else 0)
    && rec.weight == (if rr.Data? then rr.weight else 0)
    && rec.port == (if rr.Data? then rr.port else 0)
  }

  lemma ConvertsIff(rr: Rr, rec: Record)
    ensures RrToRecord(rr) == Some(rec) <==> Carries(rr, rec)
  {
    Undotted(rr.owner, rec.name);
    if rr.Cname? {
      Undotted(rr.target, rec.content);
    } else if rr.Ns? {
      Undotted(rr.host, rec.content);
    }
  }

  predicate InZone(name: string, zone: string) {
    var n, z := ToLower(TrimDot(name)), ToLower(TrimDot(zone));
    n == z || HasSuffix(n, "." + z)
  }

  /** In the zone are its own name and what ends in a dot and that name, up to case and a final dot. */
  lemma InZoneIff(name: string, zone: string, n: string, z: string)
    requires ButDot(name, n) && ButDot(zone, z)
    ensures InZone(name, zone) <==>
      ToLower(n) == ToLower(z) || exists front :: ToLower(n) == front + ("." + ToLower(z))
  {
    Undotted(name, n);
    Undotted(zone, z);
    EndsOnly(ToLower(n), "." + ToLower(z));
  }

  /** The form under which a name is remembered and queried. */
  function NameKey(name: string): string {
    ToLower(TrimDot(name))
  }

  function LabelName(lbl: string, domain: string): string {
    if lbl == "@" then domain else lbl + "." + domain
  }

  // ---------------------------------------------------------------- what one name contributes

  function FoundOne(rr: Rr, domain: string): seq<Record> {
    if InZone(rr.owner, domain) && RrToRecord(rr).Some? then [RrToRecord(rr).value] else []
  }

  /** The target of an in-zone CNAME, when it is in zone too. */
  function HopOne(rr: Rr, domain: string): seq<string> {
    if rr.Cname? && InZone(rr.owner, domain) && InZone(TrimDot(rr.target), domain)
    then [NameKey(TrimDot(rr.target))]
    else []
  }

  /** The records of an answer that are kept. */
  function FoundIn(rrs: seq<Rr>, domain: string): seq<Record> {
    if rrs == [] then [] else FoundIn(rrs[..|rrs| - 1], domain) + FoundOne(rrs[|rrs| - 1], domain)
  }

  function HopsIn(rrs: seq<Rr>, domain: string): seq<string> {
    if rrs == [] then [] else HopsIn(rrs[..|rrs| - 1], domain) + HopOne(rrs[|rrs| - 1], domain)
  }

  function Usable(a: Answer): seq<Rr> {
    if a.Response? && a.usable then a.rrs else []
  }

  function Found(net: Network, domain: string, name: string, types: nat): seq<Record> {
    if types == 0 then [] else Found(net, domain, name, types - 1) + FoundIn(Usable(net(name, types - 1)), domain)
  }

  /** The names one CNAME hop away. */
  function Hops(net: Network, domain: string, name: string, types: nat): seq<string> {
    if types == 0 then [] else Hops(net, domain, name, types - 1) + HopsIn(Usable(net(name, types - 1)), domain)
  }

  /** What the servers answer about a name and a type, in a response that is used. */
  predicate Answers(net: Network, name: string, t: nat, rr: Rr) {
    net(name, t).Response? && net(name, t).usable && rr in net(name, t).rrs
  }

  /** The answers about the name for one type carry the record, and its owner is in the zone. */
  ghost predicate ToldBy(net: Network, domain: string, t: nat, name: string, rec: Record) {
    exists rr | Answers(net, name, t, rr) :: InZone(rr.owner, domain) && Carries(rr, rec)
  }

  ghost function ToldTest(net: Network, domain: string, name: string, rec: Record): nat -> bool {
    (t: nat) => ToldBy(net, domain, t, name, rec)
  }

  ghost predicate SomeType(p: nat -> bool, types: nat) {
    exists t: nat | t < types :: p(t)
  }

  /** What the types give together, one after the other. */
  ghost function Gathering<T>(f: nat -> seq<T>, types: nat): seq<T> {
    if types == 0 then [] else Gathering(f, types - 1) + f(types - 1)
  }

  lemma {:induction false} GatheringIff<T>(f: nat -> seq<T>, p: nat -> bool, types: nat, x: T)
    requires forall t: nat :: x in f(t) <==> p(t)
    ensures x in Gathering(f, types) <==> SomeType(p, types)
    decreases types
  {
    if types > 0 {
      GatheringIff(f, p, types - 1, x);
      if t: nat :| t < types && p(t) {
        assert t < types - 1 || t == types - 1;
      }
    }
  }

  /** Some answer about the name carries the record, and its owner is in the zone. */
  ghost predicate Told(net: Network, domain: string, types: nat, name: string, rec: Record) {
    SomeType(ToldTest(net, domain, name, rec), types)
  }

  lemma {:induction false} FoundInIff(rrs: seq<Rr>, domain: string, rec: Record)
    ensures rec in FoundIn(rrs, domain) <==> exists rr | rr in rrs :: InZone(rr.owner, domain) && Carries(rr, rec)
  {
    if rrs != [] {
      var front, last := rrs[..|rrs| - 1], rrs[|rrs| - 1];
      FoundInIff(front, domain, rec);
      ConvertsIff(last, rec);
      assert forall rr :: rr in rrs <==> rr in front || rr == last;
    }
  }

  lemma FoundByType(net: Network, domain: string, t: nat, name: string, rec: Record)
    ensures rec in FoundIn(Usable(net(name, t)), domain) <==> ToldBy(net, domain, t, name, rec)
  {
    FoundInIff(Usable(net(name, t)), domain, rec);
  }

  ghost function FoundTest(net: Network, domain: string, name: string): nat -> seq<Record> {
    (t: nat) => FoundIn(Usable(net(name, t)), domain)
  }

  lemma {:induction false} FoundIsGathering(net: Network, domain: string, types: nat, name: string)
    ensures Found(net, domain, name, types) == Gathering(FoundTest(net, domain, name), types)
    decreases types
  {
    if types > 0 {
      FoundIsGathering(net, domain, types - 1, name);
    }
  }

  /** What is found at a name is exactly what is told about it. */
  lemma FoundIff(net: Network, domain: string, types: nat, name: string, rec: Record)
    ensures rec in Found(net, domain, name, types) <==> Told(net, domain, types, name, rec)
  {
    var f, p := FoundTest(net, domain, name), ToldTest(net, domain, name, rec);
    FoundIsGathering(net, domain, types, name);
    forall t: nat ensures rec in f(t) <==> p(t) {
      FoundByType(net, domain, t, name, rec);
    }
    GatheringIff(f, p, types, rec);
  }

  /** Some in-zone CNAME answer about the name for one type has this in-zone target. */
  ghost predicate HopBy(net: Network, domain: string, t: nat, name: string, next: string) {
    exists rr | Answers(net, name, t, rr) ::
      rr.Cname? && InZone(rr.owner, domain) && InZone(TrimDot(rr.target), domain) &&
      next == ToLower(TrimDot(TrimDot(rr.target)))
  }

  ghost function HopTest(net: Network, domain: string, name: string, next: string): nat -> bool {
    (t: nat) => HopBy(net, domain, t, name, next)
  }

  ghost predicate Hop(net: Network, domain: string, types: nat, name: string, next: string) {
    SomeType(HopTest(net, domain, name, next), types)
  }

  lemma HopsByType(net: Network, domain: string, t: nat, name: string, next: string)
    ensures next in HopsIn(Usable(net(name, t)), domain) <==> HopBy(net, domain, t, name, next)
  {
    HopsInIff(Usable(net(name, t)), domain, next);
  }

  lemma {:induction false} HopsInIff(rrs: seq<Rr>, domain: string, next: string)
    ensures next in HopsIn(rrs, domain) <==> exists rr | rr in rrs ::
      rr.Cname? && InZone(rr.owner, domain) && InZone(TrimDot(rr.target), domain) &&
      next == ToLower(TrimDot(TrimDot(rr.target)))
  {
    if rrs != [] {
      var front, last := rrs[..|rrs| - 1], rrs[|rrs| - 1];
      HopsInIff(front, domain, next);
      assert forall rr :: rr in rrs <==> rr in front || rr == last;
    }
  }

  ghost function HopsTest(net: Network, domain: string, name: string): nat -> seq<string> {
    (t: nat) => HopsIn(Usable(net(name, t)), domain)
  }

  lemma {:induction false} HopsAreGathering(net: Network, domain: string, types: nat, name: string)
    ensures Hops(net, domain, name, types) == Gathering(HopsTest(net, domain, name), types)
    decreases types
  {
    if types > 0 {
      HopsAreGathering(net, domain, types - 1, name);
    }
  }

  /** The names queued from a name are exactly the targets told about it. */
  lemma HopsIff(net: Network, domain: string, types: nat, name: string, next: string)
    ensures next in Hops(net, domain, name, types) <==> Hop(net, domain, types, name, next)
  {
    var f, p := HopsTest(net, domain, name), HopTest(net, domain, name, next);
    HopsAreGathering(net, domain, types, name);
    forall t: nat ensures next in f(t) <==> p(t) {
      HopsByType(net, domain, t, name, next);
    }
    GatheringIff(f, p, types, next);
  }

  // ---------------------------------------------------------------- the queue

  datatype Item = Item(name: string, depth: nat)

  datatype Frontier = Frontier(seen: set<string>, queue: seq<Item>)

  function Enqueue(f: Frontier, key: string, depth: nat): Frontier {
    if key in f.seen then f else Frontier(f.seen + {key}, f.queue + [Item(key, depth)])
  }

  function EnqueueAll(f: Frontier, keys: seq<string>, depth: nat): Frontier {
    if keys == [] then f else Enqueue(EnqueueAll(f, keys[..|keys| - 1], depth), keys[|keys| - 1], depth)
  }

  lemma EnqueueOne(f: Frontier, key: string, depth: nat)
    ensures EnqueueAll(f, [key], depth) == Enqueue(f, key, depth)
  {
    assert [key][..0] == [];
    assert EnqueueAll(f, [key][..0], depth) == f;
  }

  lemma {:induction false} EnqueueAllAppend(f: Frontier, a: seq<string>, b: seq<string>, depth: nat)
    ensures EnqueueAll(f, a + b, depth) == EnqueueAll(EnqueueAll(f, a, depth), b, depth)
    decreases |b|
  {
    if b == [] {
      assert a + b == a;
    } else {
      assert (a + b)[..|a + b| - 1] == a + b[..|b| - 1];
      EnqueueAllAppend(f, a, b[..|b| - 1], depth);
    }
  }

  method EnqueueName(f: Frontier, name: string, depth: nat) returns (f': Frontier)
    ensures f' == Enqueue(f, NameKey(name), depth)
  {
    var key := NameKey(name);
    if key in f.seen {
      return f;
    }
    return Frontier(f.seen + {key}, f.queue + [Item(key, depth)]);
  }

  function SeedKeys(domain: string, labels: seq<string>): (s: seq<string>)
    ensures |s| == |labels|
  {
    seq(|labels|, i requires 0 <= i < |labels| => NameKey(LabelName(labels[i], domain)))
  }

  /** The frontier after queuing what item leads to. */
  function Queued(f: Frontier, keys: seq<string>, item: Item): Frontier {
    if item.depth < MAX_DEPTH then EnqueueAll(f, keys, item.depth + 1) else f
  }

  lemma QueuedAppend(f: Frontier, a: seq<string>, b: seq<string>, item: Item)
    ensures Queued(f, a + b, item) == Queued(Queued(f, a, item), b, item)
  {
    EnqueueAllAppend(f, a, b, item.depth + 1);
  }

  lemma QueuedNone(f: Frontier, item: Item)
    ensures Queued(f, [], item) == f
  {
  }

  /** One answer record. */
  method TakeRr(rr: Rr, domain: string, item: Item, f: Frontier, records: seq<Record>)
      returns (f': Frontier, records': seq<Record>)
    ensures records' == records + FoundOne(rr, domain)
    ensures f' == Queued(f, HopOne(rr, domain), item)
  {
    f', records' := f, records;
    if !InZone(rr.owner, domain) {
      return;
    }
    var rec := RrToRecord(rr);
    if rec.None? {
      return;
    }
    records' := records' + [rec.value];
    if rr.Cname? && item.depth < MAX_DEPTH {
      var tgt := TrimDot(rr.target);
      if InZone(tgt, domain) {
        EnqueueOne(f, NameKey(tgt), item.depth + 1);
        f' := EnqueueName(f', tgt, item.depth + 1);
      }
    }
  }

  /** One answer: its records are collected and its in-zone targets queued. */
  method TakeAnswer(rrs: seq<Rr>, domain: string, item: Item, f: Frontier, records: seq<Record>)
      returns (f': Frontier, records': seq<Record>)
    ensures records' == records + FoundIn(rrs, domain)
    ensures f' == Queued(f, HopsIn(rrs, domain), item)
  {
    f', records' := f, records;
    for i := 0 to |rrs|
      invariant records' == records + FoundIn(rrs[..i], domain)
      invariant f' == Queued(f, HopsIn(rrs[..i], domain), item)
    {
      assert rrs[..i + 1][..i] == rrs[..i];
      QueuedAppend(f, HopsIn(rrs[..i], domain), HopOne(rrs[i], domain), item);
      f', records' := TakeRr(rrs[i], domain, item, f', records');
    }
    assert rrs[..|rrs|] == rrs;
  }

  lemma NothingUsable(domain: string, item: Item, f: Frontier)
    ensures FoundIn([], domain) == [] && Queued(f, HopsIn([], domain), item) == f
  {
  }

  /** One record type of one name. */
  method QueryType(net: Network, domain: string, t: nat, item: Item, f: Frontier, records: seq<Record>)
      returns (f': Frontier, records': seq<Record>)
    ensures records' == records + FoundIn(Usable(net(item.name, t)), domain)
    ensures f' == Queued(f, HopsIn(Usable(net(item.name, t)), domain), item)
  {
    var answer := net(item.name, t);
    if answer.QueryFailed? || !answer.usable {
      NothingUsable(domain, item, f);
      return f, records;
    }
    f', records' := TakeAnswer(answer.rrs, domain, item, f, records);
  }

  /** The outcome of the first t record types of a name. */
  ghost predicate Gathered(net: Network, domain: string, t: nat, item: Item, f: Frontier, records: seq<Record>,
      f': Frontier, records': seq<Record>) {
    records' == records + Found(net, domain, item.name, t) && f' == Queued(f, Hops(net, domain, item.name, t), item)
  }

  lemma FoundNext(net: Network, domain: string, name: string, t: nat)
    ensures Found(net, domain, name, t + 1) == Found(net, domain, name, t) + FoundIn(Usable(net(name, t)), domain)
    ensures Hops(net, domain, name, t + 1) == Hops(net, domain, name, t) + HopsIn(Usable(net(name, t)), domain)
  {
  }

  lemma QueuedBoth(records: seq<Record>, found: seq<Record>, kept: seq<Record>, f: Frontier, keys: seq<string>,
      more: seq<string>, item: Item)
    ensures (records + found) + kept == records + (found + kept)
    ensures Queued(Queued(f, keys, item), more, item) == Queued(f, keys + more, item)
  {
    QueuedAppend(f, keys, more, item);
  }

  lemma GatheredNext(net: Network, domain: string, t: nat, item: Item, f: Frontier, records: seq<Record>, f1: Frontier,
      records1: seq<Record>, kept: seq<Record>, more: seq<string>)
    requires Gathered(net, domain, t, item, f, records, f1, records1)
    requires kept == FoundIn(Usable(net(item.name, t)), domain) && more == HopsIn(Usable(net(item.name, t)), domain)
    ensures Gathered(net, domain, t + 1, item, f, records, Queued(f1, more, item), records1 + kept)
  {
    var keys, found := Hops(net, domain, item.name, t), Found(net, domain, item.name, t);
    FoundNext(net, domain, item.name, t);
    QueuedBoth(records, found, kept, f, keys, more, item);
  }

  lemma GatheredNone(net: Network, domain: string, item: Item, f: Frontier, records: seq<Record>)
    ensures Gathered(net, domain, 0, item, f, records, f, records)
  {
    QueuedNone(f, item);
  }

  /** All record types of one name. */
  method QueryName(net: Network, domain: string, types: nat, item: Item, f: Frontier, records: seq<Record>)
      returns (f': Frontier, records': seq<Record>)
    ensures Gathered(net, domain, types, item, f, records, f', records')
  {
    GatheredNone(net, domain, item, f, records);
    f', records' := f, records;
    for t := 0 to types
      invariant Gathered(net, domain, t, item, f, records, f', records')
    {
      ghost var rrs := Usable(net(item.name, t));
      GatheredNext(net, domain, t, item, f, records, f', records', FoundIn(rrs, domain), HopsIn(rrs, domain));
      f', records' := QueryType(net, domain, t, item, f', records');
    }
  }

  // ---------------------------------------------------------------- deduplication

  function DedupKey(r: Record): string {
    r.typ + "|" + ToLower(r.name) + "|" + r.content + "|" + Decimal(r.priority)
  }

  lemma LowerBarless(s: string)
    requires '|' !in s
    ensures '|' !in ToLower(s)
  {
    forall i | 0 <= i < |s| ensures ToLower(s)[i] != '|' {
      assert s[i] in s;
    }
  }

  lemma KeyTail(content: string, priority: int)
    ensures Split(content + "|" + Decimal(priority), '|') == Split(content, '|') + [Decimal(priority)]
  {
    DecimalBarless(priority);
    SplitWhole(Decimal(priority), '|');
    SplitAppend(content, '|', Decimal(priority));
  }

  lemma KeyHead(a: string, b: string, tail: string)
    requires '|' !in a && '|' !in b
    ensures Split(a + "|" + (b + "|" + tail), '|') == [a, b] + Split(tail, '|')
  {
    SplitWhole(a, '|');
    SplitWhole(b, '|');
    SplitAppend(b, '|', tail);
    SplitAppend(a, '|', b + "|" + tail);
  }

  lemma DedupKeyParts(r: Record)
    requires '|' !in r.typ && '|' !in r.name
    ensures Split(DedupKey(r), '|') == [r.typ, ToLower(r.name)] + (Split(r.content, '|') + [Decimal(r.priority)])
  {
    var tail := r.content + "|" + Decimal(r.priority);
    LowerBarless(r.name);
    KeyTail(r.content, r.priority);
    KeyHead(r.typ, ToLower(r.name), tail);
    assert DedupKey(r) == r.typ + "|" + (ToLower(r.name) + "|" + tail);
  }

  /** Two records have one key exactly when they agree in type, name up to case, content and priority. */
  lemma DedupKeyIff(r: Record, s: Record)
    requires '|' !in r.typ && '|' !in r.name && '|' !in s.typ && '|' !in s.name
    ensures DedupKey(r) == DedupKey(s) <==>
      r.typ == s.typ && ToLower(r.name) == ToLower(s.name) && r.content == s.content && r.priority == s.priority
  {
    if DedupKey(r) == DedupKey(s) {
      DedupKeyParts(r);
      DedupKeyParts(s);
      SamePartsInside([r.typ, ToLower(r.name)], Split(r.content, '|'), Decimal(r.priority),
        [s.typ, ToLower(s.name)], Split(s.content, '|'), Decimal(s.priority));
      DecimalInjective(r.priority, s.priority);
      JoinSplit(r.content, '|');
      JoinSplit(s.content, '|');
    }
  }

  lemma SamePartsInside(a: seq<string>, b: seq<string>, c: string, x: seq<string>, y: seq<string>, z: string)
    requires |a| == |x| == 2 && a + (b + [c]) == x + (y + [z])
    ensures a[0] == x[0] && a[1] == x[1] && b == y && c == z
  {
    var all := a + (b + [c]);
    assert a == all[..2] && x == all[..2];
    assert b + [c] == all[2..] && y + [z] == all[2..];
    assert b == (b + [c])[..|b|] && y == (y + [z])[..|y|];
    assert c == (b + [c])[|b|] && z == (y + [z])[|y|];
  }

  function DedupKeys(recs: seq<Record>): set<string> {
    set r | r in recs :: DedupKey(r)
  }

  function Dedup(recs: seq<Record>): seq<Record> {
    if recs == [] then []
    else
      var front, r := Dedup(recs[..|recs| - 1]), recs[|recs| - 1];
      if DedupKey(r) in DedupKeys(front) then front else front + [r]
  }

  lemma DedupKeysSnoc(front: seq<Record>, r: Record)
    ensures DedupKeys(front + [r]) == DedupKeys(front) + {DedupKey(r)}
  {
    assert forall s :: s in front + [r] <==> s in front || s == r;
  }

  lemma DedupNext(recs: seq<Record>, i: nat)
    requires i < |recs|
    ensures var front, r := Dedup(recs[..i]), recs[i];
      Dedup(recs[..i + 1]) == if DedupKey(r) in DedupKeys(front) then front else front + [r]
  {
    assert recs[..i + 1][..i] == recs[..i];
  }

  method DedupRecords(recs: seq<Record>) returns (out: seq<Record>)
    ensures out == Dedup(recs)
  {
    var seen: set<string> := {};
    out := [];
    for i := 0 to |recs|
      invariant out == Dedup(recs[..i])
      invariant seen == DedupKeys(out)
    {
      DedupNext(recs, i);
      DedupKeysSnoc(out, recs[i]);
      var k := DedupKey(recs[i]);
      if k in seen {
        continue;
      }
      seen := seen + {k};
      out := out + [recs[i]];
    }
    assert recs[..|recs|] == recs;
  }

  ghost predicate DistinctKeys(recs: seq<Record>) {
    forall i, j | 0 <= i < j < |recs| :: DedupKey(recs[i]) != DedupKey(recs[j])
  }

  lemma DistinctSnoc(front: seq<Record>, r: Record)
    requires DistinctKeys(front) && DedupKey(r) !in DedupKeys(front)
    ensures DistinctKeys(front + [r])
  {
    assert forall s | s in front :: DedupKey(s) in DedupKeys(front);
  }

  /** No key twice, every key still there, and nothing new. */
  lemma {:induction false} DedupExact(recs: seq<Record>)
    ensures DistinctKeys(Dedup(recs))
    ensures DedupKeys(Dedup(recs)) == DedupKeys(recs)
    ensures forall s | s in Dedup(recs) :: s in recs
  {
    if recs != [] {
      var front, r := recs[..|recs| - 1], recs[|recs| - 1];
      DedupExact(front);
      assert recs == front + [r];
      DedupKeysSnoc(front, r);
      if DedupKey(r) !in DedupKeys(Dedup(front)) {
        DedupKeysSnoc(Dedup(front), r);
        DistinctSnoc(Dedup(front), r);
      }
    }
  }

  lemma Represented(recs: seq<Record>, r: Record) returns (s: Record)
    requires r in recs
    ensures s in Dedup(recs) && s in recs && DedupKey(s) == DedupKey(r)
  {
    DedupExact(recs);
    assert DedupKey(r) in DedupKeys(recs);
    s :| s in Dedup(recs) && DedupKey(s) == DedupKey(r);
  }

  lemma OnePerKey(recs: seq<Record>, r: Record, s: Record)
    requires DistinctKeys(recs) && r in recs && s in recs && DedupKey(r) == DedupKey(s)
    ensures r == s
  {
    var i :| 0 <= i < |recs| && recs[i] == r;
    var j :| 0 <= j < |recs| && recs[j] == s;
  }

  ghost predicate KeepsAll(recs: seq<Record>) {
    forall r | r in recs :: r in Dedup(recs)
  }

  /** No two different records agree in type, name, content and priority. */
  ghost predicate ToldApart(recs: seq<Record>) {
    forall r, s | r in recs && s in recs && DedupKey(r) == DedupKey(s) :: r == s
  }

  /** The key holds neither weight nor port, nor the time to live: every record is still there exactly when no
      two different ones agree in what it holds. */
  lemma DedupLosesNothingIff(recs: seq<Record>)
    ensures KeepsAll(recs) <==> ToldApart(recs)
  {
    DedupExact(recs);
    if KeepsAll(recs) {
      forall r, s | r in recs && s in recs && DedupKey(r) == DedupKey(s) ensures r == s {
        OnePerKey(Dedup(recs), r, s);
      }
    }
    if ToldApart(recs) {
      forall r | r in recs ensures r in Dedup(recs) {
        var s := Represented(recs, r);
      }
    }
  }

  /** Of two services that one host offers under the same name and priority the second is dropped. */
  lemma ServicesCollapse(name: string, host: string, ttl: int, priority: int, first: (int, int), second: (int, int))
    ensures var a := Record("SRV", name, host, ttl, priority, first.0, first.1, "", "", None);
      var b := Record("SRV", name, host, ttl, priority, second.0, second.1, "", "", None);
      Dedup([a, b]) == [a]
  {
    var a := Record("SRV", name, host, ttl, priority, first.0, first.1, "", "", None);
    var b := Record("SRV", name, host, ttl, priority, second.0, second.1, "", "", None);
    assert [a, b][..1] == [a] && [a][..0] == [];
    assert Dedup([a]) == [a];
    assert DedupKey(a) == DedupKey(b);
  }
}
