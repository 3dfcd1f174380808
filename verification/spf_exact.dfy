/** When chains of includes are short the recursive count is exact and independent of their order. */
module SpfExact {
  import opened Lists
  import opened Text
  import opened SpfCount
  import SesWalk

  /** Some token of the record has `h` opened. */
  ghost predicate PointsTo(toks: seq<string>, h: string) {
    h != "" && exists tok | tok in toks :: CostOf(tok) == Follow(h)
  }

  /** A chain of hosts, each named by the record of the one before and the first by `toks`. */
  ghost predicate IsChain(r: Resolver, toks: seq<string>, path: seq<string>) {
    path != [] && PointsTo(toks, path[0]) &&
    forall i | 0 < i < |path| :: PointsTo(RecordOf(r, path[i - 1]), path[i])
  }

  ghost predicate Reaches(r: Resolver, toks: seq<string>, h: string) {
    exists path :: IsChain(r, toks, path) && path[|path| - 1] == h
  }

  ghost predicate Leads(toks: seq<string>, hosts: set<string>) {
    forall h | PointsTo(toks, h) :: h in hosts
  }

  ghost predicate Explored(r: Resolver, before: set<string>, seen: set<string>) {
    before <= seen && forall h | h in seen - before :: Leads(RecordOf(r, h), seen)
  }

  ghost predicate Shallow(log: seq<Opened>) {
    forall o | o in log :: o.depth <= 10
  }

  /** A count that missed nothing. */
  ghost predicate Complete(r: Resolver, seen: set<string>, t: Tally) {
    !t.failed && Explored(r, seen, t.seen) && Shallow(t.log)
  }

  lemma LeadsHead(toks: seq<string>, h: string)
    requires toks != [] && h != ""
    ensures PointsTo(toks, h) <==> CostOf(toks[0]) == Follow(h) || PointsTo(toks[1..], h)
  {
    assert forall t :: t in toks <==> t == toks[0] || t in toks[1..];
  }

  lemma LeadsCons(toks: seq<string>, seen: set<string>)
    requires toks != [] && Leads(toks[1..], seen)
    requires CostOf(toks[0]).Follow? ==> CostOf(toks[0]).target == "" || CostOf(toks[0]).target in seen
    ensures Leads(toks, seen)
  {
    forall h | PointsTo(toks, h) ensures h in seen {
      LeadsHead(toks, h);
    }
  }

  lemma CompleteThen(r: Resolver, seen: set<string>, a: Tally, b: Tally)
    requires Complete(r, seen, a) && Complete(r, a.seen, b)
    ensures Complete(r, seen, Then(a, b))
  {
    forall h | h in b.seen - seen ensures Leads(RecordOf(r, h), b.seen) {
      if h in a.seen {
        assert Leads(RecordOf(r, h), a.seen);
      }
    }
  }

  // ---------------------------------------------------------------- the way down

  /** The tokens of the record at the end of a chain from the root record. */
  ghost function Last(r: Resolver, root: seq<string>, path: seq<string>): seq<string> {
    if path == [] then root else RecordOf(r, path[|path| - 1])
  }

  ghost predicate Unrepeated(path: seq<string>) {
    forall i, j | 0 <= i < j < |path| :: path[i] != path[j]
  }

  /** No chain of different hosts has more than n. */
  ghost predicate ShortChains(r: Resolver, root: seq<string>, n: nat) {
    forall path | IsChain(r, root, path) && Unrepeated(path) :: |path| <= n
  }

  ghost predicate AllAnswer(r: Resolver, root: seq<string>) {
    forall h | Reaches(r, root, h) :: r(h).Some?
  }

  /** A chain from the root to a host, all of it seen. */
  ghost predicate WayTo(r: Resolver, root: seq<string>, path: seq<string>, seen: set<string>) {
    (path == [] || IsChain(r, root, path)) && Unrepeated(path) && forall h | h in path :: h in seen
  }

  lemma ChainOn(r: Resolver, root: seq<string>, path: seq<string>, e: string)
    requires (path == [] || IsChain(r, root, path)) && PointsTo(Last(r, root, path), e)
    ensures IsChain(r, root, path + [e])
  {
    var longer := path + [e];
    forall i | 0 < i < |longer| ensures PointsTo(RecordOf(r, longer[i - 1]), longer[i]) {
      if i < |path| {
        assert PointsTo(RecordOf(r, path[i - 1]), path[i]);
      }
    }
  }

  lemma UnrepeatedOn(path: seq<string>, e: string)
    requires Unrepeated(path) && e !in path
    ensures Unrepeated(path + [e])
  {
  }

  lemma LongerWay(r: Resolver, root: seq<string>, path: seq<string>, seen: set<string>, e: string)
    requires WayTo(r, root, path, seen) && PointsTo(Last(r, root, path), e) && e !in seen
    ensures WayTo(r, root, path + [e], seen + {e}) && Reaches(r, root, e)
  {
    ChainOn(r, root, path, e);
    UnrepeatedOn(path, e);
    assert (path + [e])[|path + [e]| - 1] == e;
  }

  lemma WayGrows(r: Resolver, root: seq<string>, path: seq<string>, seen: set<string>, more: set<string>)
    requires WayTo(r, root, path, seen) && seen <= more
    ensures WayTo(r, root, path, more)
  {
  }

  /** Ways of at most 10 hosts, which stay ways when more is seen and go on to any new host, and that answers. */
  ghost predicate Guides(r: Resolver, root: seq<string>, way: (seq<string>, set<string>) -> bool) {
    && (forall p, s | way(p, s) :: |p| <= 10)
    && (forall p, s, t | way(p, s) && s <= t :: way(p, t))
    && (forall p, s, e | way(p, s) && PointsTo(Last(r, root, p), e) && e !in s :: way(p + [e], s + {e}) && r(e).Some?)
  }

  ghost function Ways(r: Resolver, root: seq<string>): (seq<string>, set<string>) -> bool {
    (p, s) => WayTo(r, root, p, s)
  }

  lemma ShortWaysGuide(r: Resolver, root: seq<string>)
    requires ShortChains(r, root, 10) && AllAnswer(r, root)
    ensures Guides(r, root, Ways(r, root))
  {
    var way := Ways(r, root);
    forall p, s, e | way(p, s) && PointsTo(Last(r, root, p), e) && e !in s ensures way(p + [e], s + {e}) && r(e).Some? {
      LongerWay(r, root, p, s, e);
    }
    forall p, s, t | way(p, s) && s <= t ensures way(p, t) {
      WayGrows(r, root, p, s, t);
    }
  }

  // ---------------------------------------------------------------- nothing is missed

  ghost predicate PartOf(toks: seq<string>, all: seq<string>) {
    forall h | PointsTo(toks, h) :: PointsTo(all, h)
  }

  lemma PartTail(toks: seq<string>, all: seq<string>)
    requires toks != [] && PartOf(toks, all)
    ensures PartOf(toks[1..], all)
    ensures CostOf(toks[0]).Follow? && CostOf(toks[0]).target != "" ==> PointsTo(all, CostOf(toks[0]).target)
  {
    forall h | PointsTo(toks[1..], h) ensures PointsTo(all, h) {
      LeadsHead(toks, h);
    }
    if CostOf(toks[0]).Follow? && CostOf(toks[0]).target != "" {
      LeadsHead(toks, CostOf(toks[0]).target);
    }
  }

  lemma {:induction false} CountFromExplores(r: Resolver, root: seq<string>, way: (seq<string>, set<string>) -> bool,
      path: seq<string>, toks: seq<string>, depth: nat, seen: set<string>, t: Tally)
    requires Guides(r, root, way) && way(path, seen) && |path| == depth && depth <= 10
    requires PartOf(toks, Last(r, root, path)) && t == CountFrom(r, toks, depth, seen)
    ensures Complete(r, seen, t) && Leads(toks, t.seen)
    decreases 12 - depth, |toks|, 1
  {
    if toks == [] {
      assert forall h :: !PointsTo(toks, h);
    } else {
      PartTail(toks, Last(r, root, path));
      match CostOf(toks[0])
      case Free =>
        CountFromExplores(r, root, way, path, toks[1..], depth, seen, t);
        LeadsCons(toks, t.seen);
      case Plain =>
        CountFromExplores(r, root, way, path, toks[1..], depth, seen, CountFrom(r, toks[1..], depth, seen));
        LeadsCons(toks, t.seen);
      case Follow(target) =>
        var sub := RecurseInto(r, target, depth, seen, |toks|);
        var rest := CountFrom(r, toks[1..], depth, sub.seen);
        RecurseIntoExplores(r, root, way, path, target, depth, seen, |toks|, sub);
        CountFromExplores(r, root, way, path, toks[1..], depth, sub.seen, rest);
        CompleteThen(r, seen, sub, AddOne(rest));
        LeadsCons(toks, t.seen);
    }
  }

  lemma NextWay(r: Resolver, root: seq<string>, way: (seq<string>, set<string>) -> bool, path: seq<string>, e: string,
      seen: set<string>)
      returns (longer: seq<string>)
    requires Guides(r, root, way) && way(path, seen) && PointsTo(Last(r, root, path), e) && e !in seen
    ensures way(longer, seen + {e}) && |longer| == |path| + 1 <= 10
    ensures Last(r, root, longer) == RecordOf(r, e) && r(e).Some?
  {
    longer := path + [e];
    assert way(longer, seen + {e});
  }

  lemma NothingOpened(r: Resolver, target: string, depth: nat, seen: set<string>, room: nat)
    requires depth <= 10 && (target == "" || target in seen)
    ensures RecurseInto(r, target, depth, seen, room) == Tally(0, false, seen, [])
    ensures Complete(r, seen, Tally(0, false, seen, []))
  {
  }

  lemma {:induction false} RecurseIntoExplores(r: Resolver, root: seq<string>, way: (seq<string>, set<string>) -> bool,
      path: seq<string>, target: string, depth: nat, seen: set<string>, room: nat, t: Tally)
    requires Guides(r, root, way) && way(path, seen) && |path| == depth && depth <= 10
    requires target != "" ==> PointsTo(Last(r, root, path), target)
    requires t == RecurseInto(r, target, depth, seen, room)
    ensures Complete(r, seen, t) && (target == "" || target in t.seen)
    decreases 12 - depth, room, 0
  {
    if target == "" || target in seen {
      NothingOpened(r, target, depth, seen, room);
    } else {
      var longer := NextWay(r, root, way, path, target, seen);
      var sub := CountFrom(r, RecordOf(r, target), depth + 1, seen + {target});
      OpeningCounts(r, target, depth, seen, room);
      CountFromExplores(r, root, way, longer, RecordOf(r, target), depth + 1, seen + {target}, sub);
      EntryComplete(r, seen, target, depth, sub);
    }
  }

  /** Opening a new host counts its record one level down. */
  lemma OpeningCounts(r: Resolver, target: string, depth: nat, seen: set<string>, room: nat)
    requires depth < 10 && target != "" && target !in seen && r(target).Some?
    ensures var sub := CountFrom(r, RecordOf(r, target), depth + 1, seen + {target});
      RecurseInto(r, target, depth, seen, room) == sub.(log := [Opened(target, depth + 1)] + sub.log)
  {
  }

  lemma EntryComplete(r: Resolver, seen: set<string>, target: string, depth: nat, sub: Tally)
    requires target !in seen && depth < 10 && Complete(r, seen + {target}, sub)
    requires Leads(RecordOf(r, target), sub.seen)
    ensures Complete(r, seen, sub.(log := [Opened(target, depth + 1)] + sub.log))
  {
    forall h | h in sub.seen - seen ensures Leads(RecordOf(r, h), sub.seen) {
      if h != target {
        assert h in sub.seen - (seen + {target});
      }
    }
  }

  // ---------------------------------------------------------------- only reachable hosts are opened

  lemma ReachesVia(r: Resolver, toks: seq<string>, target: string, h: string)
    requires PointsTo(toks, target) && Reaches(r, RecordOf(r, target), h)
    ensures Reaches(r, toks, h)
  {
    var path :| IsChain(r, RecordOf(r, target), path) && path[|path| - 1] == h;
    var longer := [target] + path;
    forall i | 0 < i < |longer| ensures PointsTo(RecordOf(r, longer[i - 1]), longer[i]) {
      if i > 1 {
        assert PointsTo(RecordOf(r, path[i - 2]), path[i - 1]);
      }
    }
    assert IsChain(r, toks, longer) && longer[|longer| - 1] == h;
  }

  lemma ReachesDirect(r: Resolver, toks: seq<string>, h: string)
    requires PointsTo(toks, h)
    ensures Reaches(r, toks, h)
  {
    assert IsChain(r, toks, [h]) && [h][0] == h;
  }

  lemma ReachesTail(r: Resolver, toks: seq<string>, h: string)
    requires toks != [] && Reaches(r, toks[1..], h)
    ensures Reaches(r, toks, h)
  {
    var path :| IsChain(r, toks[1..], path) && path[|path| - 1] == h;
    LeadsHead(toks, path[0]);
    assert IsChain(r, toks, path);
  }

  lemma {:induction false} CountFromReaches(r: Resolver, toks: seq<string>, depth: nat, seen: set<string>, o: Opened)
    requires depth <= 10 && o in CountFrom(r, toks, depth, seen).log
    ensures Reaches(r, toks, o.host)
    decreases 12 - depth, |toks|, 1
  {
    match CostOf(toks[0])
    case Free =>
      CountFromReaches(r, toks[1..], depth, seen, o);
      ReachesTail(r, toks, o.host);
    case Plain =>
      CountFromReaches(r, toks[1..], depth, seen, o);
      ReachesTail(r, toks, o.host);
    case Follow(target) =>
      var sub := RecurseInto(r, target, depth, seen, |toks|);
      if o in sub.log {
        assert PointsTo(toks, target);
        RecurseIntoReaches(r, target, depth, seen, |toks|, o);
        if o.host == target {
          ReachesDirect(r, toks, target);
        } else {
          ReachesVia(r, toks, target, o.host);
        }
      } else {
        CountFromReaches(r, toks[1..], depth, sub.seen, o);
        ReachesTail(r, toks, o.host);
      }
  }

  lemma {:induction false} RecurseIntoReaches(r: Resolver, target: string, depth: nat, seen: set<string>, room: nat,
      o: Opened)
    requires depth <= 10 && o in RecurseInto(r, target, depth, seen, room).log
    ensures target != "" && (o.host == target || Reaches(r, RecordOf(r, target), o.host))
    decreases 12 - depth, room, 0
  {
    if o != Opened(target, depth + 1) {
      CountFromReaches(r, RecordOf(r, target), depth + 1, seen + {target}, o);
    }
  }

  lemma {:induction false} ChainStays(r: Resolver, toks: seq<string>, seen: set<string>, path: seq<string>)
    requires Leads(toks, seen) && Explored(r, {}, seen) && IsChain(r, toks, path)
    ensures path[|path| - 1] in seen
    decreases |path|
  {
    if |path| > 1 {
      var rest := path[1..];
      assert forall i | 0 < i < |rest| :: rest[i] == path[i + 1] && rest[i - 1] == path[i];
      assert PointsTo(RecordOf(r, path[0]), path[1]);
      assert path[0] in seen;
      ChainStays(r, RecordOf(r, path[0]), seen, rest);
    }
  }

  // ---------------------------------------------------------------- exactness

  /** The cost of all opened records. */
  function SumAll(r: Resolver, log: seq<Opened>): nat {
    if log == [] then 0 else CountTokens(RecordOf(r, log[0].host)) + SumAll(r, log[1..])
  }

  lemma {:induction false} ShallowSum(r: Resolver, log: seq<Opened>)
    requires Shallow(log)
    ensures SumLog(r, log) == SumAll(r, log)
  {
    if log != [] {
      assert forall o | o in log[1..] :: o in log;
      ShallowSum(r, log[1..]);
    }
  }

  /** When every host that can be reached answers and no chain of different hosts is longer than 10, the
      recursive count opens exactly the hosts that can be reached, each once, and its total is the cost of
      the record plus the cost of theirs. */
  lemma CountIsExact(r: Resolver, spf: string)
    requires ShortChains(r, Fields(spf), 10) && AllAnswer(r, Fields(spf))
    ensures var t := CountRecord(r, spf, 0, {});
      && !t.failed
      && (forall h :: h in Hosts(t.log) <==> Reaches(r, Fields(spf), h))
      && LookedUpOnce(t, {})
      && t.count == SurfaceCount(spf) + SumAll(r, t.log)
  {
    var toks := Fields(spf);
    var t := CountRecord(r, spf, 0, {});
    ShortWaysGuide(r, toks);
    assert Ways(r, toks)([], {});
    CountFromExplores(r, toks, Ways(r, toks), [], toks, 0, {}, t);
    CountRecordOnce(r, spf, 0, {});
    CountRecordSums(r, spf, 0, {});
    ShallowSum(r, t.log);
    forall h ensures h in Hosts(t.log) <==> Reaches(r, toks, h) {
      OpenedIffReached(r, toks, t, h);
    }
  }

  lemma OpenedIffReached(r: Resolver, toks: seq<string>, t: Tally, h: string)
    requires t == CountFrom(r, toks, 0, {}) && Leads(toks, t.seen) && Explored(r, {}, t.seen) && t.seen == Hosts(t.log)
    ensures h in Hosts(t.log) <==> Reaches(r, toks, h)
  {
    if h in Hosts(t.log) {
      var o :| o in t.log && o.host == h;
      CountFromReaches(r, toks, 0, {}, o);
    }
    if Reaches(r, toks, h) {
      var path :| IsChain(r, toks, path) && path[|path| - 1] == h;
      ChainStays(r, toks, t.seen, path);
    }
  }

  // ---------------------------------------------------------------- small graphs

  /** All these hosts answer, and name no others. */
  ghost predicate Closed(r: Resolver, hosts: set<string>) {
    forall h | h in hosts :: r(h).Some? && Leads(RecordOf(r, h), hosts)
  }

  lemma {:induction false} ChainInside(r: Resolver, root: seq<string>, hosts: set<string>, path: seq<string>, i: nat)
    requires Closed(r, hosts) && Leads(root, hosts) && IsChain(r, root, path) && i < |path|
    ensures path[i] in hosts
  {
    if i > 0 {
      ChainInside(r, root, hosts, path, i - 1);
      assert PointsTo(RecordOf(r, path[i - 1]), path[i]);
    }
  }

  /** At most n hosts in play, all of which answer, make for short chains. */
  lemma SmallGraphIsShort(r: Resolver, root: seq<string>, hosts: set<string>, n: nat)
    requires Closed(r, hosts) && |hosts| <= n && Leads(root, hosts)
    ensures ShortChains(r, root, n) && AllAnswer(r, root)
  {
    forall path | IsChain(r, root, path) && Unrepeated(path) ensures |path| <= n {
      forall h | h in path ensures h in hosts {
        var i :| 0 <= i < |path| && path[i] == h;
        ChainInside(r, root, hosts, path, i);
      }
      SesWalk.DistinctHosts(path);
      SubsetSize(SesWalk.HostsOf(path), hosts);
    }
    forall h | Reaches(r, root, h) ensures r(h).Some? {
      var path :| IsChain(r, root, path) && path[|path| - 1] == h;
      ChainInside(r, root, hosts, path, |path| - 1);
    }
  }

  // ---------------------------------------------------------------- order

  lemma CountAround(toks: seq<string>, rest: seq<string>, front: seq<string>, tok: string, back: seq<string>)
    requires toks == front + [tok] + back && rest == front + back
    ensures CountTokens(toks) == CountTokens([tok]) + CountTokens(rest)
  {
    CountTokensAppend(front, back);
    CountTokensAppend(front + [tok], back);
    CountTokensAppend(front, [tok]);
  }

  lemma CountWithout(toks: seq<string>, i: nat, rest: seq<string>)
    requires i < |toks| && rest == Without(toks, i)
    ensures CountTokens(toks) == CountTokens([toks[i]]) + CountTokens(rest)
  {
    var front, tok, back := toks[..i], toks[i], toks[i + 1..];
    assert toks == front + [tok] + back;
    CountAround(toks, rest, front, tok, back);
  }

  lemma {:induction false} CountTokensPermuted(a: seq<string>, b: seq<string>)
    requires multiset(a) == multiset(b)
    ensures CountTokens(a) == CountTokens(b)
    decreases |a|
  {
    if a == [] {
      assert |multiset(b)| == 0;
      assert b == [];
    } else {
      var i := SameFirst(a, b);
      CountWithout(a, 0, Without(a, 0));
      CountWithout(b, i, Without(b, i));
      WithoutCount(a, 0);
      WithoutCount(b, i);
      CountTokensPermuted(Without(a, 0), Without(b, i));
    }
  }

  lemma {:induction false} SumAllAppend(r: Resolver, a: seq<Opened>, b: seq<Opened>)
    ensures SumAll(r, a + b) == SumAll(r, a) + SumAll(r, b)
  {
    if a == [] {
      assert a + b == b;
    } else {
      assert (a + b)[1..] == a[1..] + b;
      SumAllAppend(r, a[1..], b);
    }
  }

  ghost predicate DistinctLog(log: seq<Opened>) {
    forall i, j | 0 <= i < j < |log| :: log[i].host != log[j].host
  }

  lemma HostsWithout(log: seq<Opened>, i: nat)
    requires DistinctLog(log) && i < |log|
    ensures Hosts(Without(log, i)) == Hosts(log) - {log[i].host}
  {
    var rest := Without(log, i);
    forall h | h in Hosts(log) && h != log[i].host ensures h in Hosts(rest) {
      var j :| 0 <= j < |log| && log[j].host == h;
      assert rest[if j < i then j else j - 1] == log[j];
    }
    forall h | h in Hosts(rest) ensures h in Hosts(log) && h != log[i].host {
      var k :| 0 <= k < |rest| && rest[k].host == h;
      assert rest[k] == log[if k < i then k else k + 1];
    }
  }

  lemma DistinctWithout(log: seq<Opened>, i: nat)
    requires DistinctLog(log) && i < |log|
    ensures DistinctLog(Without(log, i))
  {
  }

  lemma SumAround(r: Resolver, log: seq<Opened>, rest: seq<Opened>, front: seq<Opened>, o: Opened, back: seq<Opened>)
    requires log == front + [o] + back && rest == front + back
    ensures SumAll(r, log) == CountTokens(RecordOf(r, o.host)) + SumAll(r, rest)
  {
    SumAllAppend(r, front + [o], back);
    SumAllAppend(r, front, [o]);
    SumAllAppend(r, front, back);
    assert [o][1..] == [];
  }

  lemma SumAllWithout(r: Resolver, log: seq<Opened>, i: nat, rest: seq<Opened>)
    requires i < |log| && rest == Without(log, i)
    ensures SumAll(r, log) == CountTokens(RecordOf(r, log[i].host)) + SumAll(r, rest)
  {
    var front, o, back := log[..i], log[i], log[i + 1..];
    assert log == front + [o] + back;
    SumAround(r, log, rest, front, o, back);
  }

  lemma SameHost(a: seq<Opened>, b: seq<Opened>) returns (i: nat)
    requires a != [] && Hosts(a) == Hosts(b)
    ensures i < |b| && b[i].host == a[0].host
  {
    assert a[0] in a && a[0].host in Hosts(b);
    i :| 0 <= i < |b| && b[i].host == a[0].host;
  }

  lemma NoHosts(log: seq<Opened>)
    ensures log != [] ==> Hosts(log) != {}
  {
    if log != [] {
      assert log[0].host in Hosts(log);
    }
  }

  /** The sum depends on the hosts that were opened only. */
  lemma {:induction false} SumAllByHosts(r: Resolver, a: seq<Opened>, b: seq<Opened>)
    requires DistinctLog(a) && DistinctLog(b) && Hosts(a) == Hosts(b)
    ensures SumAll(r, a) == SumAll(r, b)
    decreases |a|
  {
    if a == [] {
      NoHosts(b);
    } else {
      var i := SameHost(a, b);
      HostsWithout(a, 0);
      HostsWithout(b, i);
      DistinctWithout(a, 0);
      DistinctWithout(b, i);
      SumAllWithout(r, a, 0, Without(a, 0));
      SumAllWithout(r, b, i, Without(b, i));
      SumAllByHosts(r, Without(a, 0), Without(b, i));
    }
  }

  lemma SamePoints(a: seq<string>, b: seq<string>)
    requires multiset(a) == multiset(b)
    ensures forall h :: PointsTo(a, h) <==> PointsTo(b, h)
  {
    forall tok ensures tok in a <==> tok in b {
      assert tok in multiset(a) <==> tok in multiset(b);
    }
  }

  lemma SameChains(r: Resolver, a: seq<string>, b: seq<string>)
    requires forall h :: PointsTo(a, h) <==> PointsTo(b, h)
    ensures forall path :: IsChain(r, a, path) <==> IsChain(r, b, path)
    ensures forall h :: Reaches(r, a, h) <==> Reaches(r, b, h)
  {
    forall h ensures Reaches(r, a, h) <==> Reaches(r, b, h) {
      if Reaches(r, a, h) {
        var path :| IsChain(r, a, path) && path[|path| - 1] == h;
        assert IsChain(r, b, path);
      }
      if Reaches(r, b, h) {
        var path :| IsChain(r, b, path) && path[|path| - 1] == h;
        assert IsChain(r, a, path);
      }
    }
  }

  /** Then the count does not depend on the order of the record's tokens. */
  lemma CountIgnoresOrder(r: Resolver, spf: string, other: string)
    requires ShortChains(r, Fields(spf), 10) && AllAnswer(r, Fields(spf))
    requires multiset(Fields(spf)) == multiset(Fields(other))
    ensures CountRecord(r, other, 0, {}).count == CountRecord(r, spf, 0, {}).count
  {
    var t, u := CountRecord(r, spf, 0, {}), CountRecord(r, other, 0, {});
    SamePoints(Fields(spf), Fields(other));
    SameChains(r, Fields(spf), Fields(other));
    CountIsExact(r, spf);
    CountIsExact(r, other);
    CountTokensPermuted(Fields(spf), Fields(other));
    assert Hosts(t.log) == Hosts(u.log);
    SumAllByHosts(r, t.log, u.log);
  }
}
