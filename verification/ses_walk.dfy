/** Looking for amazonses.com along the include and redirect chain of an SPF record. */
module SesWalk {
  import opened Lists
  import opened Text

  /** The TXT records of a host; None when the lookup fails. */
  type Resolver = string -> Option<seq<string>>

  const SES := "amazonses.com"

  function StripQualifier(mech: string): string {
    if mech != "" && mech[0] in "+-~?" then mech[1..] else mech
  }

  /** The host that a token points to. */
  function Target(tok: string): Option<string> {
    if HasPrefix(tok, "include:") then Some(TrimSuffix(StripQualifier(TrimPrefix(tok, "include:")), "."))
    else if HasPrefix(tok, "redirect=") then Some(TrimSuffix(TrimPrefix(tok, "redirect="), "."))
    else None
  }

  function Listed(o: Option<string>): seq<string> {
    if o.Some? then [o.value] else []
  }

  function Targets(toks: seq<string>): seq<string> {
    if toks == [] then [] else Listed(Target(toks[0])) + Targets(toks[1..])
  }

  function TextTargets(txt: string): seq<string> {
    var low := ToLower(TrimSpace(txt));
    if HasPrefix(low, "v=spf1") then Targets(Fields(low)) else []
  }

  function AllTargets(txts: seq<string>): seq<string> {
    if txts == [] then [] else TextTargets(txts[0]) + AllTargets(txts[1..])
  }

  /** The hosts that a host's SPF records point to, in order; "" is no host. */
  function Edges(r: Resolver, host: string): seq<string> {
    if host == "" || r(host).None? then [] else AllTargets(r(host).value)
  }

  // ---------------------------------------------------------------- the walk

  datatype Walk = Walk(found: bool, seen: set<string>)

  function WalkHost(r: Resolver, target: string, depth: nat, seen: set<string>): Walk
    decreases 12 - depth, 1, 0
  {
    if depth > 10 || target == "" || target in seen then Walk(false, seen)
    else if target == SES then Walk(true, seen + {target})
    else WalkEdges(r, Edges(r, target), depth, seen + {target})
  }

  function WalkEdges(r: Resolver, es: seq<string>, depth: nat, seen: set<string>): Walk
    requires depth <= 10
    decreases 12 - depth, 0, |es|
  {
    if es == [] then Walk(false, seen)
    else if es[0] == SES then Walk(true, seen)
    else
      var w := WalkHost(r, es[0], depth + 1, seen);
      if w.found then w else WalkEdges(r, es[1..], depth, w.seen)
  }

  lemma {:induction false} WalkEdgesAppend(r: Resolver, a: seq<string>, b: seq<string>, depth: nat, seen: set<string>)
    requires depth <= 10
    ensures var w := WalkEdges(r, a, depth, seen);
      WalkEdges(r, a + b, depth, seen) == if w.found then w else WalkEdges(r, b, depth, w.seen)
    decreases |a|
  {
    if a == [] {
      assert a + b == b;
    } else {
      assert (a + b)[1..] == a[1..] + b;
      WalkEdgesAppend(r, a[1..], b, depth, WalkHost(r, a[0], depth + 1, seen).seen);
    }
  }

  method WalkForSES(r: Resolver, target: string, depth: nat, seen0: set<string>)
      returns (found: bool, seen: set<string>)
    ensures Walk(found, seen) == WalkHost(r, target, depth, seen0)
    decreases 12 - depth, 1
  {
    seen := seen0;
    if depth > 10 || target == "" || target in seen {
      return false, seen;
    }
    seen := seen + {target};
    if target == SES {
      return true, seen;
    }
    var answer := r(target);
    if answer.None? {
      return false, seen;
    }
    var txts := answer.value;
    for i := 0 to |txts|
      invariant WalkHost(r, target, depth, seen0) == WalkEdges(r, AllTargets(txts[i..]), depth, seen)
    {
      assert txts[i..][0] == txts[i] && txts[i..][1..] == txts[i + 1..];
      WalkEdgesAppend(r, TextTargets(txts[i]), AllTargets(txts[i + 1..]), depth, seen);
      var low := ToLower(TrimSpace(txts[i]));
      if !HasPrefix(low, "v=spf1") {
        continue;
      }
      found, seen := WalkTokens(r, Fields(low), depth, seen);
      if found {
        return;
      }
    }
    return false, seen;
  }

  /** The inner loop, over the tokens of one SPF text. */
  method WalkTokens(r: Resolver, toks: seq<string>, depth: nat, seen0: set<string>)
      returns (found: bool, seen: set<string>)
    requires depth <= 10
    ensures Walk(found, seen) == WalkEdges(r, Targets(toks), depth, seen0)
    decreases 12 - depth, 0
  {
    seen := seen0;
    for j := 0 to |toks|
      invariant WalkEdges(r, Targets(toks), depth, seen0) == WalkEdges(r, Targets(toks[j..]), depth, seen)
    {
      assert toks[j..][0] == toks[j] && toks[j..][1..] == toks[j + 1..];
      var sub := Target(toks[j]);
      ListedAppend(sub, Targets(toks[j + 1..]));
      if sub.Some? {
        if sub.value == SES {
          return true, seen;
        }
        found, seen := WalkForSES(r, sub.value, depth + 1, seen);
        if found {
          return;
        }
      }
    }
    return false, seen;
  }

  lemma ListedAppend(o: Option<string>, tail: seq<string>)
    ensures var all := Listed(o) + tail;
      if o.None? then all == tail else all != [] && all[0] == o.value && all[1..] == tail
  {
  }

  function CleanHost(target: string): string {
    TrimSuffix(ToLower(TrimSpace(target)), ".")
  }

  method IsSESInChain(r: Resolver, target: string) returns (found: bool)
    ensures found <==> CleanHost(target) == SES || WalkHost(r, CleanHost(target), 0, {}).found
  {
    var host := CleanHost(target);
    if host == SES {
      return true;
    }
    var seen;
    found, seen := WalkForSES(r, host, 0, {});
  }

  // ---------------------------------------------------------------- soundness

  function EdgesOf(r: Resolver): string -> seq<string> {
    host => Edges(r, host)
  }

  predicate Linked(edges: string -> seq<string>, path: seq<string>, i: int) {
    0 < i < |path| ==> path[i] in edges(path[i - 1])
  }

  ghost predicate PathAlong(edges: string -> seq<string>, path: seq<string>, a: string, b: string) {
    path != [] && path[0] == a && path[|path| - 1] == b && forall i :: Linked(edges, path, i)
  }

  ghost predicate IsPath(r: Resolver, path: seq<string>, a: string, b: string) {
    PathAlong(EdgesOf(r), path, a, b)
  }

  ghost predicate Reaches(r: Resolver, a: string, b: string) {
    exists path :: IsPath(r, path, a, b)
  }

  lemma ReachesSelf(r: Resolver, a: string)
    ensures Reaches(r, a, a)
  {
    assert IsPath(r, [a], a, a);
  }

  lemma ReachesStep(r: Resolver, a: string, b: string, c: string)
    requires b in Edges(r, a) && Reaches(r, b, c)
    ensures Reaches(r, a, c)
  {
    var path :| IsPath(r, path, b, c);
    PathFront(EdgesOf(r), a, path, b, c);
    assert IsPath(r, [a] + path, a, c);
  }

  lemma PathFront(edges: string -> seq<string>, a: string, path: seq<string>, b: string, c: string)
    requires PathAlong(edges, path, b, c) && b in edges(a)
    ensures PathAlong(edges, [a] + path, a, c)
  {
    LinkedFront(edges, a, path);
    assert ([a] + path)[|path|] == path[|path| - 1];
  }

  lemma LinkedFront(edges: string -> seq<string>, a: string, path: seq<string>)
    requires path != [] && path[0] in edges(a) && forall i :: Linked(edges, path, i)
    ensures forall i :: Linked(edges, [a] + path, i)
  {
    forall i ensures Linked(edges, [a] + path, i) {
      assert Linked(edges, path, i - 1);
    }
  }

  lemma LinkedOn(edges: string -> seq<string>, path: seq<string>, e: string)
    requires path != [] && e in edges(path[|path| - 1]) && forall i :: Linked(edges, path, i)
    ensures forall i :: Linked(edges, path + [e], i)
  {
    forall i ensures Linked(edges, path + [e], i) {
      assert Linked(edges, path, i);
    }
  }

  lemma LinkedTail(edges: string -> seq<string>, path: seq<string>)
    requires path != [] && forall i :: Linked(edges, path, i)
    ensures forall i :: Linked(edges, path[1..], i)
    ensures |path| > 1 ==> path[1] in edges(path[0])
  {
    assert Linked(edges, path, 1);
    forall i ensures Linked(edges, path[1..], i) {
      assert Linked(edges, path, i + 1);
    }
  }

  /** A positive answer is right for every resolver, at any depth and with any hosts seen. */
  lemma {:induction false} WalkHostSound(r: Resolver, target: string, depth: nat, seen: set<string>)
    requires WalkHost(r, target, depth, seen).found
    ensures Reaches(r, target, SES)
    decreases 12 - depth, 1, 0
  {
    if target == SES {
      ReachesSelf(r, SES);
    } else {
      WalkEdgesSound(r, target, Edges(r, target), depth, seen + {target});
    }
  }

  lemma {:induction false} WalkEdgesSound(r: Resolver, host: string, es: seq<string>, depth: nat, seen: set<string>)
    requires depth <= 10 && (forall e | e in es :: e in Edges(r, host))
    requires WalkEdges(r, es, depth, seen).found
    ensures Reaches(r, host, SES)
    decreases 12 - depth, 0, |es|
  {
    assert es[0] in Edges(r, host);
    if es[0] == SES {
      ReachesSelf(r, SES);
      ReachesStep(r, host, SES, SES);
    } else if WalkHost(r, es[0], depth + 1, seen).found {
      WalkHostSound(r, es[0], depth + 1, seen);
      ReachesStep(r, host, es[0], SES);
    } else {
      WalkEdgesSound(r, host, es[1..], depth, WalkHost(r, es[0], depth + 1, seen).seen);
    }
  }

  // ---------------------------------------------------------------- completeness on short paths

  /** A path that meets no host twice, and neither the goal nor "". */
  ghost predicate Simple(path: seq<string>) {
    (forall i, j | 0 <= i < j < |path| :: path[i] != path[j]) && SES !in path && "" !in path
  }

  /** No simple path from the target has more than n hosts. */
  ghost predicate ShortPaths(r: Resolver, target: string, n: nat) {
    forall path: seq<string> | path != [] && IsPath(r, path, target, path[|path| - 1]) && Simple(path) :: |path| <= n
  }

  ghost predicate Leads(es: seq<string>, seen: set<string>) {
    forall e | e in es :: e != SES && (e == "" || e in seen)
  }

  /** The hosts seen since `before` are fully explored within `seen`. */
  ghost predicate Explored(r: Resolver, before: set<string>, seen: set<string>) {
    before <= seen && forall h | h in seen - before :: Leads(Edges(r, h), seen)
  }

  /** The way down from the root to a host: simple, and all of it seen. */
  ghost predicate WayTo(r: Resolver, root: string, path: seq<string>, seen: set<string>) {
    path != [] && IsPath(r, path, root, path[|path| - 1]) && Simple(path) && forall h | h in path :: h in seen
  }

  lemma PathOn(edges: string -> seq<string>, path: seq<string>, a: string, e: string)
    requires path != [] && PathAlong(edges, path, a, path[|path| - 1]) && e in edges(path[|path| - 1])
    ensures PathAlong(edges, path + [e], a, e)
  {
    LinkedOn(edges, path, e);
  }

  lemma SimpleOn(path: seq<string>, e: string)
    requires Simple(path) && e !in path && e != SES && e != ""
    ensures Simple(path + [e])
  {
  }

  lemma LongerWay(r: Resolver, root: string, path: seq<string>, seen: set<string>, e: string)
    requires WayTo(r, root, path, seen) && e in Edges(r, path[|path| - 1]) && e !in seen && e != SES && e != ""
    ensures WayTo(r, root, path + [e], seen + {e})
  {
    PathOn(EdgesOf(r), path, root, e);
    SimpleOn(path, e);
    assert (path + [e])[|path|] == e;
  }

  lemma WayGrows(r: Resolver, root: string, path: seq<string>, seen: set<string>, more: set<string>)
    requires WayTo(r, root, path, seen) && seen <= more
    ensures WayTo(r, root, path, more)
  {
  }

  lemma ExploredOn(r: Resolver, a: set<string>, b: set<string>, c: set<string>)
    requires Explored(r, a, b) && Explored(r, b, c)
    ensures Explored(r, a, c)
  {
    forall h | h in c - a ensures Leads(Edges(r, h), c) {
      if h in b {
        assert Leads(Edges(r, h), b);
      }
    }
  }

  lemma EdgeByEdge(r: Resolver, es: seq<string>, depth: nat, seen: set<string>)
    requires depth <= 10 && es != [] && !WalkEdges(r, es, depth, seen).found
    ensures var w := WalkHost(r, es[0], depth + 1, seen);
      es[0] != SES && !w.found && WalkEdges(r, es, depth, seen) == WalkEdges(r, es[1..], depth, w.seen)
  {
  }

  lemma HostStep(r: Resolver, host: string, depth: nat, seen: set<string>)
    requires depth <= 10 && host != "" && host !in seen && host != SES
    ensures WalkHost(r, host, depth, seen) == WalkEdges(r, Edges(r, host), depth, seen + {host})
  {
  }

  lemma HostByHost(r: Resolver, host: string, depth: nat, seen: set<string>)
    requires depth <= 10 && host != "" && host !in seen && !WalkHost(r, host, depth, seen).found
    ensures host != SES && WalkHost(r, host, depth, seen) == WalkEdges(r, Edges(r, host), depth, seen + {host})
  {
  }

  lemma LeadsFirst(es: seq<string>, seen: set<string>, all: set<string>)
    requires es != [] && es[0] != SES && (es[0] == "" || es[0] in seen) && seen <= all && Leads(es[1..], all)
    ensures Leads(es, all)
  {
    forall e | e in es ensures e != SES && (e == "" || e in all) {
      assert e == es[0] || e in es[1..];
    }
  }

  lemma HostExplored(r: Resolver, host: string, seen: set<string>, all: set<string>)
    requires Explored(r, seen + {host}, all) && Leads(Edges(r, host), all)
    ensures Explored(r, seen, all) && host in all
  {
  }

  /** Ways down that have at most 11 hosts, stay ways when more is seen, and go on to any new target. */
  ghost predicate Guides(r: Resolver, way: (seq<string>, set<string>) -> bool) {
    && (forall p, s | way(p, s) :: 0 < |p| <= 11)
    && (forall p, s, t | way(p, s) && s <= t :: way(p, t))
    && GoesOn(EdgesOf(r), way)
  }

  ghost predicate GoesOn(edges: string -> seq<string>, way: (seq<string>, set<string>) -> bool) {
    forall p, s, e | way(p, s) && p != [] && e in edges(p[|p| - 1]) && e !in s && e != SES && e != "" ::
      way(p + [e], s + {e})
  }

  lemma OneOn(edges: string -> seq<string>, way: (seq<string>, set<string>) -> bool, p: seq<string>, s: set<string>,
      e: string)
    requires GoesOn(edges, way) && way(p, s) && p != [] && e in edges(p[|p| - 1]) && e !in s && e != SES && e != ""
    ensures way(p + [e], s + {e})
  {
  }

  ghost function Ways(r: Resolver, root: string): (seq<string>, set<string>) -> bool {
    (p, s) => WayTo(r, root, p, s)
  }

  lemma ShortWaysGuide(r: Resolver, root: string)
    requires ShortPaths(r, root, 11)
    ensures Guides(r, Ways(r, root))
  {
    var way := Ways(r, root);
    forall p, s, e | way(p, s) && p != [] && e in Edges(r, p[|p| - 1]) && e !in s && e != SES && e != ""
      ensures way(p + [e], s + {e})
    {
      LongerWay(r, root, p, s, e);
    }
    forall p, s, t | way(p, s) && s <= t ensures way(p, t) {
      WayGrows(r, root, p, s, t);
    }
  }

  /** The depth cap is never what stops the walk on such ways: a host first met at depth 11 would end a
      way of twelve hosts. */
  lemma {:induction false} WalkEdgesExplores(r: Resolver, way: (seq<string>, set<string>) -> bool, path: seq<string>,
      es: seq<string>, d: nat, seen: set<string>, w: Walk)
    requires Guides(r, way) && way(path, seen) && |path| == d + 1 && d <= 10
    requires forall e | e in es :: e in Edges(r, path[d])
    requires w == WalkEdges(r, es, d, seen) && !w.found
    ensures Explored(r, seen, w.seen) && Leads(es, w.seen)
    decreases 12 - d, 0, |es|
  {
    if es != [] {
      var first := WalkHost(r, es[0], d + 1, seen);
      EdgeByEdge(r, es, d, seen);
      assert es[0] in es;
      StepExplores(r, way, path, es[0], d, seen, first);
      WalkEdgesExplores(r, way, path, es[1..], d, first.seen, w);
      ExploredOn(r, seen, first.seen, w.seen);
      LeadsFirst(es, first.seen, w.seen);
    }
  }

  lemma {:induction false} StepExplores(r: Resolver, way: (seq<string>, set<string>) -> bool, path: seq<string>,
      e: string, d: nat, seen: set<string>, w: Walk)
    requires Guides(r, way) && way(path, seen) && |path| == d + 1 && d <= 10
    requires e in Edges(r, path[d]) && e != SES && w == WalkHost(r, e, d + 1, seen) && !w.found
    ensures Explored(r, seen, w.seen) && (e == "" || e in w.seen)
    decreases 12 - d, 0, 0
  {
    if e == "" || e in seen {
      NothingDone(r, e, d + 1, seen);
    } else {
      var longer, n, now := NextWay(r, way, path, e, d, seen);
      HostByHost(r, e, n, seen);
      WalkEdgesExplores(r, way, longer, Edges(r, e), n, now, w);
      HostExplored(r, e, seen, w.seen);
    }
  }

  lemma NextWay(r: Resolver, way: (seq<string>, set<string>) -> bool, path: seq<string>, e: string, d: nat,
      seen: set<string>)
      returns (longer: seq<string>, n: nat, now: set<string>)
    requires Guides(r, way) && way(path, seen) && |path| == d + 1
    requires e in Edges(r, path[d]) && e != SES && e != "" && e !in seen
    ensures way(longer, now) && |longer| == n + 1 && n == d + 1 && n <= 10 && longer[n] == e && now == seen + {e}
  {
    longer, n, now := path + [e], d + 1, seen + {e};
    EdgeIsOne(r, path[d], e);
    OneOn(EdgesOf(r), way, path, seen, e);
    WayIsShort(r, way, longer, now);
  }

  lemma EdgeIsOne(r: Resolver, host: string, e: string)
    requires e in Edges(r, host)
    ensures e in EdgesOf(r)(host)
  {
  }

  lemma WayIsShort(r: Resolver, way: (seq<string>, set<string>) -> bool, path: seq<string>, seen: set<string>)
    requires Guides(r, way) && way(path, seen)
    ensures |path| <= 11
  {
  }

  lemma NothingDone(r: Resolver, host: string, depth: nat, seen: set<string>)
    requires host == "" || host in seen
    ensures WalkHost(r, host, depth, seen) == Walk(false, seen) && Explored(r, seen, seen)
  {
  }

  lemma RootExplores(r: Resolver, way: (seq<string>, set<string>) -> bool, root: string, w: Walk)
    requires Guides(r, way) && way([root], {root}) && root != ""
    requires w == WalkHost(r, root, 0, {}) && !w.found
    ensures Explored(r, {}, w.seen) && root in w.seen && root != SES
  {
    HostByHost(r, root, 0, {});
    assert {} + {root} == {root};
    WalkEdgesExplores(r, way, [root], Edges(r, root), 0, {root}, w);
    HostExplored(r, root, {}, w.seen);
  }

  lemma FruitlessExplores(r: Resolver, target: string)
    requires ShortPaths(r, target, 11) && target != "" && target != SES && !WalkHost(r, target, 0, {}).found
    ensures var seen := WalkHost(r, target, 0, {}).seen; Explored(r, {}, seen) && target in seen
  {
    ShortWaysGuide(r, target);
    assert WayTo(r, target, [target], {target});
    RootExplores(r, Ways(r, target), target, WalkHost(r, target, 0, {}));
  }

  lemma EmptyHostEnds(r: Resolver, path: seq<string>, b: string)
    requires IsPath(r, path, "", b)
    ensures b == ""
  {
    LinkedTail(EdgesOf(r), path);
  }

  /** A fully explored set does not lead to the goal. */
  lemma {:induction false} ExploredMissesGoal(r: Resolver, seen: set<string>, path: seq<string>, a: string)
    requires Explored(r, {}, seen) && a in seen && a != SES
    ensures !IsPath(r, path, a, SES)
    decreases |path|
  {
    if IsPath(r, path, a, SES) {
      var c, rest := path[1], path[1..];
      LinkedTail(EdgesOf(r), path);
      assert IsPath(r, rest, c, SES);
      if c == "" {
        EmptyHostEnds(r, rest, SES);
      } else {
        ExploredMissesGoal(r, seen, rest, c);
      }
    }
  }

  /** Exact on short paths: when no simple path from the target has more than 11 hosts, the walk finds
      the goal if and only if it can be reached. */
  lemma WalkIsExact(r: Resolver, target: string)
    requires ShortPaths(r, target, 11)
    ensures WalkHost(r, target, 0, {}).found <==> Reaches(r, target, SES)
  {
    if WalkHost(r, target, 0, {}).found {
      WalkHostSound(r, target, 0, {});
    } else if target == "" {
      if Reaches(r, target, SES) {
        var path :| IsPath(r, path, target, SES);
        EmptyHostEnds(r, path, SES);
      }
    } else if Reaches(r, target, SES) {
      assert target != SES;
      FruitlessExplores(r, target);
      var path :| IsPath(r, path, target, SES);
      ExploredMissesGoal(r, WalkHost(r, target, 0, {}).seen, path, target);
    }
  }

  // ---------------------------------------------------------------- small graphs

  /** `hosts` holds all that can be reached from within it, the goal and "" aside. */
  ghost predicate Closed(r: Resolver, hosts: set<string>) {
    SES !in hosts && "" !in hosts &&
    forall h, e | h in hosts && e in Edges(r, h) :: e in hosts || e == "" || e == SES
  }

  function HostsOf(path: seq<string>): set<string> {
    set h | h in path :: h
  }

  lemma HostsOn(front: seq<string>, last: string)
    ensures HostsOf(front + [last]) == HostsOf(front) + {last}
  {
    forall h ensures h in HostsOf(front + [last]) <==> h in HostsOf(front) + {last} {
      assert h in front + [last] <==> h in front || h == last;
    }
  }

  lemma {:induction false} DistinctHosts(path: seq<string>)
    requires forall i, j | 0 <= i < j < |path| :: path[i] != path[j]
    ensures |HostsOf(path)| == |path|
  {
    if path != [] {
      var front, last := path[..|path| - 1], path[|path| - 1];
      DistinctHosts(front);
      HostsOn(front, last);
      assert path == front + [last] && last !in front;
    }
  }

  lemma {:induction false} PathInside(edges: string -> seq<string>, hosts: set<string>, path: seq<string>, i: nat)
    requires forall h, e | h in hosts && e in edges(h) :: e in hosts || e == "" || e == SES
    requires Simple(path) && i < |path| && path[0] in hosts && forall k :: Linked(edges, path, k)
    ensures path[i] in hosts
  {
    if i > 0 {
      PathInside(edges, hosts, path, i - 1);
      assert Linked(edges, path, i) && path[i] in path;
    }
  }

  /** With at most n hosts in play no simple path has more than n. */
  lemma SmallGraphIsShort(r: Resolver, hosts: set<string>, target: string, n: nat)
    requires Closed(r, hosts) && |hosts| <= n && target in hosts
    ensures ShortPaths(r, target, n)
  {
    forall path: seq<string> | path != [] && IsPath(r, path, target, path[|path| - 1]) && Simple(path)
      ensures |path| <= n
    {
      forall h | h in path ensures h in hosts {
        var i :| 0 <= i < |path| && path[i] == h;
        PathInside(EdgesOf(r), hosts, path, i);
      }
      DistinctHosts(path);
      SubsetSize(HostsOf(path), hosts);
    }
  }

  // ---------------------------------------------------------------- what the cap can hide

  /** The host "a...a" of length n. */
  function ChainHost(n: nat): string {
    seq(n, i => 'a')
  }

  /** Twelve hosts in a row, the last of which points to the goal; the first points to the eleventh too. */
  function Detour(): Resolver {
    h => if |h| == 1 && h == ChainHost(1) then Some(["v=spf1 include:" + ChainHost(2) + " include:" + ChainHost(11)])
      else if 2 <= |h| <= 12 && h == ChainHost(|h|)
      then Some(["v=spf1 include:" + (if |h| == 12 then SES else ChainHost(|h| + 1))]) else None
  }

  lemma IncludeTarget(host: string)
    requires host != "" && host[0] !in "+-~?" && host[|host| - 1] != '.'
    ensures Target("include:" + host) == Some(host)
  {
    assert TrimPrefix("include:" + host, "include:") == host;
    assert !HasSuffix(host, ".");
  }

  lemma TrimmedLower(intro: string, host: string)
    requires intro != "" && !IsSpace(intro[0]) && ToLower(intro) == intro
    requires host != "" && NoSpace(host) && ToLower(host) == host
    ensures ToLower(TrimSpace(intro + host)) == intro + host
  {
    var txt := intro + host;
    assert txt[0] == intro[0] && txt[|txt| - 1] == host[|host| - 1];
    TrimSpaceFixed(txt);
    ToLowerAppend(intro, host);
  }

  predicate PlainHost(host: string) {
    host != "" && NoSpace(host) && ToLower(host) == host && host[0] !in "+-~?" && host[|host| - 1] != '.'
  }

  lemma TargetsOfPlain(txt: string, toks: seq<string>)
    requires ToLower(TrimSpace(txt)) == txt && HasPrefix(txt, "v=spf1") && Fields(txt) == toks
    ensures TextTargets(txt) == Targets(toks)
  {
  }

  lemma {:induction false} TargetsSnoc(toks: seq<string>, tok: string)
    ensures Targets(toks + [tok]) == Targets(toks) + Listed(Target(tok))
  {
    if toks == [] {
      assert [] + [tok] == [tok] && [tok][1..] == [];
      assert Targets([tok]) == Listed(Target(tok)) + Targets([]);
    } else {
      assert (toks + [tok])[1..] == toks[1..] + [tok];
      TargetsSnoc(toks[1..], tok);
    }
  }

  lemma LowerMore(txt: string)
    requires ToLower(txt) == txt
    ensures ToLower(txt + " include:") == txt + " include:"
  {
    ToLowerAppend(txt, " include:");
    assert ToLower(" include:") == " include:";
  }

  lemma FieldsMore(txt: string, tok: string)
    requires NoSpace(tok) && tok != ""
    ensures Fields(txt + [' '] + tok) == Fields(txt) + [tok]
  {
    FieldsAppend(txt, ' ', tok);
    FieldsWord(tok);
  }

  lemma PrefixMore(txt: string, rest: string)
    requires HasPrefix(txt, "v=spf1")
    ensures HasPrefix(txt + rest, "v=spf1")
  {
    assert (txt + rest)[..6] == txt[..6];
  }

  lemma IncludeApart(txt: string, host: string)
    ensures txt + " include:" + host == txt + [' '] + ("include:" + host)
  {
  }

  lemma OneMoreToken(txt: string, toks: seq<string>, tok: string, more: string)
    requires more == txt + [' '] + tok && ToLower(TrimSpace(more)) == more && HasPrefix(more, "v=spf1")
    requires Fields(txt) == toks && NoSpace(tok) && tok != ""
    ensures Fields(more) == toks + [tok] && TextTargets(more) == Targets(toks) + Listed(Target(tok))
  {
    FieldsMore(txt, tok);
    TargetsOfPlain(more, toks + [tok]);
    TargetsSnoc(toks, tok);
  }

  lemma Regrouped(txt: string, mech: string, host: string)
    ensures txt + [' '] + (mech + host) == (txt + [' '] + mech) + host == txt + ([' '] + (mech + host))
  {
  }

  lemma LowerAtEnd(intro: string, host: string, more: string)
    requires more == intro + host && intro != "" && !IsSpace(intro[0]) && ToLower(intro) == intro && PlainHost(host)
    ensures ToLower(TrimSpace(more)) == more
  {
    TrimmedLower(intro, host);
  }

  lemma OneMoreMechanism(txt: string, toks: seq<string>, mech: string, host: string)
    requires txt != "" && !IsSpace(txt[0]) && HasPrefix(txt, "v=spf1") && Fields(txt) == toks
    requires ToLower(txt + [' '] + mech) == txt + [' '] + mech && NoSpace(mech) && PlainHost(host)
    ensures var more := txt + [' '] + (mech + host);
      && Fields(more) == toks + [mech + host] && TextTargets(more) == Targets(toks) + Listed(Target(mech + host))
  {
    var tok := mech + host;
    var more := txt + [' '] + tok;
    Regrouped(txt, mech, host);
    LowerAtEnd(txt + [' '] + mech, host, more);
    PrefixMore(txt, [' '] + tok);
    OneMoreToken(txt, toks, tok, more);
  }

  /** One more include at the end of a lower-case record is one more target. */
  lemma OneMoreInclude(txt: string, toks: seq<string>, host: string)
    requires txt != "" && !IsSpace(txt[0]) && ToLower(txt) == txt && HasPrefix(txt, "v=spf1")
    requires Fields(txt) == toks && PlainHost(host)
    ensures var more := txt + " include:" + host;
      && Fields(more) == toks + ["include:" + host] && TextTargets(more) == Targets(toks) + [host]
  {
    LowerMore(txt);
    IncludeApart(txt, "");
    assert txt + " include:" + "" == txt + " include:" && "include:" + "" == "include:";
    IncludeApart(txt, host);
    OneMoreMechanism(txt, toks, "include:", host);
    IncludeTarget(host);
  }

  lemma VersionFields()
    ensures Fields("v=spf1") == ["v=spf1"] && Targets(["v=spf1"]) == [] && ToLower("v=spf1") == "v=spf1"
  {
    FieldsWord("v=spf1");
    assert Target("v=spf1").None?;
    assert ["v=spf1"][1..] == [];
  }

  lemma IncludeText(host: string)
    requires PlainHost(host)
    ensures TextTargets("v=spf1 include:" + host) == [host]
    ensures Fields("v=spf1 include:" + host) == ["v=spf1", "include:" + host]
  {
    VersionFields();
    OneMoreInclude("v=spf1", ["v=spf1"], host);
    FirstInclude(host);
  }

  lemma FirstInclude(host: string)
    ensures "v=spf1" + " include:" + host == "v=spf1 include:" + host
    ensures ["v=spf1"] + ["include:" + host] == ["v=spf1", "include:" + host] && [] + [host] == [host]
  {
    assert "v=spf1" + " include:" == "v=spf1 include:";
  }

  lemma ChainHostPlain(n: nat)
    requires 1 <= n
    ensures PlainHost(ChainHost(n))
  {
    assert ToLower(ChainHost(n)) == ChainHost(n);
  }

  lemma GoalPlain()
    ensures PlainHost(SES)
  {
    assert ToLower(SES) == SES;
  }

  lemma ChainAnswers(n: nat)
    requires 2 <= n <= 12
    ensures ChainHost(n) != ""
    ensures Detour()(ChainHost(n)) == Some(["v=spf1 include:" + (if n == 12 then SES else ChainHost(n + 1))])
  {
    assert |ChainHost(n)| == n;
  }

  lemma EdgesOfOne(r: Resolver, host: string, txt: string)
    requires host != "" && r(host) == Some([txt])
    ensures Edges(r, host) == TextTargets(txt)
  {
    assert [txt][1..] == [];
    assert AllTargets([txt]) == TextTargets(txt) + [];
  }

  lemma ChainEdges(n: nat)
    requires 2 <= n <= 12
    ensures Edges(Detour(), ChainHost(n)) == [if n == 12 then SES else ChainHost(n + 1)]
  {
    var h := if n == 12 then SES else ChainHost(n + 1);
    GoalPlain();
    ChainHostPlain(n + 1);
    IncludeText(h);
    ChainAnswers(n);
    EdgesOfOne(Detour(), ChainHost(n), "v=spf1 include:" + h);
  }

  lemma RootEdges()
    ensures Edges(Detour(), ChainHost(1)) == [ChainHost(2), ChainHost(11)]
  {
    ChainHostPlain(2);
    ChainHostPlain(11);
    TwoIncludes(ChainHost(2), ChainHost(11));
    EdgesOfOne(Detour(), ChainHost(1), "v=spf1 include:" + ChainHost(2) + " include:" + ChainHost(11));
  }

  lemma TwoIncludes(a: string, b: string)
    requires PlainHost(a) && PlainHost(b)
    ensures TextTargets("v=spf1 include:" + a + " include:" + b) == [a, b]
  {
    var txt, toks := "v=spf1 include:" + a, ["v=spf1", "include:" + a];
    IncludeText(a);
    LowerRecord(a);
    OneMoreInclude(txt, toks, b);
    VersionFields();
    TargetsSnoc(["v=spf1"], "include:" + a);
    IncludeTarget(a);
    assert toks == ["v=spf1"] + ["include:" + a];
  }

  lemma LowerRecord(a: string)
    requires ToLower(a) == a
    ensures var txt := "v=spf1 include:" + a; ToLower(txt) == txt && HasPrefix(txt, "v=spf1") && !IsSpace(txt[0])
  {
    ToLowerAppend("v=spf1 include:", a);
    assert ToLower("v=spf1 include:") == "v=spf1 include:";
    assert "v=spf1 include:"[..6] == "v=spf1";
  }

  lemma ChainHostNotGoal(n: nat)
    requires 1 <= n
    ensures ChainHost(n) != SES && ChainHost(n) != ""
  {
    assert SES[1] == 'm';
    assert n > 1 ==> ChainHost(n)[1] == 'a';
  }

  lemma OneEdge(r: Resolver, e: string, depth: nat, seen: set<string>)
    requires depth <= 10 && e != SES
    ensures WalkEdges(r, [e], depth, seen) == WalkHost(r, e, depth + 1, seen)
  {
    assert [e][1..] == [];
  }

  lemma BothFruitless(r: Resolver, e: string, f: string, seen: set<string>, w: Walk)
    requires e != SES && f != SES && w == WalkHost(r, e, 1, seen) && !w.found && f in w.seen
    ensures !WalkEdges(r, [e, f], 0, seen).found
  {
    assert [e, f][1..] == [f];
    OneEdge(r, f, 0, w.seen);
    NothingDone(r, f, 1, w.seen);
  }

  /** Along the row the n-th host has depth n - 1, so the cap stops at the twelfth; the eleventh is seen. */
  lemma {:induction false} ChainMissed(n: nat, seen: set<string>)
    requires 2 <= n <= 12 && forall k | n <= k <= 12 :: ChainHost(k) !in seen
    ensures var w := WalkHost(Detour(), ChainHost(n), n - 1, seen);
      !w.found && seen <= w.seen && (n <= 11 ==> ChainHost(11) in w.seen)
    decreases 12 - n
  {
    if n < 12 {
      var h, next, now := ChainHost(n), ChainHost(n + 1), seen + {ChainHost(n)};
      ChainEdges(n);
      ChainHostNotGoal(n);
      ChainHostNotGoal(n + 1);
      forall k | n + 1 <= k <= 12 ensures ChainHost(k) !in now {
        assert |ChainHost(k)| != |h|;
      }
      ChainMissed(n + 1, now);
      OneEdge(Detour(), next, n - 1, now);
      assert WalkHost(Detour(), h, n - 1, seen) == WalkEdges(Detour(), [next], n - 1, now);
    }
  }

  /** A host whose two targets are a fruitless one and one that the first has led to. */
  lemma BothMissed(r: Resolver, root: string, e: string, f: string, w: Walk)
    requires root != "" && root != SES && e != SES && f != SES && Edges(r, root) == [e, f]
    requires w == WalkHost(r, e, 1, {root}) && !w.found && f in w.seen
    ensures !WalkHost(r, root, 0, {}).found
  {
    assert {} + {root} == {root};
    HostStep(r, root, 0, {});
    BothFruitless(r, e, f, {root}, w);
  }

  lemma DetourMissed()
    ensures !WalkHost(Detour(), ChainHost(1), 0, {}).found
  {
    var root := ChainHost(1);
    RootEdges();
    ChainHostNotGoal(1);
    ChainHostNotGoal(2);
    ChainHostNotGoal(11);
    forall k | 2 <= k <= 12 ensures ChainHost(k) !in {root} {
      assert |ChainHost(k)| != |root|;
    }
    ChainMissed(2, {root});
    BothMissed(Detour(), root, ChainHost(2), ChainHost(11), WalkHost(Detour(), ChainHost(2), 1, {root}));
  }

  lemma PathOfFour(edges: string -> seq<string>, a: string, b: string, c: string, d: string)
    requires b in edges(a) && c in edges(b) && d in edges(c)
    ensures PathAlong(edges, [a, b, c, d], a, d)
  {
  }

  /** The goal is three hops from the first host and is not found: the eleventh host is first met at depth
      10, where its include is cut off, and stays seen when the first host points to it directly. */
  lemma DepthCapCanMiss()
    ensures IsPath(Detour(), [ChainHost(1), ChainHost(11), ChainHost(12), SES], ChainHost(1), SES)
    ensures !WalkHost(Detour(), ChainHost(1), 0, {}).found
  {
    RootEdges();
    ChainEdges(11);
    ChainEdges(12);
    PathOfFour(EdgesOf(Detour()), ChainHost(1), ChainHost(11), ChainHost(12), SES);
    DetourMissed();
  }
}
