/** Counting the DNS lookups of an SPF record, with and without following includes. */
module SpfCount {
  import opened Text
  import SesWalk

  type Resolver = SesWalk.Resolver

  // ---------------------------------------------------------------- one record

  /** A token that costs a lookup; `follow` is the host to be opened for include and redirect. */
  datatype Cost = Free | Plain | Follow(target: string)

  function CostOf(tok: string): Cost {
    var low := ToLower(tok);
    if low == "a" || low == "mx" || HasPrefix(low, "a:") || HasPrefix(low, "mx:") || HasPrefix(low, "ptr:")
      || HasPrefix(low, "exists:")
    then Plain
    else if HasPrefix(low, "include:") then Follow(TrimDot(SesWalk.StripQualifier(TrimPrefix(tok, "include:"))))
    else if HasPrefix(low, "redirect=") then Follow(TrimDot(TrimPrefix(tok, "redirect=")))
    else Free
  }

  function CountTokens(toks: seq<string>): nat {
    if toks == [] then 0 else (if CostOf(toks[0]).Free? then 0 else 1) + CountTokens(toks[1..])
  }

  function SurfaceCount(spf: string): nat {
    CountTokens(Fields(spf))
  }

  method CountSPFLookups(spf: string) returns (count: nat)
    ensures count == SurfaceCount(spf)
  {
    var toks := Fields(spf);
    count := 0;
    for i := 0 to |toks|
      invariant count + CountTokens(toks[i..]) == SurfaceCount(spf)
    {
      assert toks[i..][1..] == toks[i + 1..];
      if !CostOf(toks[i]).Free? {
        count := count + 1;
      }
    }
  }

  lemma {:induction false} CountTokensAppend(a: seq<string>, b: seq<string>)
    ensures CountTokens(a + b) == CountTokens(a) + CountTokens(b)
  {
    if a == [] {
      assert a + b == b;
    } else {
      assert (a + b)[1..] == a[1..] + b;
      CountTokensAppend(a[1..], b);
    }
  }

  // ---------------------------------------------------------------- following includes

  /** A host that was looked up, and the depth of the record it answered with. */
  datatype Opened = Opened(host: string, depth: nat)

  /** The result of a count: `log` lists the lookups in order. */
  datatype Tally = Tally(count: nat, failed: bool, seen: set<string>, log: seq<Opened>)

  predicate IsSpfText(txt: string) {
    HasPrefix(ToLower(TrimSpace(txt)), "v=spf1")
  }

  /** The first SPF text among the TXT records. */
  function FirstSpf(txts: seq<string>): Option<string> {
    if txts == [] then None else if IsSpfText(txts[0]) then Some(txts[0]) else FirstSpf(txts[1..])
  }

  function CountRecord(r: Resolver, spf: string, depth: nat, seen: set<string>): Tally
    decreases 12 - depth, 1, 0
  {
    if depth > 10 then Tally(0, false, seen, []) else CountFrom(r, Fields(spf), depth, seen)
  }

  function CountFrom(r: Resolver, toks: seq<string>, depth: nat, seen: set<string>): Tally
    requires depth <= 10
    decreases 12 - depth, 0, |toks|, 1
  {
    if toks == [] then Tally(0, false, seen, [])
    else match CostOf(toks[0])
      case Free => CountFrom(r, toks[1..], depth, seen)
      case Plain => AddOne(CountFrom(r, toks[1..], depth, seen))
      case Follow(target) =>
        var sub := RecurseInto(r, target, depth, seen, |toks|);
        if sub.failed then Tally(1, true, sub.seen, sub.log)
        else Then(sub, AddOne(CountFrom(r, toks[1..], depth, sub.seen)))
  }

  function AddOne(t: Tally): Tally {
    t.(count := t.count + 1)
  }

  function Then(a: Tally, b: Tally): Tally {
    Tally(a.count + b.count, b.failed, b.seen, a.log + b.log)
  }

  /** `room` only orders the calls. */
  function RecurseInto(r: Resolver, target: string, depth: nat, seen: set<string>, room: nat): Tally
    requires depth <= 10
    decreases 12 - depth, 0, room, 0
  {
    if target == "" || target in seen then Tally(0, false, seen, [])
    else
      var entry, now := [Opened(target, depth + 1)], seen + {target};
      if r(target).None? then Tally(0, true, now, entry)
      else match FirstSpf(r(target).value)
        case None => Tally(0, false, now, entry)
        case Some(txt) =>
          var sub := CountRecord(r, txt, depth + 1, now);
          sub.(log := entry + sub.log)
  }

  method RecursiveSPFLookupCount(r: Resolver, spf: string, depth: nat, seen0: set<string>)
      returns (count: nat, failed: bool, seen: set<string>)
    ensures var t := CountRecord(r, spf, depth, seen0); count == t.count && failed == t.failed && seen == t.seen
    decreases 12 - depth, 1
  {
    seen := seen0;
    if depth > 10 {
      return 0, false, seen;
    }
    count := 0;
    var toks := Fields(spf);
    ghost var whole := CountFrom(r, toks, depth, seen0);
    for i := 0 to |toks|
      invariant SameRest(whole, count, CountFrom(r, toks[i..], depth, seen))
    {
      assert toks[i..][0] == toks[i] && toks[i..][1..] == toks[i + 1..];
      match CostOf(toks[i]) {
        case Free =>
        case Plain => count := count + 1;
        case Follow(target) =>
          count := count + 1;
          RoomIrrelevant(r, target, depth, seen, |toks[i..]|, 0);
          var sub, err, seen' := RecurseIntoHost(r, target, depth, seen);
          seen := seen';
          if err {
            return count, true, seen;
          }
          count := count + sub;
      }
    }
    return count, false, seen;
  }

  predicate SameRest(whole: Tally, count: nat, rest: Tally) {
    whole.count == count + rest.count && whole.failed == rest.failed && whole.seen == rest.seen
  }

  lemma RoomIrrelevant(r: Resolver, target: string, depth: nat, seen: set<string>, a: nat, b: nat)
    requires depth <= 10
    ensures RecurseInto(r, target, depth, seen, a) == RecurseInto(r, target, depth, seen, b)
  {
  }

  method RecurseIntoHost(r: Resolver, target: string, depth: nat, seen0: set<string>)
      returns (count: nat, failed: bool, seen: set<string>)
    requires depth <= 10
    ensures var t := RecurseInto(r, target, depth, seen0, 0); count == t.count && failed == t.failed && seen == t.seen
    decreases 12 - depth, 0
  {
    seen := seen0;
    if target == "" || target in seen {
      return 0, false, seen;
    }
    seen := seen + {target};
    var answer := r(target);
    if answer.None? {
      return 0, true, seen;
    }
    var txts := answer.value;
    for i := 0 to |txts|
      invariant FirstSpf(txts[i..]) == FirstSpf(txts)
    {
      assert txts[i..][0] == txts[i] && txts[i..][1..] == txts[i + 1..];
      if !IsSpfText(txts[i]) {
        continue;
      }
      count, failed, seen := RecursiveSPFLookupCount(r, txts[i], depth + 1, seen);
      return;
    }
    return 0, false, seen;
  }

  // ---------------------------------------------------------------- no host is looked up twice

  function Hosts(log: seq<Opened>): set<string> {
    set o | o in log :: o.host
  }

  /** Each lookup is of a new host, and the hosts seen are exactly the old ones and those looked up. */
  ghost predicate LookedUpOnce(t: Tally, seen: set<string>) {
    && (forall i | 0 <= i < |t.log| :: t.log[i].host !in seen && t.log[i].host != "")
    && (forall i, j | 0 <= i < j < |t.log| :: t.log[i].host != t.log[j].host)
    && t.seen == seen + Hosts(t.log)
  }

  lemma ThenOnce(a: Tally, b: Tally, seen: set<string>)
    requires LookedUpOnce(a, seen) && LookedUpOnce(b, a.seen)
    ensures LookedUpOnce(Then(a, b), seen)
  {
    var log := a.log + b.log;
    forall i, j | 0 <= i < j < |log| ensures log[i].host != log[j].host {
      if i < |a.log| <= j {
        assert a.log[i] in a.log && log[j] == b.log[j - |a.log|];
      }
    }
    assert Hosts(log) == Hosts(a.log) + Hosts(b.log) by {
      assert forall o :: o in log <==> o in a.log || o in b.log;
    }
  }

  lemma {:induction false} CountRecordOnce(r: Resolver, spf: string, depth: nat, seen: set<string>)
    ensures LookedUpOnce(CountRecord(r, spf, depth, seen), seen)
    decreases 12 - depth, 1, 0
  {
    if depth <= 10 {
      CountFromOnce(r, Fields(spf), depth, seen);
    }
  }

  lemma {:induction false} CountFromOnce(r: Resolver, toks: seq<string>, depth: nat, seen: set<string>)
    requires depth <= 10
    ensures LookedUpOnce(CountFrom(r, toks, depth, seen), seen)
    decreases 12 - depth, 0, |toks|, 1
  {
    if toks != [] {
      match CostOf(toks[0])
      case Free => CountFromOnce(r, toks[1..], depth, seen);
      case Plain => CountFromOnce(r, toks[1..], depth, seen);
      case Follow(target) =>
        var sub := RecurseInto(r, target, depth, seen, |toks|);
        RecurseIntoOnce(r, target, depth, seen, |toks|);
        if !sub.failed {
          CountFromOnce(r, toks[1..], depth, sub.seen);
          ThenOnce(sub, AddOne(CountFrom(r, toks[1..], depth, sub.seen)), seen);
        }
    }
  }

  lemma {:induction false} RecurseIntoOnce(r: Resolver, target: string, depth: nat, seen: set<string>, room: nat)
    requires depth <= 10
    ensures LookedUpOnce(RecurseInto(r, target, depth, seen, room), seen)
    decreases 12 - depth, 0, room, 0
  {
    if target != "" && target !in seen {
      var entry := Tally(0, false, seen + {target}, [Opened(target, depth + 1)]);
      assert LookedUpOnce(entry, seen);
      if r(target).Some? && FirstSpf(r(target).value).Some? {
        var txt := FirstSpf(r(target).value).value;
        CountRecordOnce(r, txt, depth + 1, entry.seen);
        ThenOnce(entry, CountRecord(r, txt, depth + 1, entry.seen), seen);
      }
    }
  }

  // ---------------------------------------------------------------- the total is a sum

  /** The SPF record of a host, as tokens; none when it has no SPF text. */
  function RecordOf(r: Resolver, host: string): seq<string> {
    if r(host).None? || FirstSpf(r(host).value).None? then [] else Fields(FirstSpf(r(host).value).value)
  }

  /** What the opened records cost, those below depth 10 being ignored. */
  function SumLog(r: Resolver, log: seq<Opened>): nat {
    if log == [] then 0
    else (if log[0].depth <= 10 then CountTokens(RecordOf(r, log[0].host)) else 0) + SumLog(r, log[1..])
  }

  lemma {:induction false} SumLogAppend(r: Resolver, a: seq<Opened>, b: seq<Opened>)
    ensures SumLog(r, a + b) == SumLog(r, a) + SumLog(r, b)
  {
    if a == [] {
      assert a + b == b;
    } else {
      assert (a + b)[1..] == a[1..] + b;
      SumLogAppend(r, a[1..], b);
    }
  }

  /** When no lookup fails, the total is the cost of the root record plus that of each record
      opened at depth at most 10. */
  lemma {:induction false} CountRecordSums(r: Resolver, spf: string, depth: nat, seen: set<string>)
    requires !CountRecord(r, spf, depth, seen).failed
    ensures var t := CountRecord(r, spf, depth, seen);
      t.count == (if depth <= 10 then SurfaceCount(spf) else 0) + SumLog(r, t.log)
    decreases 12 - depth, 1, 0
  {
    if depth <= 10 {
      CountFromSums(r, Fields(spf), depth, seen);
    }
  }

  lemma {:induction false} CountFromSums(r: Resolver, toks: seq<string>, depth: nat, seen: set<string>)
    requires depth <= 10 && !CountFrom(r, toks, depth, seen).failed
    ensures var t := CountFrom(r, toks, depth, seen); t.count == CountTokens(toks) + SumLog(r, t.log)
    decreases 12 - depth, 0, |toks|, 1
  {
    if toks != [] {
      match CostOf(toks[0])
      case Free => CountFromSums(r, toks[1..], depth, seen);
      case Plain => CountFromSums(r, toks[1..], depth, seen);
      case Follow(target) =>
        var sub := RecurseInto(r, target, depth, seen, |toks|);
        var rest := CountFrom(r, toks[1..], depth, sub.seen);
        RecurseIntoSums(r, target, depth, seen, |toks|);
        CountFromSums(r, toks[1..], depth, sub.seen);
        SumLogAppend(r, sub.log, rest.log);
    }
  }

  lemma {:induction false} RecurseIntoSums(r: Resolver, target: string, depth: nat, seen: set<string>, room: nat)
    requires depth <= 10 && !RecurseInto(r, target, depth, seen, room).failed
    ensures var t := RecurseInto(r, target, depth, seen, room); t.count == SumLog(r, t.log)
    decreases 12 - depth, 0, room, 0
  {
    if target != "" && target !in seen {
      var entry := [Opened(target, depth + 1)];
      assert entry[1..] == [];
      if FirstSpf(r(target).value).Some? {
        var txt := FirstSpf(r(target).value).value;
        CountRecordSums(r, txt, depth + 1, seen + {target});
        SumLogAppend(r, entry, CountRecord(r, txt, depth + 1, seen + {target}).log);
      }
    }
  }
}
