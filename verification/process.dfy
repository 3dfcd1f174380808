/** One call of the engine: ownership pre-deletion, the zone loop, restoration, and the deltas. */
module Process {
  import opened Text
  import opened Records
  import opened RecordLists
  import opened Conflicts
  import opened ZoneApply

  datatype Opts = Opts(
    zoneRecords: seq<Record>,
    multiAware: bool,
    multiInstance: bool,
    providerId: string,
    serviceId: string,
    uniqueId: string,
    host: string)

  /** Rejected stands for the two errors the engine can raise here. */
  datatype Outcome = Accepted(toAdd: seq<Record>, toDelete: seq<Record>) | Rejected

  // ---------------------------------------------------------------- ownership

  predicate SameService(o: Opts, m: Meta) {
    m.providerId == o.providerId && m.serviceId == o.serviceId
  }

  /** Deleted up front: an earlier application of this service, instance or provider. */
  predicate Superseded(o: Opts, r: Record) {
    r.dc.Some? &&
    if o.multiInstance then SameService(o, r.dc.value) && r.dc.value.id == o.uniqueId
    else SameService(o, r.dc.value) || r.dc.value.providerId == o.providerId
  }

  /** Of those, the records of another service of the provider marked essential=Always. */
  predicate Restorable(o: Opts, r: Record) {
    r.dc.Some? && !o.multiInstance && !SameService(o, r.dc.value) &&
    r.dc.value.providerId == o.providerId && r.dc.value.essential == "Always"
  }

  function SupersededTest(o: Opts): Record -> bool {
    r => Superseded(o, r)
  }

  function RestorableTest(o: Opts): Record -> bool {
    r => Restorable(o, r)
  }

  function Normalized(zone: seq<Record>): (n: seq<Record>)
    ensures |n| == |zone|
  {
    seq(|zone|, i requires 0 <= i < |zone| => NormalizeRecord(zone[i]))
  }

  function Start(o: Opts): Work {
    var w := Work(Normalized(o.zoneRecords), [], []);
    if o.multiAware then Cut(w, SupersededTest(o)) else w
  }

  function Candidates(o: Opts): seq<Record> {
    if o.multiAware then Filter(RestorableTest(o), Normalized(o.zoneRecords)) else []
  }

  // ---------------------------------------------------------------- restoration

  predicate Blocks(added: Record, ea: Record) {
    ToUpper(added.typ) == ToUpper(ea.typ) && NameEq(added.name, ea.name)
  }

  predicate AnyBlocked(toAdd: seq<Record>, cands: seq<Record>) {
    exists ea, added | ea in cands && added in toAdd :: Blocks(added, ea)
  }

  function RestoreOne(w: Work, ea: Record): Work {
    Work(w.zone + [ea], w.toAdd, Remove(w.toDelete, Keys([ea])))
  }

  function Restore(w: Work, cands: seq<Record>): Work
    decreases |cands|
  {
    if cands == [] then w
    else Restore(RestoreOne(w, cands[0]), cands[1..])
  }

  /** The engine's state before the logs are deduplicated. */
  function Final(o: Opts, resolved: seq<Entry>): Work {
    var w := Start(o);
    var done := Run(w, resolved, KeySet(w.zone));
    if AnyBlocked(done.toAdd, Candidates(o)) then done else Restore(done, Candidates(o))
  }

  // ---------------------------------------------------------------- stamping

  function EssentialOf(r: Record, resolved: seq<Entry>): string {
    if resolved == [] then ""
    else if KeyOf(resolved[0].rec) == KeyOf(r) then resolved[0].essential
    else EssentialOf(r, resolved[1..])
  }

  function Stamp(o: Opts, resolved: seq<Entry>, r: Record): Record {
    var essential := EssentialOf(r, resolved);
    r.(dc := Some(Meta(o.uniqueId, o.providerId, o.serviceId, o.host, if essential == "" then "Always" else essential)))
  }

  function StampAll(o: Opts, resolved: seq<Entry>, recs: seq<Record>): (s: seq<Record>)
    ensures |s| == |recs|
  {
    seq(|recs|, i requires 0 <= i < |recs| => Stamp(o, resolved, recs[i]))
  }

  function ApexCount(resolved: seq<Entry>): nat {
    if resolved == [] then 0
    else ApexCount(resolved[..|resolved| - 1]) + if resolved[|resolved| - 1].rec.typ == "APEXCNAME" then 1 else 0
  }

  ghost predicate Acceptable(resolved: seq<Entry>) {
    Compatible(resolved) && ApexCount(resolved) <= 1
  }

  ghost function Result(o: Opts, resolved: seq<Entry>): Outcome {
    if !Acceptable(resolved) then Rejected
    else
      var w := Final(o, resolved);
      var toAdd := Dedup(w.toAdd, {});
      Accepted(if o.multiAware then StampAll(o, resolved, toAdd) else toAdd, Dedup(w.toDelete, {}))
  }

  // ---------------------------------------------------------------- the call

  method FindBlocked(toAdd: seq<Record>, cands: seq<Record>) returns (anyConflict: bool)
    ensures anyConflict == AnyBlocked(toAdd, cands)
  {
    for i := 0 to |cands|
      invariant forall a, added | 0 <= a < i && added in toAdd :: !Blocks(added, cands[a])
    {
      for j := 0 to |toAdd|
        invariant forall b | 0 <= b < j :: !Blocks(toAdd[b], cands[i])
      {
        if Blocks(toAdd[j], cands[i]) {
          assert toAdd[j] in toAdd && cands[i] in cands;
          return true;
        }
      }
    }
    return false;
  }

  method RestoreAll(w: Work, cands: seq<Record>) returns (w': Work)
    ensures w' == Restore(w, cands)
  {
    w' := w;
    for i := 0 to |cands|
      invariant Restore(w', cands[i..]) == Restore(w, cands)
    {
      assert cands[i..][1..] == cands[i + 1..];
      var toDelete := RemoveRecords(w'.toDelete, [cands[i]]);
      w' := Work(w'.zone + [cands[i]], w'.toAdd, toDelete);
    }
  }

  method StampRecords(o: Opts, resolved: seq<Entry>, recs: seq<Record>) returns (stamped: seq<Record>)
    ensures stamped == StampAll(o, resolved, recs)
  {
    stamped := recs;
    for i := 0 to |recs|
      invariant |stamped| == |recs|
      invariant forall j | 0 <= j < i :: stamped[j] == Stamp(o, resolved, recs[j])
      invariant forall j | i <= j < |recs| :: stamped[j] == recs[j]
    {
      var essential := "";
      for j := 0 to |resolved|
        invariant essential == ""
        invariant EssentialOf(recs[i], resolved[j..]) == EssentialOf(recs[i], resolved)
      {
        assert resolved[j..][1..] == resolved[j + 1..];
        if KeyOf(resolved[j].rec) == KeyOf(recs[i]) {
          essential := resolved[j].essential;
          break;
        }
      }
      if essential == "" {
        essential := "Always";
      }
      stamped := stamped[i := recs[i].(dc := Some(Meta(o.uniqueId, o.providerId, o.serviceId, o.host, essential)))];
    }
  }

  method NormalizeZone(zoneRecords: seq<Record>) returns (zone: seq<Record>)
    ensures zone == Normalized(zoneRecords)
  {
    zone := zoneRecords;
    for i := 0 to |zoneRecords|
      invariant |zone| == |zoneRecords|
      invariant forall j | 0 <= j < i :: zone[j] == NormalizeRecord(zoneRecords[j])
      invariant forall j | i <= j < |zone| :: zone[j] == zoneRecords[j]
    {
      zone := zone[i := NormalizeRecord(zone[i])];
    }
  }

  method CountApex(resolved: seq<Entry>) returns (n: nat)
    ensures n == ApexCount(resolved)
  {
    n := 0;
    for i := 0 to |resolved|
      invariant n == ApexCount(resolved[..i])
    {
      assert resolved[..i + 1][..i] == resolved[..i];
      if resolved[i].rec.typ == "APEXCNAME" {
        n := n + 1;
      }
    }
    assert resolved[..|resolved|] == resolved;
  }

  method ProcessRecords(o: Opts, resolved: seq<Entry>) returns (res: Outcome)
    ensures res == Result(o, resolved)
  {
    var conflict := CheckInternalConflicts(resolved);
    if conflict.Some? {
      return Rejected;
    }
    var apexCnameCount := CountApex(resolved);
    if apexCnameCount > 1 {
      return Rejected;
    }
    var zone := NormalizeZone(o.zoneRecords);
    var w := Work(zone, [], []);
    var essentialAlwaysCandidates := [];
    if o.multiAware {
      essentialAlwaysCandidates := Select(zone, RestorableTest(o));
      w := CutZone(w, SupersededTest(o));
    }
    var originalZone := set r | r in w.zone :: KeyOf(r);
    w := ApplyEntries(w, resolved, originalZone);
    var anyConflict := FindBlocked(w.toAdd, essentialAlwaysCandidates);
    if !anyConflict {
      w := RestoreAll(w, essentialAlwaysCandidates);
    }
    var toAdd := DeduplicateRecords(w.toAdd);
    var toDelete := DeduplicateRecords(w.toDelete);
    if o.multiAware {
      toAdd := StampRecords(o, resolved, toAdd);
    }
    return Accepted(toAdd, toDelete);
  }

  /** Acceptance does not depend on the order of the template's records. */
  lemma AcceptanceIgnoresOrder(es: seq<Entry>, fs: seq<Entry>)
    requires multiset(es) == multiset(fs)
    ensures Acceptable(es) <==> Acceptable(fs)
  {
    ApexAtMostOnce(es);
    ApexAtMostOnce(fs);
    if Acceptable(es) {
      CompatibleIgnoresOrder(es, fs);
      NoPairIgnoresOrder(es, fs, BothApex());
    }
    if Acceptable(fs) {
      CompatibleIgnoresOrder(fs, es);
      NoPairIgnoresOrder(fs, es, BothApex());
    }
  }

  function BothApex(): (Entry, Entry) -> bool {
    (a: Entry, b: Entry) => a.rec.typ == "APEXCNAME" && b.rec.typ == "APEXCNAME"
  }

  /** Which templates are accepted, type by type: no two records that do not fit at one name, none below a
      delegation, and at most one APEXCNAME. */
  lemma AcceptedIff(es: seq<Entry>)
    ensures Acceptable(es) <==>
      && (forall i, j | 0 <= i < j < |es| && ToLower(es[i].rec.name) == ToLower(es[j].rec.name) ::
            !Unfit(es[i].rec.typ, es[j].rec.typ))
      && (forall a, b | a in es && b in es && a.rec.typ == "NS" && b.rec.typ != "NS" ::
            !IsChildOf(b.rec.name, a.rec.name))
      && (forall i, j | 0 <= i < j < |es| :: es[i].rec.typ != "APEXCNAME" || es[j].rec.typ != "APEXCNAME")
  {
    ApexAtMostOnce(es);
    forall i, j | 0 <= i < j < |es|
      ensures Clash(es[i], es[j]) <==>
        ToLower(es[i].rec.name) == ToLower(es[j].rec.name) && Unfit(es[i].rec.typ, es[j].rec.typ)
    {
      ClashByType(es[i], es[j]);
    }
    if NoPair(es, BothApex()) {
      forall i, j | 0 <= i < j < |es| ensures es[i].rec.typ != "APEXCNAME" || es[j].rec.typ != "APEXCNAME" {
        assert !BothApex()(es[i], es[j]);
      }
    }
  }

  lemma ApexAtMostOnce(es: seq<Entry>)
    ensures ApexCount(es) <= 1 <==> NoPair(es, BothApex())
  {
    ApexCountPairs(es);
    forall i, j | 0 <= i < j < |es| && BothApex()(es[i], es[j]) ensures ApexPair(es, i, j) {
    }
    if exists i, j :: ApexPair(es, i, j) {
      var i, j :| ApexPair(es, i, j);
      assert BothApex()(es[i], es[j]);
    }
  }

  ghost predicate ApexPair(es: seq<Entry>, i: int, j: int) {
    0 <= i < j < |es| && es[i].rec.typ == "APEXCNAME" && es[j].rec.typ == "APEXCNAME"
  }

  lemma {:induction false} ApexCountPairs(es: seq<Entry>)
    ensures ApexCount(es) >= 1 <==> exists i :: 0 <= i < |es| && es[i].rec.typ == "APEXCNAME"
    ensures ApexCount(es) > 1 <==> exists i, j :: ApexPair(es, i, j)
  {
    if es != [] {
      var n := |es| - 1;
      var front := es[..n];
      ApexCountPairs(front);
      if exists i, j :: ApexPair(front, i, j) {
        var i, j :| ApexPair(front, i, j);
        assert ApexPair(es, i, j);
      }
      if ApexCount(front) >= 1 && es[n].rec.typ == "APEXCNAME" {
        var i :| 0 <= i < n && front[i].rec.typ == "APEXCNAME";
        assert ApexPair(es, i, n);
      }
      if exists i, j :: ApexPair(es, i, j) {
        var i, j :| ApexPair(es, i, j);
        assert front[i].rec.typ == "APEXCNAME";
        if j < n {
          assert ApexPair(front, i, j);
        }
      }
      if i :| 0 <= i < |es| && es[i].rec.typ == "APEXCNAME" && i < n {
        assert front[i].rec.typ == "APEXCNAME";
      }
    }
  }

  // ---------------------------------------------------------------- the ledger of a call

  lemma {:induction false} FilterWithin(p: Record -> bool, q: Record -> bool, s: seq<Record>)
    requires forall r :: p(r) ==> q(r)
    ensures Keys(Filter(p, s)) <= Keys(Filter(q, s))
  {
    if s != [] {
      FilterWithin(p, q, s[1..]);
      if q(s[0]) {
        assert Filter(q, s)[1..] == Filter(q, s[1..]);
        if p(s[0]) {
          assert Filter(p, s)[1..] == Filter(p, s[1..]);
        }
      }
    }
  }

  lemma StepKeepsDeletions(w: Work, e: Entry, orig: set<Key>)
    ensures w.toDelete <= Step(w, e, orig).toDelete
  {
  }

  lemma {:induction false} RunKeepsDeletions(w: Work, es: seq<Entry>, orig: set<Key>)
    ensures w.toDelete <= Run(w, es, orig).toDelete
  {
    if es != [] {
      RunKeepsDeletions(w, es[..|es| - 1], orig);
      StepKeepsDeletions(Run(w, es[..|es| - 1], orig), es[|es| - 1], orig);
    }
  }

  lemma RestoreOneMoves(w: Work, ea: Record, rest: multiset<Key>)
    requires multiset{KeyOf(ea)} + rest <= Keys(w.toDelete)
    ensures rest <= Keys(RestoreOne(w, ea).toDelete)
    ensures Keys(RestoreOne(w, ea).toDelete) - rest == Keys(w.toDelete) - (multiset{KeyOf(ea)} + rest)
  {
    KeysOne(ea);
    RemoveKeys(w.toDelete, Keys([ea]));
  }

  lemma {:induction false} RestoreAddsBack(w: Work, cands: seq<Record>)
    ensures Restore(w, cands).zone == w.zone + cands
    ensures Restore(w, cands).toAdd == w.toAdd
    decreases |cands|
  {
    if cands != [] {
      RestoreAddsBack(RestoreOne(w, cands[0]), cands[1..]);
      assert w.zone + cands == (w.zone + [cands[0]]) + cands[1..];
    }
  }

  /** Restoring takes exactly the candidates off the deletions. */
  lemma {:induction false} RestoreUnlogs(w: Work, cands: seq<Record>)
    requires Keys(cands) <= Keys(w.toDelete)
    ensures Keys(Restore(w, cands).toDelete) == Keys(w.toDelete) - Keys(cands)
    decreases |cands|
  {
    if cands != [] {
      RestoreOneMoves(w, cands[0], Keys(cands[1..]));
      RestoreUnlogs(RestoreOne(w, cands[0]), cands[1..]);
    }
  }

  lemma CandidatesAreDeleted(o: Opts, resolved: seq<Entry>)
    ensures var w := Start(o); Keys(Candidates(o)) <= Keys(Run(w, resolved, KeySet(w.zone)).toDelete)
  {
    var w := Start(o);
    RunKeepsDeletions(w, resolved, KeySet(w.zone));
    var done := Run(w, resolved, KeySet(w.zone));
    assert done.toDelete == w.toDelete + done.toDelete[|w.toDelete|..];
    KeysAppend(w.toDelete, done.toDelete[|w.toDelete|..]);
    if o.multiAware {
      FilterWithin(RestorableTest(o), SupersededTest(o), Normalized(o.zoneRecords));
      assert w.toDelete == Filter(SupersededTest(o), Normalized(o.zoneRecords));
    }
  }

  /** Either every essential=Always record of another service is restored or none is. */
  lemma RestorationIsAllOrNothing(o: Opts, resolved: seq<Entry>)
    ensures var w := Start(o);
      var done, final := Run(w, resolved, KeySet(w.zone)), Final(o, resolved);
      if AnyBlocked(done.toAdd, Candidates(o)) then final == done
      else final.zone == done.zone + Candidates(o) && final.toAdd == done.toAdd &&
           Keys(final.toDelete) == Keys(done.toDelete) - Keys(Candidates(o))
  {
    var w := Start(o);
    CandidatesAreDeleted(o, resolved);
    RestoreAddsBack(Run(w, resolved, KeySet(w.zone)), Candidates(o));
    RestoreUnlogs(Run(w, resolved, KeySet(w.zone)), Candidates(o));
  }

  /** Before restoration the ledger balances against the zone that was given. */
  lemma RunLedger(o: Opts, resolved: seq<Entry>)
    ensures var w := Start(o); Balanced(Keys(Normalized(o.zoneRecords)), Run(w, resolved, KeySet(w.zone)))
  {
    var z := Keys(Normalized(o.zoneRecords));
    CutBalanced(z, Work(Normalized(o.zoneRecords), [], []), SupersededTest(o));
    RunBalanced(z, Start(o), resolved, KeySet(Start(o).zone));
  }

  /** The ledger balances for every zone, template and multi-aware setting: what was there plus
      what was logged as added is what is there now plus what was logged as deleted. */
  lemma Ledger(o: Opts, resolved: seq<Entry>)
    ensures Balanced(Keys(Normalized(o.zoneRecords)), Final(o, resolved))
  {
    var z := Keys(Normalized(o.zoneRecords));
    var w := Start(o);
    RunLedger(o, resolved);
    var done, final := Run(w, resolved, KeySet(w.zone)), Final(o, resolved);
    CandidatesAreDeleted(o, resolved);
    RestorationIsAllOrNothing(o, resolved);
    KeysAppend(done.zone, Candidates(o));
    if final != done {
      assert Keys(done.zone) + Keys(Candidates(o)) + (Keys(done.toDelete) - Keys(Candidates(o)))
          == Keys(done.zone) + Keys(done.toDelete);
    }
  }

  /** The logs that are returned hold each identity once, and no others than were logged. */
  lemma ReturnedDeltas(o: Opts, resolved: seq<Entry>, k: Key)
    requires Acceptable(resolved)
    ensures var res, w := Result(o, resolved), Final(o, resolved);
      && Keys(res.toAdd)[k] == (if k in KeySet(w.toAdd) then 1 else 0)
      && Keys(res.toDelete)[k] == (if k in KeySet(w.toDelete) then 1 else 0)
  {
    var w := Final(o, resolved);
    DedupKeys(w.toAdd, k);
    DedupKeys(w.toDelete, k);
    KeysMembers(w.toAdd, k);
    KeysMembers(w.toDelete, k);
    StampKeepsKeys(o, resolved, Dedup(w.toAdd, {}));
  }

  lemma {:induction false} StampKeepsKeys(o: Opts, resolved: seq<Entry>, recs: seq<Record>)
    ensures Keys(StampAll(o, resolved, recs)) == Keys(recs)
  {
    if recs != [] {
      StampKeepsKeys(o, resolved, recs[1..]);
      assert StampAll(o, resolved, recs)[1..] == StampAll(o, resolved, recs[1..]);
    }
  }

  // ---------------------------------------------------------------- owners, spelled out

  /** Which records of the zone a call deletes up front. */
  lemma SupersededIff(o: Opts, r: Record)
    ensures Superseded(o, r) <==>
      r.dc.Some? && r.dc.value.providerId == o.providerId &&
      (o.multiInstance ==> r.dc.value.serviceId == o.serviceId && r.dc.value.id == o.uniqueId)
  {
  }

  /** Which of them it puts back unless something new is in their place. */
  lemma RestorableIff(o: Opts, r: Record)
    ensures Restorable(o, r) <==>
      Superseded(o, r) && !o.multiInstance && r.dc.value.serviceId != o.serviceId && r.dc.value.essential == "Always"
  {
  }

  lemma BlocksIff(added: Record, ea: Record)
    ensures Blocks(added, ea) <==>
      ToUpper(added.typ) == ToUpper(ea.typ) &&
      (ToLower(added.name) == ToLower(ea.name) || (added.name in ["", "@"] && ea.name in ["", "@"]))
  {
    ApexSpellings(added.name, ea.name);
    LowersToApex(added.name);
    LowersToApex(ea.name);
  }

  /** The metadata a call gives a record it adds: its own, with the essential value of the first template record of
      that identity. */
  predicate OwnMeta(o: Opts, es: seq<Entry>, r: Record) {
    r.dc.Some? && r.dc.value.id == o.uniqueId && r.dc.value.providerId == o.providerId &&
    r.dc.value.serviceId == o.serviceId && r.dc.value.host == o.host &&
    forall i | 0 <= i < |es| && KeyOf(es[i].rec) == KeyOf(r) && NoneBefore(es, i, KeyOf(r)) ::
      r.dc.value.essential == if es[i].essential == "" then "Always" else es[i].essential
  }

  predicate NoneBefore(es: seq<Entry>, i: nat, k: Key)
    requires i <= |es|
  {
    forall j | 0 <= j < i :: KeyOf(es[j].rec) != k
  }

  lemma {:induction false} EssentialIsFirst(r: Record, es: seq<Entry>, i: nat)
    requires i < |es| && KeyOf(es[i].rec) == KeyOf(r) && NoneBefore(es, i, KeyOf(r))
    ensures EssentialOf(r, es) == es[i].essential
  {
    if i > 0 {
      assert KeyOf(es[0].rec) != KeyOf(r);
      EssentialIsFirst(r, es[1..], i - 1);
    }
  }

  lemma {:induction false} DedupAmong(recs: seq<Record>, seen: set<Key>, r: Record)
    requires r in Dedup(recs, seen)
    ensures r in recs
  {
    if KeyOf(recs[0]) in seen {
      DedupAmong(recs[1..], seen, r);
    } else if r != recs[0] {
      DedupAmong(recs[1..], seen + {KeyOf(recs[0])}, r);
    }
  }

  /** What is returned as added was added by the loop; a multi-aware call writes its metadata over it, and changes
      nothing else of it. */
  lemma AddedAreStamped(o: Opts, es: seq<Entry>, r: Record)
    requires Acceptable(es) && r in Result(o, es).toAdd
    ensures exists dc :: r.(dc := dc) in Final(o, es).toAdd && (o.multiAware || dc == r.dc)
    ensures o.multiAware ==> OwnMeta(o, es, r)
  {
    var recs := Dedup(Final(o, es).toAdd, {});
    if o.multiAware {
      var i :| 0 <= i < |recs| && StampAll(o, es, recs)[i] == r;
      assert r == Stamp(o, es, recs[i]) && r.(dc := recs[i].dc) == recs[i];
      DedupAmong(Final(o, es).toAdd, {}, recs[i]);
      forall j | 0 <= j < |es| && KeyOf(es[j].rec) == KeyOf(r) && NoneBefore(es, j, KeyOf(r))
        ensures r.dc.value.essential == if es[j].essential == "" then "Always" else es[j].essential
      {
        EssentialIsFirst(recs[i], es, j);
      }
    } else {
      DedupAmong(Final(o, es).toAdd, {}, r);
      assert r.(dc := r.dc) == r;
    }
  }

  /** What a call adds, the next call of the same service replaces; one of another service of the provider does too,
      and restores what was essential. */
  lemma NextCallOwns(o: Opts, es: seq<Entry>, r: Record, next: Opts)
    requires Acceptable(es) && o.multiAware && r in Result(o, es).toAdd
    requires next.providerId == o.providerId
    ensures next.serviceId == o.serviceId && next.uniqueId == o.uniqueId ==> Superseded(next, r) && !Restorable(next, r)
    ensures !next.multiInstance ==> Superseded(next, r)
    ensures !next.multiInstance && next.serviceId != o.serviceId ==>
      (Restorable(next, r) <==> r.dc.value.essential == "Always")
  {
    AddedAreStamped(o, es, r);
  }
}
