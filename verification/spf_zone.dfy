/** The SPF records of one name go through a run of the engine on their own: what becomes of them does not
    depend on any other record of the zone. */
module SpfZone {
  import opened Text
  import opened Records
  import opened RecordLists
  import opened Spfm
  import opened Conflicts
  import opened ZoneApply
  import opened ZoneMeaning

  /** What a run knows of the SPF records at a name. */
  function SpfsOf(name: string, w: Work): Work {
    Work(Spfs(name, w.zone), Spfs(name, w.toAdd), Spfs(name, w.toDelete))
  }

  function SweepTest(e: Entry, orig: set<Key>): Record -> bool {
    r => Sweeps(e, orig, r)
  }

  function Sweep(s: Work, e: Entry, orig: set<Key>): Work {
    var p := SweepTest(e, orig);
    Work(Filter(Not(p), s.zone), s.toAdd, s.toDelete + Filter(p, s.zone))
  }

  /** Merging into a queue: the first record is taken off and its replacement goes to the end. */
  function Merge(s: Work, spfm: Record): Work {
    if s.zone == [] then
      Put(s, SpfTxt(spfm.name, SPF_PREFIX + spfm.content + " ~all", if spfm.ttl == 0 then 6000 else spfm.ttl))
    else if Contains(s.zone[0].content, spfm.content) then s
    else
      var merged := SpfTxt(spfm.name, MergeRules(s.zone[0].content, spfm.content), s.zone[0].ttl);
      Work(s.zone[1..] + [merged], s.toAdd + [merged], s.toDelete + [s.zone[0]])
  }

  predicate Merges(name: string, e: Entry) {
    !e.backing && KindOf(e.rec.typ) == KSPFM && NameEq(e.rec.name, name)
  }

  /** One template record's turn, for the SPF records at a name. */
  function SpfTurn(name: string, s: Work, e: Entry, orig: set<Key>): Work {
    if Merges(name, e) then Merge(s, e.rec)
    else
      var swept := Sweep(s, e, orig);
      if !IsSpf(name, e.rec) then swept
      else if e.backing then Put(swept, e.rec)
      else PutOnce(swept, e.rec)
  }

  function SpfRun(name: string, s: Work, es: seq<Entry>, orig: set<Key>): Work {
    if es == [] then s else SpfTurn(name, SpfRun(name, s, es[..|es| - 1], orig), es[|es| - 1], orig)
  }

  // ---------------------------------------------------------------- filters

  lemma {:induction false} FiltersCommute(p: Record -> bool, q: Record -> bool, s: seq<Record>)
    ensures Filter(p, Filter(q, s)) == Filter(q, Filter(p, s))
  {
    if s != [] {
      FiltersCommute(p, q, s[1..]);
      FilterStep(p, q, s);
      FilterStep(q, p, s);
    }
  }

  lemma FilterStep(p: Record -> bool, q: Record -> bool, s: seq<Record>)
    requires s != []
    ensures Filter(p, Filter(q, s)) ==
            (if p(s[0]) && q(s[0]) then [s[0]] else []) + Filter(p, Filter(q, s[1..]))
  {
    if q(s[0]) {
      assert Filter(q, s)[1..] == Filter(q, s[1..]);
    }
  }

  lemma {:induction false} FilterNone(p: Record -> bool, s: seq<Record>)
    requires forall r | r in s :: !p(r)
    ensures Filter(p, s) == [] && Filter(Not(p), s) == s
  {
    if s != [] {
      FilterNone(p, s[1..]);
    }
  }

  lemma {:induction false} FilterSame(p: Record -> bool, q: Record -> bool, s: seq<Record>)
    requires forall r | r in s :: p(r) == q(r)
    ensures Filter(p, s) == Filter(q, s)
  {
    if s != [] {
      FilterSame(p, q, s[1..]);
    }
  }

  // ---------------------------------------------------------------- sweeping

  ghost predicate RespectsKeys(p: Record -> bool, zone: seq<Record>) {
    forall r, s :: r in zone && s in zone && KeyOf(r) == KeyOf(s) ==> p(r) == p(s)
  }

  /** A cut, seen from the SPF records at a name. */
  lemma CutSpfs(name: string, w: Work, p: Record -> bool)
    requires RespectsKeys(p, w.zone)
    ensures var s := SpfsOf(name, w);
      SpfsOf(name, Cut(w, p)) == Work(Filter(Not(p), s.zone), s.toAdd, s.toDelete + Filter(p, s.zone))
  {
    RemoveSelected(p, w.zone);
    FiltersCommute(SpfTest(name), p, w.zone);
    FiltersCommute(SpfTest(name), Not(p), w.zone);
    FilterAppend(SpfTest(name), w.toDelete, Filter(p, w.zone));
  }

  lemma HitsRespectKeys(e: Entry, orig: set<Key>, zone: seq<Record>)
    requires AllNormal(zone)
    ensures RespectsKeys(HitTest(e, orig), zone)
  {
    forall a, b | a in zone && b in zone && KeyOf(a) == KeyOf(b) ensures Hits(e, orig, a) == Hits(e, orig, b) {
      HitsByKey(e, orig, a, b);
    }
  }

  lemma DelegationsRespectKeys(e: Entry, zone: seq<Record>)
    requires AllNormal(zone)
    ensures RespectsKeys(DelegationTest(e), zone)
  {
    forall a, b | a in zone && b in zone && KeyOf(a) == KeyOf(b) ensures HitsDelegation(e, a) == HitsDelegation(e, b) {
      assert CanonicalName(a.name) == CanonicalName(b.name);
    }
  }

  /** The second sweep of an address record passes over SPF records. */
  lemma DelegationsSpare(name: string, w: Work, e: Entry)
    requires AllNormal(w.zone)
    ensures SpfsOf(name, Cut(w, DelegationTest(e))) == SpfsOf(name, w)
  {
    DelegationsRespectKeys(e, w.zone);
    CutSpfs(name, w, DelegationTest(e));
    forall r | r in Spfs(name, w.zone) ensures !HitsDelegation(e, r) {
      FilterMembers(SpfTest(name), w.zone, r);
    }
    FilterNone(DelegationTest(e), Spfs(name, w.zone));
  }

  /** On SPF records only the first sweep matters. */
  lemma SweepIsCut(name: string, w: Work, e: Entry, orig: set<Key>)
    requires AllNormal(w.zone) && !e.backing
    ensures SpfsOf(name, Cut(w, HitTest(e, orig))) == Sweep(SpfsOf(name, w), e, orig)
  {
    HitsRespectKeys(e, orig, w.zone);
    CutSpfs(name, w, HitTest(e, orig));
    var spfs := Spfs(name, w.zone);
    forall r | r in spfs ensures Sweeps(e, orig, r) == Hits(e, orig, r) {
      FilterMembers(SpfTest(name), w.zone, r);
    }
    FilterSame(SweepTest(e, orig), HitTest(e, orig), spfs);
    FilterSame(Not(SweepTest(e, orig)), Not(HitTest(e, orig)), spfs);
  }

  lemma NoSweep(s: Work, e: Entry, orig: set<Key>)
    requires e.backing || KindOf(e.rec.typ) == KSPFM || KindOf(e.rec.typ) == KCustom
    ensures Sweep(s, e, orig) == s
  {
    FilterNone(SweepTest(e, orig), s.zone);
  }

  // ---------------------------------------------------------------- adding

  lemma PutSpfs(name: string, w: Work, r: Record)
    ensures SpfsOf(name, Put(w, r)) == if IsSpf(name, r) then Put(SpfsOf(name, w), r) else SpfsOf(name, w)
  {
    FilterAppend(SpfTest(name), w.zone, [r]);
    FilterAppend(SpfTest(name), w.toAdd, [r]);
    FilterOne(SpfTest(name), r);
  }

  lemma PresentAmongSpfs(name: string, zone: seq<Record>, r: Record)
    requires IsSpf(name, r)
    ensures Present(r, zone) <==> Present(r, Spfs(name, zone))
  {
    forall s | Same(r, s) ensures s in zone <==> s in Spfs(name, zone) {
      FilterMembers(SpfTest(name), zone, s);
    }
  }

  lemma PutOnceSpfs(name: string, w: Work, r: Record)
    ensures SpfsOf(name, PutOnce(w, r)) == if IsSpf(name, r) then PutOnce(SpfsOf(name, w), r) else SpfsOf(name, w)
  {
    PutSpfs(name, w, r);
    if IsSpf(name, r) {
      PresentAmongSpfs(name, w.zone, r);
    }
  }

  // ---------------------------------------------------------------- merging

  lemma {:induction false} RemovalSpares(p: Record -> bool, zone: seq<Record>, c: multiset<Key>)
    requires forall r | r in zone && p(r) :: KeyOf(r) !in c
    ensures Filter(p, Remove(zone, c)) == Filter(p, zone)
  {
    if zone != [] {
      var k := KeyOf(zone[0]);
      RemovalSpares(p, zone[1..], if k in c then c - multiset{k} else c);
      if k !in c {
        assert Remove(zone, c)[1..] == Remove(zone[1..], c);
      }
    }
  }

  lemma SpfElsewhere(name: string, zone: seq<Record>, r: Record)
    requires AllNormal(zone) && Normal(r) && !IsSpf(name, r)
    ensures Spfs(name, Remove(zone, Keys([r]))) == Spfs(name, zone)
  {
    KeysOne(r);
    forall s | s in zone && IsSpf(name, s) ensures KeyOf(s) !in Keys([r]) {
      if KeyOf(s) == KeyOf(r) {
        SpfByKey(name, s, r);
      }
    }
    RemovalSpares(SpfTest(name), zone, Keys([r]));
  }

  /** Records elsewhere come and go unnoticed. */
  lemma SpliceElsewhere(name: string, w: Work, d: Delta)
    requires Spfs(name, d.add) == [] && Spfs(name, d.del) == []
    requires Spfs(name, Remove(w.zone, Keys(d.del))) == Spfs(name, w.zone)
    ensures SpfsOf(name, Splice(w, d)) == SpfsOf(name, w)
  {
    FilterAppend(SpfTest(name), Remove(w.zone, Keys(d.del)), d.add);
    FilterAppend(SpfTest(name), w.toAdd, d.add);
    FilterAppend(SpfTest(name), w.toDelete, d.del);
  }

  lemma DeltaElsewhere(name: string, zone: seq<Record>, spfm: Record)
    requires !NameEq(spfm.name, name)
    ensures var d := SpfmDelta(zone, spfm);
      Spfs(name, d.add) == [] && (d.del == [] || (d.del[0] in zone && d.del == [d.del[0]] && !IsSpf(name, d.del[0])))
  {
    var d := SpfmDelta(zone, spfm);
    if d.add != [] {
      FilterOne(SpfTest(name), d.add[0]);
    }
    if d.del != [] {
      FilterMembers(SpfTest(spfm.name), zone, d.del[0]);
    }
  }

  lemma MergeElsewhere(name: string, w: Work, spfm: Record)
    requires AllNormal(w.zone) && !NameEq(spfm.name, name)
    ensures SpfsOf(name, Splice(w, SpfmDelta(w.zone, spfm))) == SpfsOf(name, w)
  {
    var d := SpfmDelta(w.zone, spfm);
    DeltaElsewhere(name, w.zone, spfm);
    if d.del == [] {
      RemoveNothing(w.zone);
    } else {
      SpfElsewhere(name, w.zone, d.del[0]);
      FilterOne(SpfTest(name), d.del[0]);
    }
    SpliceElsewhere(name, w, d);
  }

  lemma SpfsAtSame(name: string, other: string, zone: seq<Record>)
    requires NameEq(other, name)
    ensures Spfs(name, zone) == Spfs(other, zone)
  {
    FilterSame(SpfTest(name), SpfTest(other), zone);
  }

  lemma MergeHere(name: string, w: Work, spfm: Record)
    requires AllNormal(w.zone) && NameEq(spfm.name, name)
    ensures SpfsOf(name, Splice(w, SpfmDelta(w.zone, spfm))) == Merge(SpfsOf(name, w), spfm)
  {
    var d := SpfmDelta(w.zone, spfm);
    var after := Splice(w, d);
    SpfsAtSame(name, spfm.name, w.zone);
    SpfsAtSame(name, spfm.name, after.zone);
    SpfsAfter(w.zone, spfm);
    FilterAppend(SpfTest(name), w.toAdd, d.add);
    FilterAppend(SpfTest(name), w.toDelete, d.del);
    LoggedSpfs(name, w.zone, spfm);
  }

  lemma LoggedSpfs(name: string, zone: seq<Record>, spfm: Record)
    requires NameEq(spfm.name, name)
    ensures var d := SpfmDelta(zone, spfm); Spfs(name, d.add) == d.add && Spfs(name, d.del) == d.del
  {
    var spfs := Spfs(spfm.name, zone);
    if spfs != [] {
      FilterMembers(SpfTest(spfm.name), zone, spfs[0]);
      FilterOne(SpfTest(name), spfs[0]);
      FilterOne(SpfTest(name), SpfTxt(spfm.name, MergeRules(spfs[0].content, spfm.content), spfs[0].ttl));
    } else {
      var ttl := if spfm.ttl == 0 then 6000 else spfm.ttl;
      FilterOne(SpfTest(name), SpfTxt(spfm.name, SPF_PREFIX + spfm.content + " ~all", ttl));
    }
  }

  // ---------------------------------------------------------------- the run

  lemma PassiveTurn(name: string, w: Work, e: Entry, orig: set<Key>)
    requires e.backing || KindOf(e.rec.typ) == KCustom
    ensures SpfsOf(name, Step(w, e, orig)) == SpfTurn(name, SpfsOf(name, w), e, orig)
  {
    NoSweep(SpfsOf(name, w), e, orig);
    PutSpfs(name, w, e.rec);
    PutOnceSpfs(name, w, e.rec);
  }

  lemma MergeTurn(name: string, w: Work, e: Entry, orig: set<Key>)
    requires AllNormal(w.zone) && !e.backing && KindOf(e.rec.typ) == KSPFM
    ensures SpfsOf(name, Step(w, e, orig)) == SpfTurn(name, SpfsOf(name, w), e, orig)
  {
    if NameEq(e.rec.name, name) {
      MergeHere(name, w, e.rec);
    } else {
      NoSweep(SpfsOf(name, w), e, orig);
      MergeElsewhere(name, w, e.rec);
    }
  }

  lemma TxtTurn(name: string, w: Work, e: Entry, orig: set<Key>)
    requires AllNormal(w.zone) && !e.backing && KindOf(e.rec.typ) == KTXT
    ensures SpfsOf(name, Step(w, e, orig)) == SpfTurn(name, SpfsOf(name, w), e, orig)
  {
    SweepIsCut(name, w, e, orig);
    PutOnceSpfs(name, Cut(w, HitTest(e, orig)), e.rec);
  }

  lemma AddressTurn(name: string, w: Work, e: Entry, orig: set<Key>)
    requires AllNormal(w.zone) && !e.backing && (KindOf(e.rec.typ) == KA || KindOf(e.rec.typ) == KAAAA)
    ensures SpfsOf(name, Step(w, e, orig)) == SpfTurn(name, SpfsOf(name, w), e, orig)
  {
    var cut := Cut(w, HitTest(e, orig));
    SweepIsCut(name, w, e, orig);
    CutNormal(w, HitTest(e, orig));
    DelegationsSpare(name, cut, e);
    PutSpfs(name, Cut(cut, DelegationTest(e)), e.rec);
  }

  lemma StepPuts(w: Work, e: Entry, orig: set<Key>)
    requires !e.backing && KindOf(e.rec.typ) in {KCNAME, KMX, KNS, KSRV, KREDIR, KAPEXCNAME}
    ensures Step(w, e, orig) == Put(Cut(w, HitTest(e, orig)), e.rec)
    ensures e.rec.typ != "TXT" && KindOf(e.rec.typ) != KSPFM
  {
  }

  lemma SweepingTurn(name: string, w: Work, e: Entry, orig: set<Key>)
    requires AllNormal(w.zone) && !e.backing
    requires KindOf(e.rec.typ) in {KCNAME, KMX, KNS, KSRV, KREDIR, KAPEXCNAME}
    ensures SpfsOf(name, Step(w, e, orig)) == SpfTurn(name, SpfsOf(name, w), e, orig)
  {
    SweepIsCut(name, w, e, orig);
    PutSpfs(name, Cut(w, HitTest(e, orig)), e.rec);
    StepPuts(w, e, orig);
  }

  lemma TurnEvolves(name: string, w: Work, e: Entry, orig: set<Key>)
    requires AllNormal(w.zone)
    ensures SpfsOf(name, Step(w, e, orig)) == SpfTurn(name, SpfsOf(name, w), e, orig)
  {
    if e.backing {
      PassiveTurn(name, w, e, orig);
    } else {
      match KindOf(e.rec.typ)
      case KCustom => PassiveTurn(name, w, e, orig);
      case KSPFM => MergeTurn(name, w, e, orig);
      case KTXT => TxtTurn(name, w, e, orig);
      case KA | KAAAA => AddressTurn(name, w, e, orig);
      case _ => SweepingTurn(name, w, e, orig);
    }
  }

  /** The SPF records of a name evolve on their own: the run, restricted to them, is the run of the queue. */
  lemma {:induction false} SpfsEvolve(name: string, w: Work, es: seq<Entry>, orig: set<Key>)
    requires AllNormal(w.zone) && NormalEntries(es)
    ensures SpfsOf(name, Run(w, es, orig)) == SpfRun(name, SpfsOf(name, w), es, orig)
  {
    if es != [] {
      var front, e := es[..|es| - 1], es[|es| - 1];
      SpfsEvolve(name, w, front, orig);
      RunNormal(w, front, orig);
      TurnEvolves(name, Run(w, front, orig), e, orig);
    }
  }
}
