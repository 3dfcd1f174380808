/** What the deltas of one call mean, independently of the loop that computes them. */
module ZoneMeaning {
  import opened Text
  import opened Records
  import opened RecordLists
  import opened Spfm
  import opened Conflicts
  import opened ZoneApply
  import opened Process

  // ---------------------------------------------------------------- the conflict rules, declaratively

  /** Whether template record `e` displaces an existing record with identity `k`: the rules, type by type. */
  predicate Matches(e: Entry, k: Key) {
    var typ, here := e.rec.typ, NameEq(k.name, e.rec.name);
    !e.backing && (
      || (typ in ["A", "AAAA"] && here && k.typ in ["A", "AAAA", "CNAME", "NS"])
      || (typ == "CNAME" && here && k.typ != "NS")
      || (typ == "TXT" && here && e.mode == "" && k.typ == "CNAME")
      || (typ == "TXT" && here && e.mode == "All" && k.typ == "TXT")
      || (typ == "TXT" && here && e.mode == "Prefix" && k.typ == "TXT" && HasPrefix(k.content, e.prefix))
      || (typ == "MX" && here && k.typ == "MX")
      || (typ == "NS" && (here || (k.typ != "NS" && IsChildOf(k.name, e.rec.name))))
      || (typ == "SRV" && here && k.typ == "SRV")
      || (typ in ["REDIR301", "REDIR302"] && here && k.typ in ["A", "AAAA", "CNAME", "REDIR301", "REDIR302"])
      || (typ == "APEXCNAME" && NameEq(k.name, "@") && k.typ != "NS"))
  }

  ghost predicate Displaced(es: seq<Entry>, k: Key) {
    exists e | e in es :: Matches(e, k)
  }

  predicate NormalEntries(es: seq<Entry>) {
    forall e | e in es :: Normal(e.rec)
  }

  predicate NoSpfm(es: seq<Entry>) {
    forall e | e in es :: e.backing || KindOf(e.rec.typ) != KSPFM
  }

  /** Added whatever is in the zone: backing records and the replacing types. */
  predicate AlwaysAdded(e: Entry) {
    e.backing ||
    match KindOf(e.rec.typ)
      case KSPFM | KTXT | KCustom => false
      case _ => true
  }

  predicate Replacing(es: seq<Entry>) {
    forall e | e in es :: AlwaysAdded(e)
  }

  function EntryKeys(es: seq<Entry>): set<Key> {
    set e | e in es :: KeyOf(e.rec)
  }

  predicate Sweeps(e: Entry, orig: set<Key>, r: Record) {
    var address := KindOf(e.rec.typ) == KA || KindOf(e.rec.typ) == KAAAA;
    !e.backing && (Hits(e, orig, r) || (address && HitsDelegation(e, r)))
  }

  /** NS and SRV records of the template make room for each other: they displace originals only. */
  predicate MakesRoom(e: Entry, k: Key) {
    e.rec.typ == k.typ && k.typ in ["NS", "SRV"]
  }

  lemma AddressByRule(e: Entry, orig: set<Key>, r: Record, k: Key)
    requires !e.backing && e.rec.typ in ["A", "AAAA"]
    requires k.typ == r.typ && NameEq(k.name, e.rec.name) == NameEq(r.name, e.rec.name)
    ensures Sweeps(e, orig, r) <==> Matches(e, k)
    ensures !MakesRoom(e, k)
  {
  }

  lemma DelegationByRule(e: Entry, orig: set<Key>, r: Record, k: Key)
    requires !e.backing && e.rec.typ == "NS" && k == KeyOf(r)
    requires k.typ == r.typ && NameEq(k.name, e.rec.name) == NameEq(r.name, e.rec.name)
    requires IsChildOf(k.name, e.rec.name) == IsChildOf(r.name, e.rec.name)
    ensures Sweeps(e, orig, r) <==> Matches(e, k) && (MakesRoom(e, k) ==> k in orig)
  {
  }

  lemma AliasByRule(e: Entry, orig: set<Key>, r: Record, k: Key)
    requires !e.backing && e.rec.typ in ["CNAME", "APEXCNAME"]
    requires k.typ == r.typ && NameEq(k.name, e.rec.name) == NameEq(r.name, e.rec.name)
    requires NameEq(k.name, "@") == NameEq(r.name, "@")
    ensures Sweeps(e, orig, r) <==> Matches(e, k)
    ensures !MakesRoom(e, k)
  {
  }

  lemma MailByRule(e: Entry, orig: set<Key>, r: Record, k: Key)
    requires !e.backing && e.rec.typ == "MX"
    requires k.typ == r.typ && NameEq(k.name, e.rec.name) == NameEq(r.name, e.rec.name)
    ensures Sweeps(e, orig, r) <==> Matches(e, k)
    ensures !MakesRoom(e, k)
  {
  }

  lemma ServiceByRule(e: Entry, orig: set<Key>, r: Record, k: Key)
    requires !e.backing && e.rec.typ == "SRV" && k == KeyOf(r)
    requires k.typ == r.typ && NameEq(k.name, e.rec.name) == NameEq(r.name, e.rec.name)
    ensures Sweeps(e, orig, r) <==> Matches(e, k) && (MakesRoom(e, k) ==> k in orig)
  {
  }

  lemma TextByRule(e: Entry, orig: set<Key>, r: Record, k: Key)
    requires !e.backing && e.rec.typ == "TXT"
    requires k.typ == r.typ && k.content == r.content && NameEq(k.name, e.rec.name) == NameEq(r.name, e.rec.name)
    ensures Sweeps(e, orig, r) <==> Matches(e, k)
    ensures !MakesRoom(e, k)
  {
  }

  lemma RedirectByRule(e: Entry, orig: set<Key>, r: Record, k: Key)
    requires !e.backing && e.rec.typ in ["REDIR301", "REDIR302"]
    requires k.typ == r.typ && NameEq(k.name, e.rec.name) == NameEq(r.name, e.rec.name)
    ensures Sweeps(e, orig, r) <==> Matches(e, k)
    ensures !MakesRoom(e, k)
  {
  }

  const RULED := ["A", "AAAA", "CNAME", "TXT", "MX", "NS", "SRV", "REDIR301", "REDIR302", "APEXCNAME"]

  lemma NeverByRule(e: Entry, orig: set<Key>, r: Record, k: Key)
    requires e.backing || e.rec.typ !in RULED
    ensures !Sweeps(e, orig, r) && !Matches(e, k)
  {
  }

  /** The loop's tests on records are the rules of the table, on originals and on what the template added. */
  lemma SweepsByRule(e: Entry, orig: set<Key>, r: Record)
    requires Normal(r)
    ensures Sweeps(e, orig, r) <==> Matches(e, KeyOf(r)) && (MakesRoom(e, KeyOf(r)) ==> KeyOf(r) in orig)
  {
    var k := KeyOf(r);
    ToLowerTwice(r.name);
    if e.backing || e.rec.typ !in RULED {
      NeverByRule(e, orig, r, k);
    } else if e.rec.typ in ["A", "AAAA"] {
      AddressByRule(e, orig, r, k);
    } else if e.rec.typ in ["CNAME", "APEXCNAME"] {
      AliasByRule(e, orig, r, k);
    } else if e.rec.typ in ["REDIR301", "REDIR302"] {
      RedirectByRule(e, orig, r, k);
    } else if e.rec.typ == "TXT" {
      TextByRule(e, orig, r, k);
    } else if e.rec.typ == "MX" {
      MailByRule(e, orig, r, k);
    } else if e.rec.typ == "NS" {
      DelegationByRule(e, orig, r, k);
    } else {
      ServiceByRule(e, orig, r, k);
    }
  }

  // ---------------------------------------------------------------- invariants of the run

  lemma SpliceNormal(zone: seq<Record>, spfm: Record)
    requires AllNormal(zone)
    ensures AllNormal(AfterSpfm(zone, spfm))
  {
    var d := SpfmDelta(zone, spfm);
    forall r | r in Remove(zone, Keys(d.del)) ensures Normal(r) {
      RemoveMembers(zone, Keys(d.del), r);
    }
    assert ToUpper("TXT") == "TXT";
    assert forall r | r in d.add :: r.typ == "TXT";
  }

  lemma StepNormal(w: Work, e: Entry, orig: set<Key>)
    requires AllNormal(w.zone) && Normal(e.rec)
    ensures AllNormal(Step(w, e, orig).zone)
  {
    StepHasShape(w, e, orig);
    ShapeNormal(w, e, orig, Step(w, e, orig));
  }

  lemma ShapeNormal(w: Work, e: Entry, orig: set<Key>, next: Work)
    requires AllNormal(w.zone) && Normal(e.rec) && StepShape(w, e, orig, next)
    ensures AllNormal(next.zone)
  {
    SpliceNormal(w.zone, e.rec);
    CutNormal(w, HitTest(e, orig));
    CutNormal(Cut(w, HitTest(e, orig)), DelegationTest(e));
  }

  lemma CutNormal(w: Work, p: Record -> bool)
    requires AllNormal(w.zone)
    ensures AllNormal(Cut(w, p).zone)
  {
    forall r | r in Cut(w, p).zone ensures Normal(r) {
      RemoveMembers(w.zone, Keys(Filter(p, w.zone)), r);
    }
  }

  lemma {:induction false} RunNormal(w: Work, es: seq<Entry>, orig: set<Key>)
    requires AllNormal(w.zone) && NormalEntries(es)
    ensures AllNormal(Run(w, es, orig).zone)
  {
    if es != [] {
      RunNormal(w, es[..|es| - 1], orig);
      StepNormal(Run(w, es[..|es| - 1], orig), es[|es| - 1], orig);
    }
  }

  /** An SPF record at the name of an SPFM entry, which a merge may replace. */
  ghost predicate Mergeable(es: seq<Entry>, r: Record) {
    exists e | e in es :: !e.backing && KindOf(e.rec.typ) == KSPFM && IsSpf(e.rec.name, r)
  }

  lemma MergeDeletesSpf(zone: seq<Record>, spfm: Record, r: Record)
    requires r in SpfmDelta(zone, spfm).del
    ensures IsSpf(spfm.name, r)
  {
    FilterMembers(SpfTest(spfm.name), zone, r);
  }

  /** A step logs as deleted only what a rule displaces or a merge replaces. */
  lemma StepDeletesOnlyDisplaced(w: Work, e: Entry, orig: set<Key>, r: Record)
    requires AllNormal(w.zone)
    requires r in Step(w, e, orig).toDelete && r !in w.toDelete
    ensures Matches(e, KeyOf(r)) || (!e.backing && KindOf(e.rec.typ) == KSPFM && IsSpf(e.rec.name, r))
  {
    if !e.backing && KindOf(e.rec.typ) == KSPFM {
      MergeDeletesSpf(w.zone, e.rec, r);
    } else {
      var cut := Cut(w, HitTest(e, orig));
      FilterMembers(HitTest(e, orig), w.zone, r);
      FilterMembers(DelegationTest(e), cut.zone, r);
      CutNormal(w, HitTest(e, orig));
      SweepsByRule(e, orig, r);
    }
  }

  lemma {:induction false} RunDeletesOnlyDisplaced(w: Work, es: seq<Entry>, orig: set<Key>, r: Record)
    requires AllNormal(w.zone) && NormalEntries(es) && w.toDelete == []
    requires r in Run(w, es, orig).toDelete
    ensures Displaced(es, KeyOf(r)) || Mergeable(es, r)
  {
    if es != [] {
      SnocSplit(es);
      var front, e := es[..|es| - 1], es[|es| - 1];
      var mid := Run(w, front, orig);
      if r in mid.toDelete {
        RunDeletesOnlyDisplaced(w, front, orig, r);
      } else {
        RunNormal(w, front, orig);
        StepDeletesOnlyDisplaced(mid, e, orig, r);
      }
    }
  }

  lemma MatchesIsRuled(e: Entry, k: Key)
    requires Matches(e, k)
    ensures !e.backing && KindOf(e.rec.typ) != KSPFM && KindOf(e.rec.typ) != KCustom
  {
  }

  lemma SweptIsLogged(w: Work, e: Entry, orig: set<Key>, k: Key)
    requires !e.backing && KindOf(e.rec.typ) != KSPFM && KindOf(e.rec.typ) != KCustom
    requires k in KeySet(Filter(HitTest(e, orig), w.zone))
    ensures k in KeySet(Step(w, e, orig).toDelete)
  {
    var d :| d in Filter(HitTest(e, orig), w.zone) && KeyOf(d) == k;
    assert d in Cut(w, HitTest(e, orig)).toDelete;
    StepExtendsCut(w, e, orig);
  }

  /** A sweep that selects some copy of an identity, but none with the first test, selects it with the second. */
  lemma SecondSweepLogs(w: Work, e: Entry, orig: set<Key>, k: Key, s: Record)
    requires AllNormal(w.zone) && s in Cut(w, HitTest(e, orig)).zone && KeyOf(s) == k && HitsDelegation(e, s)
    requires !e.backing && (KindOf(e.rec.typ) == KA || KindOf(e.rec.typ) == KAAAA)
    ensures k in KeySet(Step(w, e, orig).toDelete)
  {
    var cut := Cut(w, HitTest(e, orig));
    FilterMembers(DelegationTest(e), cut.zone, s);
    assert s in Cut(cut, DelegationTest(e)).toDelete;
  }

  lemma SweptAlike(e: Entry, orig: set<Key>, r: Record, s: Record)
    requires Normal(r) && Normal(s) && KeyOf(r) == KeyOf(s) && Sweeps(e, orig, r)
    ensures Sweeps(e, orig, s)
  {
    SweepsByRule(e, orig, r);
    SweepsByRule(e, orig, s);
  }

  /** What a rule displaces and the zone holds is gone, into the log, after the step. */
  lemma StepDeletesDisplaced(w: Work, e: Entry, orig: set<Key>, k: Key)
    requires AllNormal(w.zone)
    requires k in KeySet(w.zone) && k in orig && Matches(e, k)
    ensures k in KeySet(Step(w, e, orig).toDelete)
  {
    var p := HitTest(e, orig);
    MatchesIsRuled(e, k);
    if k in KeySet(Filter(p, w.zone)) {
      SweptIsLogged(w, e, orig, k);
    } else {
      var r :| r in w.zone && KeyOf(r) == k;
      SweepsByRule(e, orig, r);
      SurvivesCut(w, p, k);
      CutNormal(w, p);
      var s :| s in Cut(w, p).zone && KeyOf(s) == k;
      SweptAlike(e, orig, r, s);
      CutWithin(w, p, s);
      FilterMembers(p, w.zone, s);
      SecondSweepLogs(w, e, orig, k, s);
    }
  }

  lemma StepExtendsCut(w: Work, e: Entry, orig: set<Key>)
    requires !e.backing && KindOf(e.rec.typ) != KSPFM && KindOf(e.rec.typ) != KCustom
    ensures Cut(w, HitTest(e, orig)).toDelete <= Step(w, e, orig).toDelete
  {
  }

  /** An identity of which the sweep selects no copy stays in the zone. */
  lemma SurvivesCut(w: Work, p: Record -> bool, k: Key)
    requires k in KeySet(w.zone) && k !in KeySet(Filter(p, w.zone))
    ensures k in KeySet(Cut(w, p).zone)
  {
    var dels := Filter(p, w.zone);
    KeysMembers(w.zone, k);
    KeysMembers(dels, k);
    RemoveKeys(w.zone, Keys(dels));
    KeysMembers(Cut(w, p).zone, k);
  }

  lemma SnocSplit(es: seq<Entry>)
    requires es != []
    ensures es == es[..|es| - 1] + [es[|es| - 1]]
    ensures forall e :: e in es <==> e in es[..|es| - 1] || e == es[|es| - 1]
  {
  }

  /** Every original identity that some template record displaces ends up in the log, in
      whatever order the records come: by the ledger it was still there when its turn came. */
  lemma {:induction false} RunDeletesDisplaced(w: Work, es: seq<Entry>, orig: set<Key>, k: Key)
    requires AllNormal(w.zone) && NormalEntries(es) && w.toAdd == []
    requires k in KeySet(w.zone) && k in orig && Displaced(es, k)
    ensures k in KeySet(Run(w, es, orig).toDelete)
  {
    SnocSplit(es);
    var front, e := es[..|es| - 1], es[|es| - 1];
    var mid := Run(w, front, orig);
    StepKeepsDeletions(mid, e, orig);
    if k in KeySet(mid.toDelete) {
      var r :| r in mid.toDelete && KeyOf(r) == k;
      assert r in Step(mid, e, orig).toDelete;
    } else if Displaced(front, k) {
      RunDeletesDisplaced(w, front, orig, k);
    } else {
      RunNormal(w, front, orig);
      StillThere(w, front, orig, k);
      StepDeletesDisplaced(mid, e, orig, k);
    }
  }

  lemma BalancedKeeps(z: multiset<Key>, done: Work, k: Key)
    requires Balanced(z, done) && k in z && k !in Keys(done.toDelete)
    ensures k in Keys(done.zone)
  {
    assert (z + Keys(done.toAdd))[k] == (Keys(done.zone) + Keys(done.toDelete))[k];
  }

  lemma StillThere(w: Work, es: seq<Entry>, orig: set<Key>, k: Key)
    requires w.toAdd == []
    requires k in KeySet(w.zone) && k !in KeySet(Run(w, es, orig).toDelete)
    ensures k in KeySet(Run(w, es, orig).zone)
  {
    var done := Run(w, es, orig);
    var z := Keys(w.zone) + Keys(w.toDelete);
    assert Balanced(z, w);
    RunBalanced(z, w, es, orig);
    KeysMembers(w.zone, k);
    KeysMembers(done.toDelete, k);
    BalancedKeeps(z, done, k);
    KeysMembers(done.zone, k);
  }

  /** Where an added record comes from: a template record, or an SPF record written for one. */
  predicate AddedFor(e: Entry, r: Record) {
    r == e.rec || (!e.backing && KindOf(e.rec.typ) == KSPFM && r.typ == "TXT" && r.name == e.rec.name)
  }

  ghost predicate Stems(es: seq<Entry>, r: Record) {
    exists e | e in es :: AddedFor(e, r)
  }

  lemma SpfmAdds(w: Work, e: Entry)
    requires !e.backing && KindOf(e.rec.typ) == KSPFM
    ensures forall r | r in Splice(w, SpfmDelta(w.zone, e.rec)).toAdd :: r in w.toAdd || AddedFor(e, r)
  {
    var d := SpfmDelta(w.zone, e.rec);
    assert forall r | r in d.add :: r.typ == "TXT" && r.name == e.rec.name;
  }

  lemma StepLogs(w: Work, e: Entry, orig: set<Key>)
    ensures var after := Step(w, e, orig).toAdd;
      || (after == w.toAdd && !AlwaysAdded(e))
      || after == w.toAdd + [e.rec]
      || (!e.backing && KindOf(e.rec.typ) == KSPFM && after == w.toAdd + SpfmDelta(w.zone, e.rec).add)
  {
  }

  lemma StepAdds(w: Work, e: Entry, orig: set<Key>)
    ensures forall r | r in w.toAdd :: r in Step(w, e, orig).toAdd
    ensures forall r | r in Step(w, e, orig).toAdd :: r in w.toAdd || AddedFor(e, r)
    ensures AlwaysAdded(e) ==> e.rec in Step(w, e, orig).toAdd
  {
    StepLogs(w, e, orig);
    if !e.backing && KindOf(e.rec.typ) == KSPFM {
      SpfmAdds(w, e);
    }
  }

  lemma {:induction false} RunAdds(w: Work, es: seq<Entry>, orig: set<Key>)
    requires w.toAdd == []
    ensures forall r | r in Run(w, es, orig).toAdd :: Stems(es, r)
    ensures forall e | e in es && AlwaysAdded(e) :: e.rec in Run(w, es, orig).toAdd
  {
    if es != [] {
      SnocSplit(es);
      RunAdds(w, es[..|es| - 1], orig);
      StepAdds(Run(w, es[..|es| - 1], orig), es[|es| - 1], orig);
    }
  }

  lemma CutWithin(w: Work, p: Record -> bool, r: Record)
    requires r in Cut(w, p).zone
    ensures r in w.zone
  {
    RemoveMembers(w.zone, Keys(Filter(p, w.zone)), r);
  }

  lemma MergeWithin(w: Work, spfm: Record, r: Record)
    requires r in Splice(w, SpfmDelta(w.zone, spfm)).zone
    ensures r in w.zone || (r.typ == "TXT" && r.name == spfm.name)
  {
    var d := SpfmDelta(w.zone, spfm);
    if r in Remove(w.zone, Keys(d.del)) {
      RemoveMembers(w.zone, Keys(d.del), r);
    }
  }

  /** A step puts nothing into the zone but what it adds for its entry. */
  lemma StepZoneWithin(w: Work, e: Entry, orig: set<Key>, r: Record)
    requires r in Step(w, e, orig).zone
    ensures r in w.zone || AddedFor(e, r)
  {
    if !e.backing && KindOf(e.rec.typ) == KSPFM {
      MergeWithin(w, e.rec, r);
    } else if r != e.rec {
      var cut := Cut(w, HitTest(e, orig));
      if r in Cut(cut, DelegationTest(e)).zone {
        CutWithin(cut, DelegationTest(e), r);
      }
      if r in cut.zone {
        CutWithin(w, HitTest(e, orig), r);
      }
    }
  }

  // ---------------------------------------------------------------- records added at most once

  /** Identity `k` would stop TXT or custom record `e` from being added. */
  predicate Duplicates(e: Entry, k: Key) {
    k.typ == e.rec.typ && NameEq(k.name, e.rec.name) && k.content == e.rec.content
  }

  /** The template's record is added, or is there already and stays: no record of the zone or the
      template stops it but one with its identity, and if the zone has that identity and the record does
      not displace it itself, no other template record does. */
  ghost predicate SteadyEntry(es: seq<Entry>, zone: set<Key>, e: Entry) {
    AlwaysAdded(e) ||
    (KindOf(e.rec.typ) != KSPFM &&
     (KeyOf(e.rec) in zone && !Matches(e, KeyOf(e.rec)) ==> !Displaced(es, KeyOf(e.rec))) &&
     (forall k | k in zone + EntryKeys(es) && Duplicates(e, k) :: k == KeyOf(e.rec)))
  }

  ghost predicate Steady(es: seq<Entry>, zone: set<Key>) {
    forall e | e in es :: SteadyEntry(es, zone, e)
  }

  lemma RunZoneWithin(w: Work, es: seq<Entry>, orig: set<Key>, r: Record)
    requires w.toAdd == [] && w.toDelete == [] && r in Run(w, es, orig).zone
    ensures KeyOf(r) in KeySet(w.zone) || KeyOf(r) in KeySet(Run(w, es, orig).toAdd)
  {
    var done, k := Run(w, es, orig), KeyOf(r);
    assert Balanced(Keys(w.zone), w);
    RunBalanced(Keys(w.zone), w, es, orig);
    KeysMembers(done.zone, k);
    KeysMembers(w.zone, k);
    KeysMembers(done.toAdd, k);
    assert (Keys(w.zone) + Keys(done.toAdd))[k] == (Keys(done.zone) + Keys(done.toDelete))[k];
  }

  lemma AddedKeys(w: Work, es: seq<Entry>, orig: set<Key>, k: Key)
    requires w.toAdd == [] && NoSpfm(es) && k in KeySet(Run(w, es, orig).toAdd)
    ensures k in EntryKeys(es)
  {
    RunAdds(w, es, orig);
    var r :| r in Run(w, es, orig).toAdd && KeyOf(r) == k;
    assert Stems(es, r);
  }

  /** After a cut nothing is left that the test selects. */
  lemma CutLeavesNone(w: Work, e: Entry, orig: set<Key>, r: Record)
    requires AllNormal(w.zone) && r in Cut(w, HitTest(e, orig)).zone
    ensures r in w.zone && !Hits(e, orig, r)
  {
    var p := HitTest(e, orig);
    forall a, b | a in w.zone && b in w.zone && KeyOf(a) == KeyOf(b) ensures p(a) == p(b) {
      HitsByKey(e, orig, a, b);
    }
    RemoveSelected(p, w.zone);
    FilterMembers(Not(p), w.zone, r);
  }

  lemma HitsByKey(e: Entry, orig: set<Key>, a: Record, b: Record)
    requires Normal(a) && Normal(b) && KeyOf(a) == KeyOf(b)
    ensures Hits(e, orig, a) == Hits(e, orig, b)
  {
    assert CanonicalName(a.name) == CanonicalName(b.name);
    assert IsChildOf(a.name, e.rec.name) == IsChildOf(b.name, e.rec.name);
  }

  /** When `e` has its turn it is added, or its identity is an original that stays. */
  lemma TurnOfEntry(w: Work, front: seq<Entry>, e: Entry, orig: set<Key>)
    requires AllNormal(w.zone) && NormalEntries(front + [e]) && NoSpfm(front + [e])
    requires w.toAdd == [] && w.toDelete == [] && orig == KeySet(w.zone)
    requires !AlwaysAdded(e)
    requires forall k | k in orig + EntryKeys(front) && Duplicates(e, k) :: k == KeyOf(e.rec)
    ensures var k := KeyOf(e.rec);
      k in KeySet(Step(Run(w, front, orig), e, orig).toAdd) || (k in orig && !Matches(e, k))
  {
    var mid := Run(w, front, orig);
    RunNormal(w, front, orig);
    var cut := if KindOf(e.rec.typ) == KTXT then Cut(mid, HitTest(e, orig)) else mid;
    assert Step(mid, e, orig) == PutOnce(cut, e.rec);
    if Present(e.rec, cut.zone) {
      var r :| r in cut.zone && Same(e.rec, r);
      if KindOf(e.rec.typ) == KTXT {
        CutLeavesNone(mid, e, orig, r);
      }
      ToLowerTwice(r.name);
      assert Duplicates(e, KeyOf(r));
      RunZoneWithin(w, front, orig, r);
      if KeyOf(r) in KeySet(mid.toAdd) {
        AddedKeys(w, front, orig, KeyOf(r));
        StepAdds(mid, e, orig);
      } else {
        SweepsByRule(e, orig, r);
      }
    } else {
      assert e.rec in PutOnce(cut, e.rec).toAdd;
    }
  }

  lemma {:induction false} RunHoldsEntry(w: Work, es: seq<Entry>, all: seq<Entry>, orig: set<Key>, e: Entry)
    requires AllNormal(w.zone) && NormalEntries(es) && NoSpfm(es)
    requires w.toAdd == [] && w.toDelete == [] && orig == KeySet(w.zone)
    requires e in es && (forall f | f in es :: f in all)
    requires SteadyEntry(all, orig, e) && !AlwaysAdded(e)
    ensures var k := KeyOf(e.rec);
      k in KeySet(Run(w, es, orig).toAdd) || (k in orig && !Displaced(all, k))
  {
    SnocSplit(es);
    var front, x, k := es[..|es| - 1], es[|es| - 1], KeyOf(e.rec);
    assert EntryKeys(front) <= EntryKeys(all);
    if x == e {
      TurnOfEntry(w, front, e, orig);
    } else {
      RunHoldsEntry(w, front, all, orig, e);
      StepAdds(Run(w, front, orig), x, orig);
    }
  }

  // ---------------------------------------------------------------- something is always put

  /** An identity that an entry puts at its name: its own, or that of a record that takes its place. */
  predicate PutKey(e: Entry, k: Key) {
    NameEq(k.name, e.rec.name) &&
    (k == KeyOf(e.rec) || (!AlwaysAdded(e) && (k.typ == e.rec.typ || k.typ == "TXT")))
  }

  lemma AlikeIsPut(w: Work, front: seq<Entry>, e: Entry, orig: set<Key>, r: Record)
    requires AllNormal(w.zone) && NormalEntries(front) && w.toAdd == [] && w.toDelete == []
    requires forall k | k in KeySet(w.zone) :: KindOf(k.typ) == KCNAME
    requires r in Run(w, front, orig).zone && KindOf(r.typ) != KCNAME
    requires !AlwaysAdded(e) && NameEq(r.name, e.rec.name) && (r.typ == e.rec.typ || r.typ == "TXT")
    ensures KeyOf(r) in KeySet(Run(w, front, orig).toAdd) && PutKey(e, KeyOf(r))
  {
    RunNormal(w, front, orig);
    RunZoneWithin(w, front, orig, r);
    ToLowerTwice(r.name);
  }

  /** Over a zone of aliases only, each entry leaves something at its name on the log. */
  lemma TurnPuts(w: Work, front: seq<Entry>, e: Entry, orig: set<Key>) returns (k: Key)
    requires AllNormal(w.zone) && NormalEntries(front) && Normal(e.rec) && w.toAdd == [] && w.toDelete == []
    requires forall k | k in KeySet(w.zone) :: KindOf(k.typ) == KCNAME
    ensures k in KeySet(Step(Run(w, front, orig), e, orig).toAdd) && PutKey(e, k)
  {
    var mid := Run(w, front, orig);
    StepAdds(mid, e, orig);
    ToLowerTwice(e.rec.name);
    k := KeyOf(e.rec);
    if !AlwaysAdded(e) {
      if KindOf(e.rec.typ) == KSPFM {
        k := MergePuts(w, front, e, orig);
      } else {
        var cut := if KindOf(e.rec.typ) == KTXT then Cut(mid, HitTest(e, orig)) else mid;
        assert Step(mid, e, orig) == PutOnce(cut, e.rec);
        if Present(e.rec, cut.zone) {
          var r :| r in cut.zone && Same(e.rec, r);
          if KindOf(e.rec.typ) == KTXT {
            CutWithin(mid, HitTest(e, orig), r);
          }
          AlikeIsPut(w, front, e, orig, r);
          k := KeyOf(r);
        }
      }
    }
  }

  lemma MergePuts(w: Work, front: seq<Entry>, e: Entry, orig: set<Key>) returns (k: Key)
    requires AllNormal(w.zone) && NormalEntries(front) && w.toAdd == [] && w.toDelete == []
    requires forall k | k in KeySet(w.zone) :: KindOf(k.typ) == KCNAME
    requires !e.backing && KindOf(e.rec.typ) == KSPFM
    ensures k in KeySet(Step(Run(w, front, orig), e, orig).toAdd) && PutKey(e, k)
  {
    var mid := Run(w, front, orig);
    var d := SpfmDelta(mid.zone, e.rec);
    if d.add != [] {
      var r := d.add[0];
      ToLowerTwice(r.name);
      assert ToUpper("TXT") == "TXT" && r in Step(mid, e, orig).toAdd;
      k := KeyOf(r);
    } else {
      var r := Spfs(e.rec.name, mid.zone)[0];
      FilterMembers(SpfTest(e.rec.name), mid.zone, r);
      AlikeIsPut(w, front, e, orig, r);
      k := KeyOf(r);
    }
  }

  lemma {:induction false} RunPuts(w: Work, es: seq<Entry>, orig: set<Key>, e: Entry) returns (k: Key)
    requires AllNormal(w.zone) && NormalEntries(es) && w.toAdd == [] && w.toDelete == [] && e in es
    requires forall k | k in KeySet(w.zone) :: KindOf(k.typ) == KCNAME
    ensures k in KeySet(Run(w, es, orig).toAdd) && PutKey(e, k)
  {
    SnocSplit(es);
    var front, x := es[..|es| - 1], es[|es| - 1];
    if x == e {
      k := TurnPuts(w, front, e, orig);
    } else {
      k := RunPuts(w, front, orig, e);
      StepAdds(Run(w, front, orig), x, orig);
    }
  }
}
