/** One template record's turn, told from the rules alone: what stays in the zone, in which order, what is logged. */
module ZoneTurns {
  import opened Text
  import opened Records
  import opened RecordLists
  import opened Spfm
  import opened Conflicts
  import opened ZoneApply
  import opened ZoneMeaning
  import opened SpfZone

  /** The rules select the record; what the template itself added makes room for its NS and SRV records. */
  predicate Selected(e: Entry, orig: set<Key>, r: Record) {
    Matches(e, KeyOf(r)) && (MakesRoom(e, KeyOf(r)) ==> KeyOf(r) in orig)
  }

  function SelectedTest(e: Entry, orig: set<Key>): Record -> bool {
    r => Selected(e, orig, r)
  }

  /** Types whose record is skipped when the zone has one with its type, name and content. */
  predicate AddedOnce(e: Entry) {
    !e.backing && e.rec.typ !in
      ["A", "AAAA", "CNAME", "MX", "NS", "SRV", "REDIR301", "REDIR302", "APEXCNAME", "SPFM"]
  }

  ghost predicate Alike(zone: seq<Record>, r: Record) {
    exists s | s in zone :: s.typ == r.typ && s.content == r.content && NameEq(s.name, r.name)
  }

  lemma SelectedIsSwept(e: Entry, orig: set<Key>, zone: seq<Record>)
    requires AllNormal(zone)
    ensures Filter(Not(SelectedTest(e, orig)), zone) == Filter(Not(SweepTest(e, orig)), zone)
    ensures forall r | r in zone :: Selected(e, orig, r) == Sweeps(e, orig, r)
  {
    forall r | r in zone ensures Selected(e, orig, r) == Sweeps(e, orig, r) {
      SweepsByRule(e, orig, r);
    }
    FilterSame(Not(SelectedTest(e, orig)), Not(SweepTest(e, orig)), zone);
  }

  lemma {:induction false} FilterTwice(p: Record -> bool, q: Record -> bool, both: Record -> bool, s: seq<Record>)
    requires forall r | r in s :: both(r) == (p(r) || q(r))
    ensures Filter(Not(q), Filter(Not(p), s)) == Filter(Not(both), s)
  {
    if s != [] {
      FilterTwice(p, q, both, s[1..]);
      FilterStep(Not(q), Not(p), s);
    }
  }

  /** What a turn with one sweep leaves. */
  lemma OneSweep(w: Work, e: Entry, orig: set<Key>)
    requires AllNormal(w.zone) && (forall r | r in w.zone :: Sweeps(e, orig, r) == Hits(e, orig, r))
    ensures var cut := Cut(w, HitTest(e, orig));
      && cut.zone == Filter(Not(SweepTest(e, orig)), w.zone)
      && (forall r :: r in cut.toDelete <==> r in w.toDelete || (r in w.zone && Sweeps(e, orig, r)))
  {
    HitsRespectKeys(e, orig, w.zone);
    RemoveSelected(HitTest(e, orig), w.zone);
    FilterSame(Not(SweepTest(e, orig)), Not(HitTest(e, orig)), w.zone);
    forall r ensures r in Filter(HitTest(e, orig), w.zone) <==> r in w.zone && Hits(e, orig, r) {
      FilterMembers(HitTest(e, orig), w.zone, r);
    }
  }

  /** What the two sweeps of an address record leave. */
  lemma TwoSweeps(w: Work, e: Entry, orig: set<Key>)
    requires AllNormal(w.zone) && !e.backing && (KindOf(e.rec.typ) == KA || KindOf(e.rec.typ) == KAAAA)
    ensures var cut := Cut(Cut(w, HitTest(e, orig)), DelegationTest(e));
      && cut.zone == Filter(Not(SweepTest(e, orig)), w.zone)
      && (forall r :: r in cut.toDelete <==> r in w.toDelete || (r in w.zone && Sweeps(e, orig, r)))
  {
    var p, q := HitTest(e, orig), DelegationTest(e);
    var first := Cut(w, p);
    HitsRespectKeys(e, orig, w.zone);
    RemoveSelected(p, w.zone);
    CutNormal(w, p);
    DelegationsRespectKeys(e, first.zone);
    RemoveSelected(q, first.zone);
    FilterTwice(p, q, SweepTest(e, orig), w.zone);
    forall r
      ensures r in Cut(first, q).toDelete <==>
        r in w.toDelete || (r in w.zone && (Hits(e, orig, r) || HitsDelegation(e, r)))
    {
      FilterMembers(p, w.zone, r);
      FilterMembers(Not(p), w.zone, r);
      FilterMembers(q, first.zone, r);
    }
  }

  /** The records that a turn adds, SPFM records apart. */
  ghost function AddedBy(e: Entry, orig: set<Key>, zone: seq<Record>): seq<Record> {
    if AddedOnce(e) && Alike(Filter(Not(SelectedTest(e, orig)), zone), e.rec) then [] else [e.rec]
  }

  /** A turn drops what the rules select, keeps the rest in order, puts the record last unless it is skipped, and
      logs both. */
  ghost predicate TurnDone(w: Work, e: Entry, orig: set<Key>, t: Work) {
    var added := AddedBy(e, orig, w.zone);
    && t.zone == Filter(Not(SelectedTest(e, orig)), w.zone) + added
    && t.toAdd == w.toAdd + added
    && forall r :: r in t.toDelete <==> r in w.toDelete || (r in w.zone && Selected(e, orig, r))
  }

  lemma BackingTurn(w: Work, e: Entry, orig: set<Key>)
    requires e.backing
    ensures TurnDone(w, e, orig, Step(w, e, orig))
  {
    FilterNone(SelectedTest(e, orig), w.zone);
  }

  lemma CustomTurn(w: Work, e: Entry, orig: set<Key>)
    requires !e.backing && KindOf(e.rec.typ) == KCustom
    ensures TurnDone(w, e, orig, Step(w, e, orig))
  {
    FilterNone(SelectedTest(e, orig), w.zone);
  }

  /** What the sweeps of a turn leave. */
  ghost predicate SweptTo(w: Work, e: Entry, orig: set<Key>, cut: Work) {
    && cut.zone == Filter(Not(SweepTest(e, orig)), w.zone)
    && cut.toAdd == w.toAdd
    && forall r :: r in cut.toDelete <==> r in w.toDelete || (r in w.zone && Sweeps(e, orig, r))
  }

  lemma PutDone(w: Work, e: Entry, orig: set<Key>, cut: Work)
    requires AllNormal(w.zone) && SweptTo(w, e, orig, cut) && !AddedOnce(e)
    ensures TurnDone(w, e, orig, Put(cut, e.rec))
  {
    SelectedIsSwept(e, orig, w.zone);
  }

  lemma PutOnceDone(w: Work, e: Entry, orig: set<Key>, cut: Work)
    requires AllNormal(w.zone) && SweptTo(w, e, orig, cut) && AddedOnce(e)
    ensures TurnDone(w, e, orig, PutOnce(cut, e.rec))
  {
    SelectedIsSwept(e, orig, w.zone);
    assert Present(e.rec, cut.zone) <==> Alike(cut.zone, e.rec);
  }

  lemma TxtSteps(w: Work, e: Entry, orig: set<Key>)
    requires !e.backing && KindOf(e.rec.typ) == KTXT
    ensures Step(w, e, orig) == PutOnce(Cut(w, HitTest(e, orig)), e.rec) && AddedOnce(e)
  {
  }

  lemma AddressSteps(w: Work, e: Entry, orig: set<Key>)
    requires !e.backing && (KindOf(e.rec.typ) == KA || KindOf(e.rec.typ) == KAAAA)
    ensures Step(w, e, orig) == Put(Cut(Cut(w, HitTest(e, orig)), DelegationTest(e)), e.rec) && !AddedOnce(e)
  {
  }

  lemma ReplacingOnce(e: Entry)
    requires KindOf(e.rec.typ) in {KCNAME, KMX, KNS, KSRV, KREDIR, KAPEXCNAME}
    ensures !AddedOnce(e)
  {
  }

  lemma TxtDone(w: Work, e: Entry, orig: set<Key>)
    requires AllNormal(w.zone) && !e.backing && KindOf(e.rec.typ) == KTXT
    ensures TurnDone(w, e, orig, Step(w, e, orig))
  {
    TxtSteps(w, e, orig);
    OneSweep(w, e, orig);
    PutOnceDone(w, e, orig, Cut(w, HitTest(e, orig)));
  }

  lemma AddressDone(w: Work, e: Entry, orig: set<Key>)
    requires AllNormal(w.zone) && !e.backing && (KindOf(e.rec.typ) == KA || KindOf(e.rec.typ) == KAAAA)
    ensures TurnDone(w, e, orig, Step(w, e, orig))
  {
    AddressSteps(w, e, orig);
    TwoSweeps(w, e, orig);
    PutDone(w, e, orig, Cut(Cut(w, HitTest(e, orig)), DelegationTest(e)));
  }

  lemma ReplacingDone(w: Work, e: Entry, orig: set<Key>)
    requires AllNormal(w.zone) && !e.backing
    requires KindOf(e.rec.typ) in {KCNAME, KMX, KNS, KSRV, KREDIR, KAPEXCNAME}
    ensures TurnDone(w, e, orig, Step(w, e, orig))
  {
    ReplacingOnce(e);
    StepPuts(w, e, orig);
    OneSweep(w, e, orig);
    PutDone(w, e, orig, Cut(w, HitTest(e, orig)));
  }

  /** Every turn but a merge does what the rules say. */
  lemma TurnByRules(w: Work, e: Entry, orig: set<Key>)
    requires AllNormal(w.zone) && (e.backing || e.rec.typ != "SPFM")
    ensures TurnDone(w, e, orig, Step(w, e, orig))
  {
    if e.backing {
      BackingTurn(w, e, orig);
    } else {
      match KindOf(e.rec.typ)
      case KCustom => CustomTurn(w, e, orig);
      case KTXT => TxtDone(w, e, orig);
      case KA | KAAAA => AddressDone(w, e, orig);
      case KSPFM => assert false;
      case _ => ReplacingDone(w, e, orig);
    }
  }
}
