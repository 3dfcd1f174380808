/** The zone-apply engine: what the loop over the resolved template records does. */
module ZoneApply {
  import opened Text
  import opened Records
  import opened RecordLists
  import opened Spfm
  import opened Conflicts

  /** The engine's state: the working zone and the two logs. */
  datatype Work = Work(zone: seq<Record>, toAdd: seq<Record>, toDelete: seq<Record>)

  // ---------------------------------------------------------------- one template record

  predicate IsAddressOrAlias(k: Kind) {
    k == KA || k == KAAAA || k == KCNAME
  }

  /** Whether the rules for `e` select the zone record `r`; `orig` holds the identities
      that were in the zone before this template. */
  predicate Hits(e: Entry, orig: set<Key>, r: Record) {
    var here := NameEq(r.name, e.rec.name);
    var k := KindOf(r.typ);
    match KindOf(e.rec.typ)
    case KCNAME => here && k != KNS
    case KA | KAAAA => here && IsAddressOrAlias(k)
    case KTXT =>
      if e.mode == "" then here && k == KCNAME
      else if e.mode == "All" then here && k == KTXT
      else if e.mode == "Prefix" then here && k == KTXT && HasPrefix(r.content, e.prefix)
      else false
    case KMX => here && k == KMX
    case KNS =>
      if k == KNS then here && KeyOf(r) in orig
      else here || IsChildOf(r.name, e.rec.name)
    case KSRV => here && k == KSRV && KeyOf(r) in orig
    case KREDIR => here && (IsAddressOrAlias(k) || k == KREDIR)
    case KAPEXCNAME => NameEq(r.name, "@") && k != KNS
    case KSPFM | KCustom => false
  }

  function HitTest(e: Entry, orig: set<Key>): Record -> bool {
    r => Hits(e, orig, r)
  }

  /** The second sweep of an address record: delegations at its name. */
  predicate HitsDelegation(e: Entry, r: Record) {
    NameEq(r.name, e.rec.name) && KindOf(r.typ) == KNS
  }

  function DelegationTest(e: Entry): Record -> bool {
    r => HitsDelegation(e, r)
  }

  function Cut(w: Work, p: Record -> bool): Work {
    var dels := Filter(p, w.zone);
    Work(Remove(w.zone, Keys(dels)), w.toAdd, w.toDelete + dels)
  }

  function Put(w: Work, r: Record): Work {
    Work(w.zone + [r], w.toAdd + [r], w.toDelete)
  }

  /** TXT and custom records are not added again when type, name and content are there already. */
  predicate Same(rec: Record, r: Record) {
    r.typ == rec.typ && NameEq(r.name, rec.name) && r.content == rec.content
  }

  predicate Present(rec: Record, zone: seq<Record>) {
    exists r | r in zone :: Same(rec, r)
  }

  function PutOnce(w: Work, r: Record): Work {
    if Present(r, w.zone) then w else Put(w, r)
  }

  function Splice(w: Work, d: Delta): Work {
    Work(Remove(w.zone, Keys(d.del)) + d.add, w.toAdd + d.add, w.toDelete + d.del)
  }

  function Step(w: Work, e: Entry, orig: set<Key>): Work {
    if e.backing then Put(w, e.rec)
    else match KindOf(e.rec.typ)
      case KSPFM => Splice(w, SpfmDelta(w.zone, e.rec))
      case KA | KAAAA => Put(Cut(Cut(w, HitTest(e, orig)), DelegationTest(e)), e.rec)
      case KTXT => PutOnce(Cut(w, HitTest(e, orig)), e.rec)
      case KCustom => PutOnce(w, e.rec)
      case _ => Put(Cut(w, HitTest(e, orig)), e.rec)
  }

  function Run(w: Work, es: seq<Entry>, orig: set<Key>): Work {
    if es == [] then w else Step(Run(w, es[..|es| - 1], orig), es[|es| - 1], orig)
  }

  // ---------------------------------------------------------------- the loop

  method CutZone(w: Work, p: Record -> bool) returns (w': Work)
    ensures w' == Cut(w, p)
  {
    var dels := Select(w.zone, p);
    var zone := RemoveRecords(w.zone, dels);
    w' := Work(zone, w.toAdd, w.toDelete + dels);
  }

  method AddOnce(w: Work, rec: Record) returns (w': Work)
    ensures w' == PutOnce(w, rec)
  {
    var alreadyExists := false;
    for i := 0 to |w.zone|
      invariant !alreadyExists
      invariant !Present(rec, w.zone[..i])
    {
      if Same(rec, w.zone[i]) {
        alreadyExists := true;
        break;
      }
      assert w.zone[..i + 1] == w.zone[..i] + [w.zone[i]];
    }
    assert w.zone[..|w.zone|] == w.zone;
    w' := if alreadyExists then w else Put(w, rec);
  }

  method ApplyEntry(w: Work, e: Entry, originalZone: set<Key>) returns (w': Work)
    ensures w' == Step(w, e, originalZone)
  {
    w' := w;
    if e.backing {
      w' := Put(w', e.rec);
      return;
    }
    match KindOf(e.rec.typ) {
      case KSPFM =>
        var d := ProcessSPFM(w'.zone, e.rec);
        var zone := RemoveRecords(w'.zone, d.del);
        w' := Work(zone + d.add, w'.toAdd + d.add, w'.toDelete + d.del);
      case KA | KAAAA =>
        w' := CutZone(w', HitTest(e, originalZone));
        w' := CutZone(w', DelegationTest(e));
        w' := Put(w', e.rec);
      case KTXT =>
        w' := CutZone(w', HitTest(e, originalZone));
        w' := AddOnce(w', e.rec);
      case KCustom =>
        w' := AddOnce(w', e.rec);
      case _ =>
        w' := CutZone(w', HitTest(e, originalZone));
        w' := Put(w', e.rec);
    }
  }

  method ApplyEntries(w: Work, resolved: seq<Entry>, originalZone: set<Key>) returns (w': Work)
    ensures w' == Run(w, resolved, originalZone)
  {
    w' := w;
    for i := 0 to |resolved|
      invariant w' == Run(w, resolved[..i], originalZone)
    {
      assert resolved[..i + 1][..i] == resolved[..i];
      w' := ApplyEntry(w', resolved[i], originalZone);
    }
    assert resolved[..|resolved|] == resolved;
  }

  // ---------------------------------------------------------------- the ledger

  /** Double-entry bookkeeping from a start `z`: nothing enters or leaves the zone unlogged. */
  ghost predicate Balanced(z: multiset<Key>, w: Work) {
    z + Keys(w.toAdd) == Keys(w.zone) + Keys(w.toDelete)
  }

  lemma CutBalanced(z: multiset<Key>, w: Work, p: Record -> bool)
    requires Balanced(z, w)
    ensures Balanced(z, Cut(w, p))
  {
    var dels := Filter(p, w.zone);
    RemoveKeys(w.zone, Keys(dels));
    FilterPartitions(p, w.zone);
    KeysAppend(w.toDelete, dels);
  }

  lemma PutBalanced(z: multiset<Key>, w: Work, r: Record)
    requires Balanced(z, w)
    ensures Balanced(z, Put(w, r))
  {
    KeysAppend(w.zone, [r]);
    KeysAppend(w.toAdd, [r]);
    assert z + (Keys(w.toAdd) + Keys([r])) == (z + Keys(w.toAdd)) + Keys([r]);
    assert (Keys(w.zone) + Keys([r])) + Keys(w.toDelete) == (Keys(w.zone) + Keys(w.toDelete)) + Keys([r]);
  }

  lemma SpliceBalanced(z: multiset<Key>, w: Work, d: Delta)
    requires Balanced(z, w) && Keys(d.del) <= Keys(w.zone)
    ensures Balanced(z, Splice(w, d))
  {
    RemoveKeys(w.zone, Keys(d.del));
    KeysAppend(Remove(w.zone, Keys(d.del)), d.add);
    KeysAppend(w.toAdd, d.add);
    KeysAppend(w.toDelete, d.del);
  }

  lemma SpfmDeletesFromZone(zone: seq<Record>, spfm: Record)
    ensures Keys(SpfmDelta(zone, spfm).del) <= Keys(zone)
  {
    var d := SpfmDelta(zone, spfm);
    if d.del != [] {
      FilterMembers(SpfTest(spfm.name), zone, d.del[0]);
      KeysMembers(zone, KeyOf(d.del[0]));
      KeysOne(d.del[0]);
    }
  }

  lemma CutPutBalanced(z: multiset<Key>, w: Work, p: Record -> bool, r: Record)
    requires Balanced(z, w)
    ensures Balanced(z, Put(Cut(w, p), r)) && Balanced(z, PutOnce(Cut(w, p), r))
  {
    CutBalanced(z, w, p);
    PutBalanced(z, Cut(w, p), r);
  }

  lemma AddressBalanced(z: multiset<Key>, w: Work, e: Entry, orig: set<Key>)
    requires Balanced(z, w)
    ensures Balanced(z, Put(Cut(Cut(w, HitTest(e, orig)), DelegationTest(e)), e.rec))
  {
    CutBalanced(z, w, HitTest(e, orig));
    CutPutBalanced(z, Cut(w, HitTest(e, orig)), DelegationTest(e), e.rec);
  }

  lemma SpfmBalanced(z: multiset<Key>, w: Work, e: Entry)
    requires Balanced(z, w)
    ensures Balanced(z, Splice(w, SpfmDelta(w.zone, e.rec)))
  {
    SpfmDeletesFromZone(w.zone, e.rec);
    SpliceBalanced(z, w, SpfmDelta(w.zone, e.rec));
  }

  /** The shapes a step can take. */
  ghost predicate StepShape(w: Work, e: Entry, orig: set<Key>, next: Work) {
    || next == Put(w, e.rec)
    || next == PutOnce(w, e.rec)
    || next == Splice(w, SpfmDelta(w.zone, e.rec))
    || next == Put(Cut(Cut(w, HitTest(e, orig)), DelegationTest(e)), e.rec)
    || next == Put(Cut(w, HitTest(e, orig)), e.rec)
    || next == PutOnce(Cut(w, HitTest(e, orig)), e.rec)
  }

  lemma StepHasShape(w: Work, e: Entry, orig: set<Key>)
    ensures StepShape(w, e, orig, Step(w, e, orig))
  {
  }

  lemma ShapeBalanced(z: multiset<Key>, w: Work, e: Entry, orig: set<Key>, next: Work)
    requires Balanced(z, w) && StepShape(w, e, orig, next)
    ensures Balanced(z, next)
  {
    PutBalanced(z, w, e.rec);
    SpfmBalanced(z, w, e);
    AddressBalanced(z, w, e, orig);
    CutPutBalanced(z, w, HitTest(e, orig), e.rec);
  }

  lemma StepBalanced(z: multiset<Key>, w: Work, e: Entry, orig: set<Key>)
    requires Balanced(z, w)
    ensures Balanced(z, Step(w, e, orig))
  {
    StepHasShape(w, e, orig);
    ShapeBalanced(z, w, e, orig, Step(w, e, orig));
  }

  lemma {:induction false} RunBalanced(z: multiset<Key>, w: Work, es: seq<Entry>, orig: set<Key>)
    requires Balanced(z, w)
    ensures Balanced(z, Run(w, es, orig))
  {
    if es != [] {
      RunBalanced(z, w, es[..|es| - 1], orig);
      StepBalanced(z, Run(w, es[..|es| - 1], orig), es[|es| - 1], orig);
    }
  }
}
