/** What a call leaves for any template and any ownership setting. */
module ZoneSettings {
  import opened Text
  import opened Records
  import opened RecordLists
  import opened Spfm
  import opened Conflicts
  import opened ZoneApply
  import opened Process
  import opened ZoneMeaning
  import opened ZoneTheorems
  import opened ZoneIntegrity
  import opened SpfZone

  /** The state after the loop, before anything is restored. */
  ghost function Looped(o: Opts, es: seq<Entry>): Work {
    Run(Start(o), es, KeySet(Start(o).zone))
  }

  ghost predicate RestoresAll(o: Opts, es: seq<Entry>) {
    !AnyBlocked(Looped(o, es).toAdd, Candidates(o))
  }

  /** What restoration takes off the deletions again. */
  ghost function Restored(o: Opts, es: seq<Entry>): multiset<Key> {
    if RestoresAll(o, es) then Keys(Candidates(o)) else multiset{}
  }

  /** An identity is in ToDelete exactly when it was deleted more often than it was restored. */
  lemma DeletedIffNotRestored(o: Opts, es: seq<Entry>, k: Key)
    requires Acceptable(es)
    ensures k in KeySet(Result(o, es).toDelete) <==> Keys(Looped(o, es).toDelete)[k] > Restored(o, es)[k]
    ensures k in KeySet(Result(o, es).toAdd) <==> k in KeySet(Looped(o, es).toAdd)
  {
    var final, res := Final(o, es), Result(o, es);
    RestorationIsAllOrNothing(o, es);
    CandidatesAreDeleted(o, es);
    ReturnedDeltas(o, es, k);
    KeysMembers(res.toDelete, k);
    KeysMembers(res.toAdd, k);
    KeysMembers(final.toDelete, k);
  }

  // ---------------------------------------------------------------- the loop by itself

  function Ahead(del: seq<Record>, w: Work): Work {
    Work(w.zone, w.toAdd, del + w.toDelete)
  }

  lemma CutAhead(del: seq<Record>, w: Work, p: Record -> bool)
    ensures Cut(Ahead(del, w), p) == Ahead(del, Cut(w, p))
  {
    assert (del + w.toDelete) + Filter(p, w.zone) == del + (w.toDelete + Filter(p, w.zone));
  }

  lemma SpliceAhead(del: seq<Record>, w: Work, d: Delta)
    ensures Splice(Ahead(del, w), d) == Ahead(del, Splice(w, d))
  {
    assert (del + w.toDelete) + d.del == del + (w.toDelete + d.del);
  }

  lemma StepAhead(del: seq<Record>, w: Work, e: Entry, orig: set<Key>)
    ensures Step(Ahead(del, w), e, orig) == Ahead(del, Step(w, e, orig))
  {
    CutAhead(del, w, HitTest(e, orig));
    CutAhead(del, Cut(w, HitTest(e, orig)), DelegationTest(e));
    SpliceAhead(del, w, SpfmDelta(w.zone, e.rec));
  }

  /** What was deleted before the loop does not matter to it. */
  lemma {:induction false} RunAhead(del: seq<Record>, w: Work, es: seq<Entry>, orig: set<Key>)
    ensures Run(Ahead(del, w), es, orig) == Ahead(del, Run(w, es, orig))
  {
    if es != [] {
      RunAhead(del, w, es[..|es| - 1], orig);
      StepAhead(del, Run(w, es[..|es| - 1], orig), es[|es| - 1], orig);
    }
  }

  /** An SPF record's identity, at a name where a template record merges. */
  ghost predicate SpfMergeable(es: seq<Entry>, k: Key) {
    SpfKey(k) && exists e | e in es :: Merges(k.name, e)
  }

  predicate SpfKey(k: Key) {
    k.typ == "TXT" && HasPrefix(k.content, SPF_PREFIX)
  }

  lemma DeletedByRule(w: Work, es: seq<Entry>, orig: set<Key>, k: Key)
    requires AllNormal(w.zone) && NormalEntries(es) && w.toDelete == []
    requires !SpfMergeable(es, k) && k in KeySet(Run(w, es, orig).toDelete)
    ensures Displaced(es, k)
  {
    var r :| r in Run(w, es, orig).toDelete && KeyOf(r) == k;
    RunDeletesOnlyDisplaced(w, es, orig, r);
    if Mergeable(es, r) {
      MergeableByKey(es, r);
    }
  }

  lemma MergeableByKey(es: seq<Entry>, r: Record)
    requires Mergeable(es, r)
    ensures SpfMergeable(es, KeyOf(r))
  {
    var e :| e in es && !e.backing && KindOf(e.rec.typ) == KSPFM && IsSpf(e.rec.name, r);
    ToLowerTwice(r.name);
    assert ToUpper("TXT") == "TXT";
    assert Merges(KeyOf(r).name, e);
  }

  /** What the loop does not add it deletes exactly when it is there and displaced. */
  lemma LoopDeletesIff(w: Work, es: seq<Entry>, k: Key)
    requires AllNormal(w.zone) && NormalEntries(es) && w.toAdd == [] && w.toDelete == []
    requires !SpfMergeable(es, k) && k !in KeySet(Run(w, es, KeySet(w.zone)).toAdd)
    ensures Keys(Run(w, es, KeySet(w.zone)).toDelete)[k] > 0 <==> k in KeySet(w.zone) && Displaced(es, k)
  {
    var orig := KeySet(w.zone);
    var done := Run(w, es, orig);
    KeysMembers(done.toDelete, k);
    KeysMembers(done.toAdd, k);
    KeysMembers(w.zone, k);
    assert Balanced(Keys(w.zone), w);
    RunBalanced(Keys(w.zone), w, es, orig);
    assert (Keys(w.zone) + Keys(done.toAdd))[k] == (Keys(done.zone) + Keys(done.toDelete))[k];
    if k in KeySet(done.toDelete) {
      DeletedByRule(w, es, orig, k);
    }
    if k in orig && Displaced(es, k) {
      RunDeletesDisplaced(w, es, orig, k);
    }
  }

  // ---------------------------------------------------------------- records and their owners

  predicate Owned(o: Opts, r: Record) {
    o.multiAware && Superseded(o, r)
  }

  predicate Spared(o: Opts, r: Record) {
    o.multiAware && Restorable(o, r)
  }

  function OwnedTest(o: Opts): Record -> bool {
    r => Owned(o, r)
  }

  function SparedTest(o: Opts): Record -> bool {
    r => Spared(o, r)
  }

  /** What the ownership rules do, in one formula for all settings. */
  lemma StartByRule(o: Opts)
    ensures var z := Normalized(o.zoneRecords);
      Start(o) == Cut(Work(z, [], []), OwnedTest(o)) && Candidates(o) == Filter(SparedTest(o), z)
  {
    var z := Normalized(o.zoneRecords);
    if o.multiAware {
      FilterSame(OwnedTest(o), SupersededTest(o), z);
      FilterSame(SparedTest(o), RestorableTest(o), z);
    } else {
      FilterNone(OwnedTest(o), z);
      FilterNone(SparedTest(o), z);
      RemoveNothing(z);
    }
  }

  /** All records of identity k that one test selects pass the other too. */
  ghost predicate Covers(p: Record -> bool, q: Record -> bool, k: Key, s: seq<Record>) {
    forall r | r in s && KeyOf(r) == k && q(r) :: p(r)
  }

  lemma {:induction false} CoversByCount(p: Record -> bool, q: Record -> bool, k: Key, s: seq<Record>)
    requires forall r :: p(r) ==> q(r)
    ensures Keys(Filter(p, s))[k] <= Keys(Filter(q, s))[k]
    ensures Keys(Filter(p, s))[k] == Keys(Filter(q, s))[k] <==> Covers(p, q, k, s)
  {
    if s != [] {
      CoversByCount(p, q, k, s[1..]);
      FilterCount(p, k, s);
      FilterCount(q, k, s);
      assert Covers(p, q, k, s) <==> Covers(p, q, k, s[1..]) && (KeyOf(s[0]) == k && q(s[0]) ==> p(s[0])) by {
        assert forall r :: r in s <==> r == s[0] || r in s[1..];
      }
    }
  }

  lemma FilterCount(p: Record -> bool, k: Key, s: seq<Record>)
    requires s != []
    ensures Keys(Filter(p, s))[k] == (if p(s[0]) && KeyOf(s[0]) == k then 1 else 0) + Keys(Filter(p, s[1..]))[k]
  {
    if p(s[0]) {
      assert Filter(p, s)[1..] == Filter(p, s[1..]);
    }
  }

  lemma SelectedIff(p: Record -> bool, k: Key, s: seq<Record>)
    ensures Keys(Filter(p, s))[k] > 0 <==> exists r | r in s :: KeyOf(r) == k && p(r)
  {
    KeysMembers(Filter(p, s), k);
    forall r ensures r in Filter(p, s) <==> r in s && p(r) {
      FilterMembers(p, s, r);
    }
  }

  /** An identity enters the loop exactly when some record of it has no owner that is to go. */
  lemma InStartIff(o: Opts, k: Key)
    ensures k in KeySet(Start(o).zone) <==>
            exists r | r in Normalized(o.zoneRecords) :: KeyOf(r) == k && !Owned(o, r)
  {
    var z, p := Normalized(o.zoneRecords), OwnedTest(o);
    StartByRule(o);
    RemoveKeys(z, Keys(Filter(p, z)));
    FilterPartitions(p, z);
    KeysMembers(Start(o).zone, k);
    SelectedIff(Not(p), k, z);
    assert (Keys(Filter(p, z)) + Keys(Filter(Not(p), z)))[k] == Keys(z)[k];
  }

  /** Every copy that the ownership rules delete is restored. */
  ghost predicate OwnedReturn(o: Opts, es: seq<Entry>, k: Key) {
    forall r | r in Normalized(o.zoneRecords) && KeyOf(r) == k && Owned(o, r) :: RestoresAll(o, es) && Spared(o, r)
  }

  lemma OwnedReturnIff(o: Opts, es: seq<Entry>, k: Key)
    ensures Restored(o, es)[k] <= Keys(Start(o).toDelete)[k]
    ensures Keys(Start(o).toDelete)[k] == Restored(o, es)[k] <==> OwnedReturn(o, es, k)
  {
    var z := Normalized(o.zoneRecords);
    StartByRule(o);
    assert Start(o).toDelete == Filter(OwnedTest(o), z);
    if RestoresAll(o, es) {
      CoversByCount(SparedTest(o), OwnedTest(o), k, z);
    } else {
      SelectedIff(OwnedTest(o), k, z);
    }
  }

  // ---------------------------------------------------------------- the applied zone

  /** What is to become of a record of the zone: one that the ownership rules delete stays if it is restored, any
      other if no template record displaces it. */
  ghost predicate Stays(o: Opts, es: seq<Entry>, r: Record) {
    if Owned(o, r) then RestoresAll(o, es) && Spared(o, r) else !Displaced(es, KeyOf(r))
  }

  ghost predicate AllStay(o: Opts, es: seq<Entry>, k: Key) {
    forall r | r in Normalized(o.zoneRecords) && KeyOf(r) == k :: Stays(o, es, r)
  }

  lemma LoopedParts(o: Opts, es: seq<Entry>) returns (w: Work)
    requires NormalEntries(es)
    ensures w == Work(Start(o).zone, [], []) && AllNormal(w.zone)
    ensures Looped(o, es).toAdd == Run(w, es, KeySet(w.zone)).toAdd
    ensures Looped(o, es).toDelete == Start(o).toDelete + Run(w, es, KeySet(w.zone)).toDelete
  {
    w := Work(Start(o).zone, [], []);
    StartIsNormal(o);
    assert Start(o) == Ahead(Start(o).toDelete, w);
    RunAhead(Start(o).toDelete, w, es, KeySet(w.zone));
  }

  lemma KeptIff(o: Opts, es: seq<Entry>, k: Key)
    requires Acceptable(es) && NormalEntries(es) && !SpfMergeable(es, k)
    requires k !in KeySet(Looped(o, es).toAdd)
    ensures Keys(Looped(o, es).toDelete)[k] <= Restored(o, es)[k] <==> AllStay(o, es, k)
  {
    var w := LoopedParts(o, es);
    var gone := Run(w, es, KeySet(w.zone)).toDelete;
    KeysAppend(Start(o).toDelete, gone);
    LoopDeletesIff(w, es, k);
    OwnedReturnIff(o, es, k);
    InStartIff(o, k);
    assert AllStay(o, es, k) <==> OwnedReturn(o, es, k) && !(k in KeySet(w.zone) && Displaced(es, k));
  }

  /** The applied zone of any template under any setting, but for the SPF records at names where it merges: what
      was added, and the identities of which every record stays. */
  lemma AppliedIff(o: Opts, es: seq<Entry>, k: Key)
    requires Acceptable(es) && NormalEntries(es) && !SpfMergeable(es, k)
    ensures k in AppliedKeys(o, es) <==>
            k in KeySet(Result(o, es).toAdd) || (k in KeySet(Normalized(o.zoneRecords)) && AllStay(o, es, k))
  {
    DeletedIffNotRestored(o, es, k);
    if k !in KeySet(Looped(o, es).toAdd) {
      KeptIff(o, es, k);
    }
  }

  // ---------------------------------------------------------------- SPF records

  /** What becomes of the SPF records at a name, ownership rules included. */
  ghost function SpfOutcome(o: Opts, es: seq<Entry>, name: string): Work {
    SpfRun(name, SpfsOf(name, Start(o)), es, KeySet(Start(o).zone))
  }

  lemma ShapeLogsNormal(w: Work, e: Entry, orig: set<Key>)
    requires AllNormal(w.zone) && AllNormal(w.toAdd) && AllNormal(w.toDelete) && Normal(e.rec)
    ensures var s := Step(w, e, orig); AllNormal(s.toAdd) && AllNormal(s.toDelete)
  {
    var s := Step(w, e, orig);
    StepAdds(w, e, orig);
    assert ToUpper("TXT") == "TXT";
    forall r | r in s.toDelete && r !in w.toDelete ensures Normal(r) {
      DeletedWasThere(w, e, orig, r);
    }
  }

  lemma DeletedWasThere(w: Work, e: Entry, orig: set<Key>, r: Record)
    requires r in Step(w, e, orig).toDelete && r !in w.toDelete
    ensures r in w.zone
  {
    if !e.backing && KindOf(e.rec.typ) == KSPFM {
      FilterMembers(SpfTest(e.rec.name), w.zone, r);
    } else {
      var cut := Cut(w, HitTest(e, orig));
      DeletedBySweeps(w, e, orig);
      SweptWasThere(w, HitTest(e, orig), r);
      if r !in cut.toDelete {
        SweptWasThere(cut, DelegationTest(e), r);
        CutWithin(w, HitTest(e, orig), r);
      }
    }
  }

  lemma DeletedBySweeps(w: Work, e: Entry, orig: set<Key>)
    requires e.backing || KindOf(e.rec.typ) != KSPFM
    ensures var cut, del := Cut(w, HitTest(e, orig)), Step(w, e, orig).toDelete;
      del == w.toDelete || del == cut.toDelete || del == Cut(cut, DelegationTest(e)).toDelete
  {
  }

  lemma SweptWasThere(w: Work, p: Record -> bool, r: Record)
    requires r !in w.toDelete
    ensures r in Cut(w, p).toDelete ==> r in w.zone
  {
    FilterMembers(p, w.zone, r);
  }

  lemma {:induction false} RunLogsNormal(w: Work, es: seq<Entry>, orig: set<Key>)
    requires AllNormal(w.zone) && AllNormal(w.toAdd) && AllNormal(w.toDelete) && NormalEntries(es)
    ensures AllNormal(Run(w, es, orig).toAdd) && AllNormal(Run(w, es, orig).toDelete)
  {
    if es != [] {
      var front := es[..|es| - 1];
      RunLogsNormal(w, front, orig);
      RunNormal(w, front, orig);
      ShapeLogsNormal(Run(w, front, orig), es[|es| - 1], orig);
    }
  }

  lemma SpfByItsKey(r: Record)
    requires Normal(r) && SpfKey(KeyOf(r))
    ensures IsSpf(KeyOf(r).name, r)
  {
    ToLowerTwice(r.name);
    assert CanonicalName(KeyOf(r).name) == CanonicalName(r.name);
  }

  lemma KeysStep(k: Key, s: seq<Record>)
    requires s != []
    ensures Keys(s)[k] == (if KeyOf(s[0]) == k then 1 else 0) + Keys(s[1..])[k]
  {
  }

  /** All records of an SPF record's identity are among the SPF records. */
  lemma {:induction false} SpfCopies(k: Key, s: seq<Record>)
    requires AllNormal(s) && SpfKey(k)
    ensures Keys(Spfs(k.name, s))[k] == Keys(s)[k]
  {
    if s != [] {
      SpfCopies(k, s[1..]);
      FilterCount(SpfTest(k.name), k, s);
      KeysStep(k, s);
      if KeyOf(s[0]) == k {
        SpfByItsKey(s[0]);
      }
    }
  }

  lemma StartLogsNormal(o: Opts)
    ensures AllNormal(Start(o).toAdd) && AllNormal(Start(o).toDelete)
  {
    NormalizedIsNormal(o.zoneRecords);
    StartByRule(o);
    forall r | r in Start(o).toDelete ensures Normal(r) {
      FilterMembers(OwnedTest(o), Normalized(o.zoneRecords), r);
    }
  }

  /** The applied SPF records of any template under any setting, told from the SPF records of the zone alone. */
  lemma AppliedSpfIff(o: Opts, es: seq<Entry>, k: Key)
    requires Acceptable(es) && NormalEntries(es) && SpfKey(k)
    ensures var out := SpfOutcome(o, es, k.name);
      k in AppliedKeys(o, es) <==>
      k in KeySet(out.toAdd) ||
      (k in KeySet(Normalized(o.zoneRecords)) && Keys(out.toDelete)[k] <= Restored(o, es)[k])
  {
    var w, done := Start(o), Looped(o, es);
    StartIsNormal(o);
    StartLogsNormal(o);
    SpfsEvolve(k.name, w, es, KeySet(w.zone));
    RunLogsNormal(w, es, KeySet(w.zone));
    SpfCopies(k, done.toAdd);
    SpfCopies(k, done.toDelete);
    KeysMembers(done.toAdd, k);
    KeysMembers(Spfs(k.name, done.toAdd), k);
    DeletedIffNotRestored(o, es, k);
  }
}
