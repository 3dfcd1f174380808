/** Multi-aware calls: whose records the pre-deletion takes, and what restoration can leave. */
module Ownership {
  import opened Text
  import opened Records
  import opened RecordLists
  import opened Spfm
  import opened Conflicts
  import opened ZoneApply
  import opened Process
  import opened ZoneMeaning
  import opened ZoneTheorems
  import opened ZoneIntegrity

  /** A record the test spares comes before one of the same identity that it selects. */
  ghost predicate Shadows(p: Record -> bool, s: seq<Record>) {
    exists i, j :: 0 <= i < j < |s| && KeyOf(s[i]) == KeyOf(s[j]) && !p(s[i]) && p(s[j])
  }

  lemma ShadowsTail(p: Record -> bool, s: seq<Record>)
    requires s != [] && Shadows(p, s[1..])
    ensures Shadows(p, s)
  {
    var i, j :| 0 <= i < j < |s| - 1 && KeyOf(s[1..][i]) == KeyOf(s[1..][j]) && !p(s[1..][i]) && p(s[1..][j]);
    assert s[i + 1] == s[1..][i] && s[j + 1] == s[1..][j];
  }

  lemma ShadowsHead(p: Record -> bool, s: seq<Record>, r: Record)
    requires s != [] && r in s[1..] && KeyOf(r) == KeyOf(s[0]) && !p(s[0]) && p(r)
    ensures Shadows(p, s)
  {
    var j :| 0 <= j < |s| - 1 && s[1..][j] == r;
    assert s[j + 1] == r;
  }

  lemma {:induction false} UnshadowedRemoval(p: Record -> bool, zone: seq<Record>)
    requires !Shadows(p, zone)
    ensures Remove(zone, Keys(Filter(p, zone))) == Filter(Not(p), zone)
  {
    if zone != [] {
      var h := KeyOf(zone[0]);
      if Shadows(p, zone[1..]) {
        ShadowsTail(p, zone);
      }
      UnshadowedRemoval(p, zone[1..]);
      var dels := Filter(p, zone[1..]);
      if p(zone[0]) {
        assert Filter(p, zone)[1..] == dels;
        assert Keys(Filter(p, zone)) - multiset{h} == Keys(dels);
      } else if h in Keys(dels) {
        KeysMembers(dels, h);
        var r :| r in dels && KeyOf(r) == h;
        FilterMembers(p, zone[1..], r);
        ShadowsHead(p, zone, r);
        assert false;
      }
    }
  }

  /** How many records of identity `k` the test selects. */
  function Selected(p: Record -> bool, k: Key, s: seq<Record>): nat {
    if s == [] then 0
    else (if KeyOf(s[0]) == k && p(s[0]) then 1 else 0) + Selected(p, k, s[1..])
  }

  lemma {:induction false} SelectedCounts(p: Record -> bool, k: Key, s: seq<Record>)
    ensures Keys(Filter(p, s))[k] == Selected(p, k, s)
  {
    if s != [] {
      SelectedCounts(p, k, s[1..]);
      if p(s[0]) {
        assert Filter(p, s)[1..] == Filter(p, s[1..]);
      }
    }
  }

  lemma {:induction false} SelectedFew(p: Record -> bool, k: Key, s: seq<Record>, c: multiset<Key>)
    requires forall r | r in Remove(s, c) :: !p(r)
    ensures Selected(p, k, s) <= c[k]
  {
    if s != [] {
      var h := KeyOf(s[0]);
      SelectedFew(p, k, s[1..], if h in c then c - multiset{h} else c);
    }
  }

  /** If a counted removal with just enough counts leaves no selected record, none is shadowed. */
  lemma {:induction false} NoneLeftNoShadow(p: Record -> bool, s: seq<Record>, c: multiset<Key>, i: nat, j: nat)
    requires i < j < |s| && KeyOf(s[i]) == KeyOf(s[j]) && !p(s[i]) && p(s[j])
    requires Selected(p, KeyOf(s[i]), s) == c[KeyOf(s[i])]
    ensures exists r | r in Remove(s, c) :: p(r)
    decreases |s|
  {
    var k, h := KeyOf(s[i]), KeyOf(s[0]);
    var c' := if h in c then c - multiset{h} else c;
    if forall r | r in Remove(s, c) :: !p(r) {
      assert forall r | r in Remove(s[1..], c') :: !p(r);
      SelectedFew(p, k, s[1..], c');
      if i == 0 {
        SelectedSome(p, s[1..], j - 1);
      } else {
        assert s[1..][i - 1] == s[i] && s[1..][j - 1] == s[j];
        NoneLeftNoShadow(p, s[1..], c', i - 1, j - 1);
      }
    }
  }

  lemma {:induction false} SelectedSome(p: Record -> bool, s: seq<Record>, j: nat)
    requires j < |s| && p(s[j])
    ensures Selected(p, KeyOf(s[j]), s) > 0
  {
    if j > 0 {
      SelectedSome(p, s[1..], j - 1);
    }
  }

  /** The pre-deletion takes exactly the superseded records if and only if no record of another
      owner comes before a superseded one with the same identity. */
  lemma PreDeletionIsExact(o: Opts)
    requires o.multiAware
    ensures Start(o).zone == Filter(Not(SupersededTest(o)), Normalized(o.zoneRecords)) <==>
            !Shadows(SupersededTest(o), Normalized(o.zoneRecords))
  {
    var p, z := SupersededTest(o), Normalized(o.zoneRecords);
    if Shadows(p, z) {
      var i, j :| 0 <= i < j < |z| && KeyOf(z[i]) == KeyOf(z[j]) && !p(z[i]) && p(z[j]);
      SelectedCounts(p, KeyOf(z[i]), z);
      NoneLeftNoShadow(p, z, Keys(Filter(p, z)), i, j);
      var r :| r in Remove(z, Keys(Filter(p, z))) && p(r);
      FilterMembers(Not(p), z, r);
    } else {
      UnshadowedRemoval(p, z);
    }
  }

  // ---------------------------------------------------------------- records below a delegation

  lemma EntryNotOccluded(es: seq<Entry>, e: Entry, x: Entry, r: Record)
    requires Compatible(es) && e in es && x in es && IsDelegation(e) && AddedFor(x, r)
    ensures !IsOccluded(e, KeyOf(r))
  {
    ToLowerTwice(r.name);
    assert ToUpper("NS") == "NS";
    assert !Occludes(e, x);
  }

  lemma SweptBelow(w: Work, e: Entry, orig: set<Key>, r: Record)
    requires AllNormal(w.zone) && IsDelegation(e) && r in Cut(w, HitTest(e, orig)).zone
    ensures !IsOccluded(e, KeyOf(r))
  {
    CutLeavesNone(w, e, orig, r);
    ToLowerTwice(r.name);
  }

  /** After a delegation's turn nothing is below it any more, and no accepted record brings it back. */
  lemma {:induction false} NothingStaysBelow(w: Work, es: seq<Entry>, all: seq<Entry>, orig: set<Key>, e: Entry,
      r: Record)
    requires AllNormal(w.zone) && NormalEntries(es) && Compatible(all) && (forall x | x in es :: x in all)
    requires e in es && IsDelegation(e) && r in Run(w, es, orig).zone
    ensures !IsOccluded(e, KeyOf(r))
  {
    SnocSplit(es);
    var front, x := es[..|es| - 1], es[|es| - 1];
    var mid := Run(w, front, orig);
    RunNormal(w, front, orig);
    StepZoneWithin(mid, x, orig, r);
    if AddedFor(x, r) {
      EntryNotOccluded(all, e, x, r);
    } else if x == e {
      assert Step(mid, e, orig) == Put(Cut(mid, HitTest(e, orig)), e.rec);
      SweptBelow(mid, e, orig, r);
    } else {
      NothingStaysBelow(w, front, all, orig, e, r);
    }
  }

  /** At the end of the run every copy of an occluded original is on the deletion log. */
  lemma OccludedIsLogged(o: Opts, es: seq<Entry>, e: Entry, k: Key)
    requires Acceptable(es) && NormalEntries(es) && e in es && IsDelegation(e) && IsOccluded(e, k)
    ensures var w := Start(o);
      Keys(Run(w, es, KeySet(w.zone)).toDelete)[k] == Keys(Normalized(o.zoneRecords))[k]
  {
    var z, w := Keys(Normalized(o.zoneRecords)), Start(o);
    var done := Run(w, es, KeySet(w.zone));
    StartIsNormal(o);
    RunLedger(o, es);
    RunAdds(w, es, KeySet(w.zone));
    KeysMembers(done.zone, k);
    KeysMembers(done.toAdd, k);
    if k in Keys(done.zone) {
      var r :| r in done.zone && KeyOf(r) == k;
      NothingStaysBelow(w, es, es, KeySet(w.zone), e, r);
    }
    if k in Keys(done.toAdd) {
      var r :| r in done.toAdd && KeyOf(r) == k;
      var x :| x in es && AddedFor(x, r);
      EntryNotOccluded(es, e, x, r);
    }
    assert (z + Keys(done.toAdd))[k] == (Keys(done.zone) + Keys(done.toDelete))[k];
  }

  /** Restoration happens, and every record of the zone with this identity is a candidate for it. */
  ghost predicate Restores(o: Opts, added: seq<Record>, k: Key) {
    !AnyBlocked(added, Candidates(o)) && 0 < Keys(Normalized(o.zoneRecords))[k] == Keys(Candidates(o))[k]
  }

  /** Exactly when a record is left below a delegation of the template. */
  lemma LeftBelowIff(o: Opts, es: seq<Entry>, e: Entry, k: Key)
    requires Acceptable(es) && NormalEntries(es) && e in es && IsDelegation(e) && IsOccluded(e, k)
    ensures var w := Start(o);
      k in AppliedKeys(o, es) <==> Restores(o, Run(w, es, KeySet(w.zone)).toAdd, k)
  {
    var z, w, res := Normalized(o.zoneRecords), Start(o), Result(o, es);
    var done, final := Run(w, es, KeySet(w.zone)), Final(o, es);
    if k in KeySet(res.toAdd) {
      AddedNotOccluded(o, es, e, k);
    }
    OccludedIsLogged(o, es, e, k);
    RestorationIsAllOrNothing(o, es);
    CandidatesAreDeleted(o, es);
    ReturnedDeltas(o, es, k);
    KeysMembers(z, k);
    KeysMembers(res.toDelete, k);
    KeysMembers(final.toDelete, k);
    assert Keys(Candidates(o))[k] <= Keys(done.toDelete)[k];
  }

  function RecordsOf(es: seq<Entry>): (s: seq<Record>)
    ensures |s| == |es|
  {
    seq(|es|, i requires 0 <= i < |es| => es[i].rec)
  }

  lemma RecordsOfMembers(es: seq<Entry>, r: Record)
    ensures r in RecordsOf(es) <==> exists x | x in es :: x.rec == r
  {
    if r in RecordsOf(es) {
      var i :| 0 <= i < |es| && RecordsOf(es)[i] == r;
      assert es[i] in es;
    }
    if x :| x in es && x.rec == r {
      var i :| 0 <= i < |es| && es[i] == x;
      assert RecordsOf(es)[i] == r;
    }
  }

  lemma AllAreAdded(w: Work, es: seq<Entry>, orig: set<Key>)
    requires w.toAdd == [] && Replacing(es)
    ensures forall r :: r in Run(w, es, orig).toAdd <==> r in RecordsOf(es)
  {
    RunAdds(w, es, orig);
    forall r ensures r in Run(w, es, orig).toAdd <==> r in RecordsOf(es) {
      RecordsOfMembers(es, r);
      if r in Run(w, es, orig).toAdd {
        assert Stems(es, r);
      }
    }
  }

  /** For templates of replacing types this can be told from the zone and the template before the call. */
  lemma ReplacingLeavesBelowIff(o: Opts, es: seq<Entry>, e: Entry, k: Key)
    requires Acceptable(es) && NormalEntries(es) && Replacing(es) && e in es && IsDelegation(e) && IsOccluded(e, k)
    ensures k in AppliedKeys(o, es) <==> Restores(o, RecordsOf(es), k)
  {
    var w := Start(o);
    StartIsNormal(o);
    AllAreAdded(w, es, KeySet(w.zone));
    LeftBelowIff(o, es, e, k);
    assert AnyBlocked(Run(w, es, KeySet(w.zone)).toAdd, Candidates(o)) <==> AnyBlocked(RecordsOf(es), Candidates(o));
  }

  // ---------------------------------------------------------------- restoration below a delegation

  /** Restoration looks at type and name only, so it can put a record back below a new delegation. */
  lemma RestorationCanOcclude() returns (o: Opts, e: Entry, k: Key)
    ensures Acceptable([e]) && NormalEntries([e]) && IsDelegation(e)
    ensures k in AppliedKeys(o, [e]) && IsOccluded(e, k)
  {
    var host := Record("A", "www.sub", "192.0.2.1", 60, 0, 0, 0, "", "", Some(Meta("1", "p", "old", "", "Always")));
    e := Entry(Record("NS", "sub", "ns.example.net", 60, 0, 0, 0, "", "", None), "", "", "", false);
    o := Opts([host], true, false, "p", "new", "2", "");
    k := KeyOf(host);
    assert ToUpper("A") == "A" && ToUpper("NS") == "NS";
    assert ToLower("www.sub") == "www.sub" && ToLower("sub") == "sub" && ToLower("192.0.2.1") == "192.0.2.1";
    assert Normalized([host]) == [host] by {
      assert NormalizeRecord(host) == host;
    }
    assert IsChildOf("www.sub", "sub") by {
      assert "www.sub"[3..] == "." + "sub";
    }
    RestoredAlone(o, host, e);
  }

  lemma LoneStart(o: Opts, host: Record)
    requires o.multiAware && Normalized(o.zoneRecords) == [host]
    requires Restorable(o, host) && Superseded(o, host)
    ensures Start(o) == Work([], [], [host]) && Candidates(o) == [host]
  {
    FilterOne(SupersededTest(o), host);
    FilterOne(RestorableTest(o), host);
    KeysOne(host);
    assert Remove([host], Keys([host])) == [];
  }

  lemma DelegationIntoEmptyZone(w: Work, e: Entry)
    requires w.zone == [] && IsDelegation(e)
    ensures Run(w, [e], {}) == Work([e.rec], w.toAdd + [e.rec], w.toDelete)
  {
    assert [e][..0] == [];
    assert Run(w, [e][..0], {}) == w;
    assert Filter(HitTest(e, {}), []) == [];
    assert Cut(w, HitTest(e, {})) == w;
  }

  lemma RestoredAlone(o: Opts, host: Record, e: Entry)
    requires o.multiAware && Normalized(o.zoneRecords) == [host] && Normal(e.rec) && IsDelegation(e)
    requires Restorable(o, host) && Superseded(o, host) && ToUpper(host.typ) != "NS"
    ensures Acceptable([e]) && KeyOf(host) in AppliedKeys(o, [e])
  {
    assert ApexCount([e]) == 0 by {
      assert [e][..0] == [];
    }
    LoneStart(o, host);
    DelegationIntoEmptyZone(Start(o), e);
    assert KeySet(Start(o).zone) == {};
    var done := Work([e.rec], [e.rec], [host]);
    assert !AnyBlocked(done.toAdd, [host]);
    KeysOne(host);
    assert Remove([host], Keys([host])) == [];
    assert Restore(done, [host]).toDelete == [] by {
      assert [host][1..] == [];
    }
    assert Final(o, [e]).toDelete == [];
  }
}
