/** The guarantees of a whole call of the engine. */
module ZoneTheorems {
  import opened Text
  import opened Records
  import opened RecordLists
  import opened Spfm
  import opened Conflicts
  import opened ZoneApply
  import opened Process
  import opened ZoneMeaning

  /** The identities present once the deltas are carried out: delete, then add. */
  ghost function AppliedKeys(o: Opts, es: seq<Entry>): set<Key>
    requires Acceptable(es)
  {
    KeySet(Normalized(o.zoneRecords)) - KeySet(Result(o, es).toDelete) + KeySet(Result(o, es).toAdd)
  }

  /** The originals that no template record displaces. */
  ghost function Untouched(zone: set<Key>, es: seq<Entry>): set<Key> {
    set k | k in zone && !Displaced(es, k)
  }

  lemma NormalizedIsNormal(zone: seq<Record>)
    ensures AllNormal(Normalized(zone))
  {
    forall r | r in Normalized(zone) ensures Normal(r) {
      var i :| 0 <= i < |zone| && Normalized(zone)[i] == r;
      NormalizeTwice(zone[i]);
    }
  }

  lemma PlainResult(o: Opts, es: seq<Entry>)
    requires !o.multiAware && Acceptable(es)
    ensures var z := Normalized(o.zoneRecords);
      var done := Run(Work(z, [], []), es, KeySet(z));
      KeySet(Result(o, es).toAdd) == KeySet(done.toAdd) && KeySet(Result(o, es).toDelete) == KeySet(done.toDelete)
  {
    var z := Normalized(o.zoneRecords);
    var done := Run(Work(z, [], []), es, KeySet(z));
    DedupKeySet(done.toAdd);
    DedupKeySet(done.toDelete);
  }

  lemma DisplacedIsLogged(o: Opts, es: seq<Entry>, k: Key)
    requires !o.multiAware && Acceptable(es) && NormalEntries(es)
    requires k in KeySet(Normalized(o.zoneRecords)) && Displaced(es, k)
    ensures k in KeySet(Result(o, es).toDelete)
  {
    var z := Normalized(o.zoneRecords);
    PlainResult(o, es);
    NormalizedIsNormal(o.zoneRecords);
    RunDeletesDisplaced(Work(z, [], []), es, KeySet(z), k);
  }

  lemma LoggedIsDisplaced(o: Opts, es: seq<Entry>, k: Key)
    requires !o.multiAware && Acceptable(es) && NormalEntries(es) && (NoSpfm(es) || k.typ != "TXT")
    requires k in KeySet(Result(o, es).toDelete)
    ensures Displaced(es, k)
  {
    var z := Normalized(o.zoneRecords);
    PlainResult(o, es);
    NormalizedIsNormal(o.zoneRecords);
    var r :| r in Run(Work(z, [], []), es, KeySet(z)).toDelete && KeyOf(r) == k;
    RunDeletesOnlyDisplaced(Work(z, [], []), es, KeySet(z), r);
    if Mergeable(es, r) {
      MergeableIsTxt(es, r);
    }
  }

  lemma MergeableIsTxt(es: seq<Entry>, r: Record)
    requires Mergeable(es, r)
    ensures !NoSpfm(es) && KeyOf(r).typ == "TXT"
  {
    assert ToUpper("TXT") == "TXT";
  }

  /** An original identity is deleted exactly when some template record displaces it. */
  lemma DeletedIffDisplaced(o: Opts, es: seq<Entry>, k: Key)
    requires !o.multiAware && Acceptable(es) && NormalEntries(es)
    requires k in KeySet(Normalized(o.zoneRecords))
    ensures Displaced(es, k) ==> k in KeySet(Result(o, es).toDelete)
    ensures (NoSpfm(es) || k.typ != "TXT") && k in KeySet(Result(o, es).toDelete) ==> Displaced(es, k)
  {
    if Displaced(es, k) {
      DisplacedIsLogged(o, es, k);
    } else if (NoSpfm(es) || k.typ != "TXT") && k in KeySet(Result(o, es).toDelete) {
      LoggedIsDisplaced(o, es, k);
    }
  }

  /** Main theorem: carrying out the deltas leaves the originals that no rule displaces plus
      everything logged as added -- for every zone and every order of the template. */
  lemma AppliedZone(o: Opts, es: seq<Entry>)
    requires !o.multiAware && Acceptable(es) && NormalEntries(es) && NoSpfm(es)
    ensures AppliedKeys(o, es) == Untouched(KeySet(Normalized(o.zoneRecords)), es) + KeySet(Result(o, es).toAdd)
  {
    forall k | k in KeySet(Normalized(o.zoneRecords))
      ensures k in KeySet(Result(o, es).toDelete) <==> Displaced(es, k)
    {
      DeletedIffDisplaced(o, es, k);
    }
  }

  /** A template of replacing types is steady over every zone. */
  lemma ReplacingIsSteady(es: seq<Entry>, zone: set<Key>)
    requires Replacing(es)
    ensures Steady(es, zone) && NoSpfm(es)
  {
  }

  lemma AddedWithin(o: Opts, es: seq<Entry>)
    requires !o.multiAware && Acceptable(es) && NoSpfm(es)
    ensures KeySet(Result(o, es).toAdd) <= EntryKeys(es)
  {
    var z := Normalized(o.zoneRecords);
    PlainResult(o, es);
    forall k | k in KeySet(Result(o, es).toAdd) ensures k in EntryKeys(es) {
      AddedKeys(Work(z, [], []), es, KeySet(z), k);
    }
  }

  lemma EntryIsApplied(o: Opts, es: seq<Entry>, e: Entry)
    requires !o.multiAware && Acceptable(es) && NormalEntries(es) && NoSpfm(es)
    requires e in es && SteadyEntry(es, KeySet(Normalized(o.zoneRecords)), e)
    ensures KeyOf(e.rec) in AppliedKeys(o, es)
  {
    var z := Normalized(o.zoneRecords);
    var w := Work(z, [], []);
    PlainResult(o, es);
    NormalizedIsNormal(o.zoneRecords);
    if AlwaysAdded(e) {
      RunAdds(w, es, KeySet(z));
      assert e.rec in Run(w, es, KeySet(z)).toAdd;
    } else {
      RunHoldsEntry(w, es, es, KeySet(z), e);
      AppliedZone(o, es);
    }
  }

  /** For a steady template the applied zone is the untouched originals plus the template itself. */
  lemma TemplateIsApplied(o: Opts, es: seq<Entry>)
    requires !o.multiAware && Acceptable(es) && NormalEntries(es) && NoSpfm(es)
    requires Steady(es, KeySet(Normalized(o.zoneRecords)))
    ensures AppliedKeys(o, es) == Untouched(KeySet(Normalized(o.zoneRecords)), es) + EntryKeys(es)
  {
    AppliedZone(o, es);
    AddedWithin(o, es);
    forall e | e in es ensures KeyOf(e.rec) in AppliedKeys(o, es) {
      assert SteadyEntry(es, KeySet(Normalized(o.zoneRecords)), e);
      EntryIsApplied(o, es, e);
    }
  }

  lemma SteadyIgnoresOrder(es: seq<Entry>, fs: seq<Entry>, zone: set<Key>)
    requires multiset(es) == multiset(fs) && Steady(es, zone)
    ensures Steady(fs, zone)
  {
    SameMembers(es, fs);
    assert EntryKeys(es) == EntryKeys(fs);
    forall e | e in fs ensures SteadyEntry(fs, zone, e) {
      assert SteadyEntry(es, zone, e);
    }
  }

  /** The applied zone does not depend on the order of the template's records. */
  lemma OrderIrrelevant(o: Opts, es: seq<Entry>, fs: seq<Entry>)
    requires !o.multiAware && Acceptable(es) && NormalEntries(es) && NoSpfm(es)
    requires Steady(es, KeySet(Normalized(o.zoneRecords)))
    requires multiset(es) == multiset(fs)
    ensures Acceptable(fs) && AppliedKeys(o, fs) == AppliedKeys(o, es)
  {
    AcceptanceIgnoresOrder(es, fs);
    SameMembers(es, fs);
    SteadyIgnoresOrder(es, fs, KeySet(Normalized(o.zoneRecords)));
    assert forall k :: Displaced(es, k) <==> Displaced(fs, k);
    TemplateIsApplied(o, es);
    TemplateIsApplied(o, fs);
  }

  /** A template that is steady over a zone is steady over every smaller one. */
  lemma SteadyOverLess(es: seq<Entry>, zone: set<Key>, less: set<Key>)
    requires Steady(es, zone) && less <= zone
    ensures Steady(es, less)
  {
    forall e | e in es ensures SteadyEntry(es, less, e) {
      assert SteadyEntry(es, zone, e);
    }
  }

  /** Applying the template to the zone it produced changes nothing. */
  lemma Idempotent(o: Opts, es: seq<Entry>, again: Opts)
    requires !o.multiAware && Acceptable(es) && NormalEntries(es) && NoSpfm(es)
    requires Steady(es, KeySet(Normalized(o.zoneRecords)) + EntryKeys(es))
    requires again == o.(zoneRecords := again.zoneRecords)
    requires KeySet(Normalized(again.zoneRecords)) == AppliedKeys(o, es)
    ensures AppliedKeys(again, es) == AppliedKeys(o, es)
  {
    var zone := KeySet(Normalized(o.zoneRecords));
    SteadyOverLess(es, zone + EntryKeys(es), zone);
    TemplateIsApplied(o, es);
    SteadyOverLess(es, zone + EntryKeys(es), AppliedKeys(o, es));
    TemplateIsApplied(again, es);
  }

  // ---------------------------------------------------------------- the deltas on a list

  /** Carrying out the deltas on the list of records: counted removal, then append. */
  ghost function FinalZone(o: Opts, es: seq<Entry>): seq<Record>
    requires Acceptable(es)
  {
    Remove(Normalized(o.zoneRecords), Keys(Result(o, es).toDelete)) + Result(o, es).toAdd
  }

  /** An identity that the zone lists twice, that the template displaces, and that is not in `back`. */
  ghost predicate TwinSurvives(zone: seq<Record>, es: seq<Entry>, back: set<Key>) {
    exists k :: Keys(Normalized(zone))[k] >= 2 && Displaced(es, k) && k !in back
  }

  lemma FinalZoneHolds(o: Opts, es: seq<Entry>, k: Key)
    requires !o.multiAware && Acceptable(es)
    ensures k in KeySet(FinalZone(o, es)) <==>
            k in KeySet(Result(o, es).toAdd) ||
            Keys(Normalized(o.zoneRecords))[k] > (if k in KeySet(Result(o, es).toDelete) then 1 else 0)
  {
    var z, res := Normalized(o.zoneRecords), Result(o, es);
    RemoveKeys(z, Keys(res.toDelete));
    KeysAppend(Remove(z, Keys(res.toDelete)), res.toAdd);
    KeysMembers(FinalZone(o, es), k);
    KeysMembers(res.toAdd, k);
    KeysMembers(res.toDelete, k);
    ReturnedDeltas(o, es, k);
    KeysMembers(Final(o, es).toDelete, k);
  }

  /** The returned log names each identity once, so a displaced twin keeps one copy unless it is
      added again: on the list the deltas reach the applied zone exactly when there is no such twin. */
  lemma FinalZoneByLog(o: Opts, es: seq<Entry>)
    requires !o.multiAware && Acceptable(es) && NormalEntries(es) && NoSpfm(es)
    ensures KeySet(FinalZone(o, es)) == AppliedKeys(o, es) <==>
      !TwinSurvives(o.zoneRecords, es, KeySet(Result(o, es).toAdd))
  {
    var z, res := Normalized(o.zoneRecords), Result(o, es);
    forall k
      ensures k in KeySet(FinalZone(o, es)) <==>
              (k in AppliedKeys(o, es) || (Keys(z)[k] >= 2 && Displaced(es, k) && k !in KeySet(res.toAdd)))
      ensures Keys(z)[k] >= 2 && Displaced(es, k) && k !in KeySet(res.toAdd) ==> k !in AppliedKeys(o, es)
    {
      FinalZoneHolds(o, es, k);
      KeysMembers(z, k);
      if k in KeySet(z) {
        DeletedIffDisplaced(o, es, k);
      }
    }
    if TwinSurvives(o.zoneRecords, es, KeySet(res.toAdd)) {
      var k :| Keys(z)[k] >= 2 && Displaced(es, k) && k !in KeySet(res.toAdd);
      assert k in KeySet(FinalZone(o, es)) && k !in AppliedKeys(o, es);
    }
  }

  /** A steady template adds a displaced original again exactly when one of its records has that identity. */
  lemma DisplacedComesBack(o: Opts, es: seq<Entry>, k: Key)
    requires !o.multiAware && Acceptable(es) && NormalEntries(es) && NoSpfm(es)
    requires Steady(es, KeySet(Normalized(o.zoneRecords)))
    requires k in KeySet(Normalized(o.zoneRecords)) && Displaced(es, k)
    ensures k in KeySet(Result(o, es).toAdd) <==> k in EntryKeys(es)
  {
    AddedWithin(o, es);
    AppliedZone(o, es);
    TemplateIsApplied(o, es);
  }

  /** For a steady template this is a condition on zone and template alone: no displaced identity is
      listed twice, unless the template itself brings it back. */
  lemma FinalZoneIsApplied(o: Opts, es: seq<Entry>)
    requires !o.multiAware && Acceptable(es) && NormalEntries(es) && NoSpfm(es)
    requires Steady(es, KeySet(Normalized(o.zoneRecords)))
    ensures KeySet(FinalZone(o, es)) == AppliedKeys(o, es) <==> !TwinSurvives(o.zoneRecords, es, EntryKeys(es))
  {
    FinalZoneByLog(o, es);
    var z := Normalized(o.zoneRecords);
    forall k | Keys(z)[k] >= 2 && Displaced(es, k)
      ensures k in KeySet(Result(o, es).toAdd) <==> k in EntryKeys(es)
    {
      KeysMembers(z, k);
      DisplacedComesBack(o, es, k);
    }
  }
}
