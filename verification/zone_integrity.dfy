/** DNS integrity of the applied zone: nothing under a delegation, no company for an alias. */
module ZoneIntegrity {
  import opened Text
  import opened Records
  import opened RecordLists
  import opened Spfm
  import opened Conflicts
  import opened ZoneApply
  import opened Process
  import opened ZoneMeaning
  import opened ZoneTheorems

  // ---------------------------------------------------------------- delegations

  predicate IsDelegation(e: Entry) {
    !e.backing && e.rec.typ == "NS"
  }

  /** A non-NS identity strictly below the owner name of delegation `e`. */
  predicate IsOccluded(e: Entry, k: Key) {
    KindOf(k.typ) != KNS && IsChildOf(k.name, e.rec.name)
  }

  /** The deletions of a call, up to the candidates that restoration takes back. */
  lemma DeletionsSurvive(o: Opts, es: seq<Entry>, k: Key)
    requires Acceptable(es)
    requires var w := Start(o); k in KeySet(Run(w, es, KeySet(w.zone)).toDelete)
    ensures k in KeySet(Result(o, es).toDelete) || k in KeySet(Candidates(o))
  {
    var w := Start(o);
    var done, final := Run(w, es, KeySet(w.zone)), Final(o, es);
    CandidatesAreDeleted(o, es);
    RestorationIsAllOrNothing(o, es);
    KeysMembers(done.toDelete, k);
    KeysMembers(final.toDelete, k);
    KeysMembers(Candidates(o), k);
    DedupKeySet(final.toDelete);
    assert Keys(final.toDelete)[k] + Keys(Candidates(o))[k] >= Keys(done.toDelete)[k];
  }

  lemma StartIsNormal(o: Opts)
    ensures AllNormal(Start(o).zone) && Start(o).toAdd == []
  {
    NormalizedIsNormal(o.zoneRecords);
    CutNormal(Work(Normalized(o.zoneRecords), [], []), SupersededTest(o));
  }

  /** Every original that a template record displaces is deleted, or is restored on purpose. */
  lemma DisplacedIsDeleted(o: Opts, es: seq<Entry>, k: Key)
    requires Acceptable(es) && NormalEntries(es)
    requires k in KeySet(Normalized(o.zoneRecords)) && Displaced(es, k)
    ensures k in KeySet(Result(o, es).toDelete) || k in KeySet(Candidates(o))
  {
    var z, w := Normalized(o.zoneRecords), Start(o);
    StartIsNormal(o);
    if k in KeySet(w.zone) {
      RunDeletesDisplaced(w, es, KeySet(w.zone), k);
    } else {
      var p := SupersededTest(o);
      if k !in KeySet(Filter(p, z)) {
        SurvivesCut(Work(z, [], []), p, k);
        assert false;
      }
      RunKeepsDeletions(w, es, KeySet(w.zone));
      var r :| r in Filter(p, z) && KeyOf(r) == k;
      assert r in w.toDelete;
      assert r in Run(w, es, KeySet(w.zone)).toDelete;
    }
    DeletionsSurvive(o, es, k);
  }

  lemma LoggedStems(o: Opts, es: seq<Entry>, r: Record)
    requires r in Final(o, es).toAdd
    ensures Stems(es, r)
  {
    var w := Start(o);
    StartIsNormal(o);
    RestorationIsAllOrNothing(o, es);
    RunAdds(w, es, KeySet(w.zone));
  }

  lemma AddedWasLogged(o: Opts, es: seq<Entry>, k: Key) returns (r: Record)
    requires Acceptable(es) && k in KeySet(Result(o, es).toAdd)
    ensures r in Final(o, es).toAdd && KeyOf(r) == k
  {
    ReturnedDeltas(o, es, k);
    KeysMembers(Result(o, es).toAdd, k);
    r :| r in Final(o, es).toAdd && KeyOf(r) == k;
  }

  predicate NamedBy(e: Entry, k: Key) {
    k.name == ToLower(e.rec.name) && (k.typ == e.rec.typ || (KindOf(e.rec.typ) == KSPFM && k.typ == "TXT"))
  }

  /** What is added stems from the template. */
  lemma AddedStems(o: Opts, es: seq<Entry>, k: Key) returns (e: Entry)
    requires Acceptable(es) && NormalEntries(es) && k in KeySet(Result(o, es).toAdd)
    ensures e in es && NamedBy(e, k)
  {
    var r := AddedWasLogged(o, es, k);
    LoggedStems(o, es, r);
    e :| e in es && AddedFor(e, r);
    assert ToUpper("TXT") == "TXT";
  }

  lemma AddedNotOccluded(o: Opts, es: seq<Entry>, e: Entry, k: Key)
    requires Acceptable(es) && NormalEntries(es)
    requires e in es && IsDelegation(e) && k in KeySet(Result(o, es).toAdd)
    ensures !IsOccluded(e, k)
  {
    var f := AddedStems(o, es, k);
    ToLowerTwice(f.rec.name);
    assert !Occludes(e, f);
  }

  /** No accepted template leaves a record below one of its delegations, whatever the zone and the
      order -- except records of another service that restoration put back. */
  lemma NothingBelowDelegations(o: Opts, es: seq<Entry>, e: Entry, k: Key)
    requires Acceptable(es) && NormalEntries(es)
    requires e in es && IsDelegation(e)
    ensures k in AppliedKeys(o, es) && IsOccluded(e, k) ==> o.multiAware && k in KeySet(Candidates(o))
  {
    if k in KeySet(Result(o, es).toAdd) {
      AddedNotOccluded(o, es, e, k);
    } else if k in AppliedKeys(o, es) && IsOccluded(e, k) {
      assert Matches(e, k);
      DisplacedIsDeleted(o, es, k);
    }
  }

  // ---------------------------------------------------------------- aliases

  /** A CNAME shares its name with NS records only; compare section 3.6.2 of RFC 1034. */
  ghost predicate AliasesAlone(ks: set<Key>) {
    forall k, l | k in ks && l in ks && k != l && KindOf(k.typ) == KCNAME && NameEq(k.name, l.name) ::
      KindOf(l.typ) == KNS
  }

  function AliasAt(name: string, target: string): Key {
    Key("CNAME", ToLower(name), target, 0, 0, 0, 0, "", "")
  }

  /** Template record `f` brings company only to names from which the template clears aliases. */
  ghost predicate ClearsAliases(es: seq<Entry>, f: Entry) {
    KindOf(f.rec.typ) == KNS || Displaced(es, AliasAt(f.rec.name, ""))
  }

  /** A record of a type the rules do not name: only what clears a whole name displaces it. */
  function OtherAt(name: string): Key {
    Key("CAA", ToLower(name), "", 0, 0, 0, 0, "", "")
  }

  /** A backing alias is put without any rule, so another record has to clear its name. */
  ghost predicate ClearsName(es: seq<Entry>, f: Entry) {
    KindOf(f.rec.typ) == KCNAME ==> Displaced(es, OtherAt(f.rec.name))
  }

  lemma ClearedOfAll(es: seq<Entry>, f: Entry, l: Key)
    requires f in es && ClearsName(es, f) && KindOf(f.rec.typ) == KCNAME
    requires NameEq(l.name, f.rec.name) && !Displaced(es, l)
    ensures KindOf(l.typ) == KNS
  {
    if KindOf(l.typ) != KNS {
      OtherDisplacesAll(es, f.rec.name, l);
    }
  }

  lemma OtherDisplacesAll(es: seq<Entry>, name: string, l: Key)
    requires Displaced(es, OtherAt(name)) && NameEq(l.name, name) && KindOf(l.typ) != KNS
    ensures Displaced(es, l)
  {
    var e :| e in es && Matches(e, OtherAt(name));
    OtherIsLikeAll(e, name, l);
  }

  /** What displaces a record of another type displaces everything at the name but NS records. */
  lemma OtherIsLikeAll(e: Entry, name: string, l: Key)
    requires Matches(e, OtherAt(name)) && NameEq(l.name, name) && KindOf(l.typ) != KNS
    ensures Matches(e, l)
  {
    ToLowerTwice(name);
    SameBelow(l.name, ToLower(name), e.rec.name);
    SameKindOfMatch(e, OtherAt(name), l);
  }

  lemma SameKindOfMatch(e: Entry, k: Key, l: Key)
    requires Matches(e, k) && KindOf(k.typ) == KCustom && KindOf(l.typ) != KNS
    requires NameEq(k.name, l.name) && (IsChildOf(k.name, e.rec.name) == IsChildOf(l.name, e.rec.name))
    ensures Matches(e, l)
  {
  }

  lemma AliasTargetIrrelevant(es: seq<Entry>, k: Key, l: Key)
    requires KindOf(k.typ) == KCNAME && KindOf(l.typ) == KCNAME && NameEq(k.name, l.name)
    requires Displaced(es, k)
    ensures Displaced(es, l)
  {
    var e :| e in es && Matches(e, k);
    SameBelow(k.name, l.name, e.rec.name);
    AliasLikeAlias(e, k, l);
  }

  lemma AliasLikeAlias(e: Entry, k: Key, l: Key)
    requires Matches(e, k) && k.typ == "CNAME" && l.typ == "CNAME" && NameEq(k.name, l.name)
    requires IsChildOf(k.name, e.rec.name) == IsChildOf(l.name, e.rec.name)
    ensures Matches(e, l)
  {
  }

  lemma KindOfKey(r: Record)
    requires Normal(r)
    ensures KindOf(KeyOf(r).typ) == KindOf(r.typ)
    ensures CanonicalName(KeyOf(r).name) == CanonicalName(r.name)
  {
    ToLowerTwice(r.name);
  }

  /** A template record beside an alias that stays. */
  lemma NewNeighbour(es: seq<Entry>, f: Entry, k: Key)
    requires f in es && Normal(f.rec) && ClearsAliases(es, f) && !Displaced(es, k)
    requires KindOf(k.typ) == KCNAME && NameEq(k.name, f.rec.name)
    ensures KindOf(f.rec.typ) == KNS
  {
    if KindOf(f.rec.typ) != KNS {
      ToLowerTwice(f.rec.name);
      AliasTargetIrrelevant(es, AliasAt(f.rec.name, ""), k);
    }
  }

  function Plain(zone: seq<Record>): Opts {
    Opts(zone, false, false, "", "", "", "")
  }

  ghost predicate KeepsAliasesAlone(es: seq<Entry>)
    requires Acceptable(es)
  {
    forall zone: seq<Record> :: AliasesAlone(KeySet(Normalized(zone))) ==> AliasesAlone(AppliedKeys(Plain(zone), es))
  }

  /** Where an identity of the applied zone comes from. */
  lemma AppliedFrom(es: seq<Entry>, zone: seq<Record>, k: Key) returns (e: Option<Entry>)
    requires Acceptable(es) && NormalEntries(es) && k in AppliedKeys(Plain(zone), es)
    ensures e.None? ==> k in KeySet(Normalized(zone)) && !Displaced(es, k)
    ensures e.Some? ==>
      e.value in es && NamedBy(e.value, k) &&
      (k == KeyOf(e.value.rec) || KindOf(e.value.rec.typ) == KSPFM)
  {
    var o := Plain(zone);
    if k in KeySet(Result(o, es).toAdd) {
      var r := AddedWasLogged(o, es, k);
      LoggedStems(o, es, r);
      var f :| f in es && AddedFor(f, r);
      assert ToUpper("TXT") == "TXT";
      e := Some(f);
    } else {
      DeletedIffDisplaced(o, es, k);
      e := None;
    }
  }

  lemma NamedHere(e: Entry, k: Key)
    requires NamedBy(e, k)
    ensures NameEq(k.name, e.rec.name)
    ensures KindOf(k.typ) == KCNAME ==> KindOf(e.rec.typ) == KCNAME
    ensures KindOf(e.rec.typ) == KNS ==> KindOf(k.typ) == KNS
  {
    ToLowerTwice(e.rec.name);
  }

  lemma TwoEntries(es: seq<Entry>, e: Entry, f: Entry, k: Key, l: Key)
    requires NormalEntries(es) && AliasesAlone(EntryKeys(es)) && e in es && f in es && k != l
    requires k == KeyOf(e.rec) && KindOf(k.typ) == KCNAME && NameEq(e.rec.name, f.rec.name)
    requires l == KeyOf(f.rec) || KindOf(f.rec.typ) == KSPFM
    ensures KindOf(f.rec.typ) == KNS
  {
    KindOfKey(e.rec);
    KindOfKey(f.rec);
    assert k in EntryKeys(es) && KeyOf(f.rec) in EntryKeys(es);
  }

  lemma StayAlone(es: seq<Entry>, zone: seq<Record>, k: Key, l: Key)
    requires Acceptable(es) && NormalEntries(es) && AliasesAlone(KeySet(Normalized(zone)))
    requires AliasesAlone(EntryKeys(es)) && forall f | f in es :: ClearsAliases(es, f) && ClearsName(es, f)
    requires k in AppliedKeys(Plain(zone), es) && l in AppliedKeys(Plain(zone), es) && k != l
    requires KindOf(k.typ) == KCNAME && NameEq(k.name, l.name)
    ensures KindOf(l.typ) == KNS
  {
    var from := AppliedFrom(es, zone, k);
    var other := AppliedFrom(es, zone, l);
    if from.Some? {
      NamedHere(from.value, k);
    }
    if other.Some? {
      NamedHere(other.value, l);
    }
    if from.Some? && other.Some? {
      TwoEntries(es, from.value, other.value, k, l);
    } else if from.Some? {
      ClearedOfAll(es, from.value, l);
    } else if other.Some? {
      NewNeighbour(es, other.value, k);
    }
  }

  lemma PutsInto(es: seq<Entry>, zone: seq<Record>, f: Entry) returns (k: Key)
    requires Acceptable(es) && NormalEntries(es) && f in es
    requires forall k | k in KeySet(Normalized(zone)) :: KindOf(k.typ) == KCNAME
    ensures k in AppliedKeys(Plain(zone), es) && PutKey(f, k)
  {
    var z := Normalized(zone);
    NormalizedIsNormal(zone);
    PlainResult(Plain(zone), es);
    k := RunPuts(Work(z, [], []), es, KeySet(z), f);
  }

  lemma OneSurvives(es: seq<Entry>, zone: seq<Record>, k: Key)
    requires Acceptable(es) && NormalEntries(es)
    requires k in KeySet(Normalized(zone)) && k.typ != "TXT" && !Displaced(es, k)
    ensures k in AppliedKeys(Plain(zone), es)
  {
    DeletedIffDisplaced(Plain(zone), es, k);
  }

  /** A CNAME record with identity AliasAt(name, target). */
  lemma AliasZone(name: string, target: string) returns (zone: seq<Record>)
    requires ToLower(target) == target
    ensures KeySet(Normalized(zone)) == {AliasAt(name, target)}
  {
    var alias := Record("CNAME", ToLower(name), target, 0, 0, 0, 0, "", "", None);
    ToLowerTwice(name);
    assert ToUpper("CNAME") == "CNAME";
    assert NormalizeRecord(alias) == alias && KeyOf(alias) == AliasAt(name, target);
    zone := [alias];
    assert Normalized(zone) == zone;
  }

  /** A record with identity OtherAt(name). */
  lemma OtherZone(name: string) returns (zone: seq<Record>)
    ensures KeySet(Normalized(zone)) == {OtherAt(name)}
  {
    var other := Record("CAA", ToLower(name), "", 0, 0, 0, 0, "", "", None);
    ToLowerTwice(name);
    assert ToUpper("CAA") == "CAA";
    assert NormalizeRecord(other) == other && KeyOf(other) == OtherAt(name);
    zone := [other];
    assert Normalized(zone) == zone;
  }

  lemma BackingIsAdded(es: seq<Entry>, zone: seq<Record>, f: Entry)
    requires Acceptable(es) && f in es && AlwaysAdded(f)
    ensures KeyOf(f.rec) in AppliedKeys(Plain(zone), es)
  {
    var z := Normalized(zone);
    PlainResult(Plain(zone), es);
    RunAdds(Work(z, [], []), es, KeySet(z));
    assert f.rec in Run(Work(z, [], []), es, KeySet(z)).toAdd;
  }

  lemma OtherSurvives(es: seq<Entry>, name: string) returns (zone: seq<Record>)
    requires Acceptable(es) && NormalEntries(es) && KeepsAliasesAlone(es) && !Displaced(es, OtherAt(name))
    ensures OtherAt(name) in AppliedKeys(Plain(zone), es) && AliasesAlone(AppliedKeys(Plain(zone), es))
  {
    zone := OtherZone(name);
    OneSurvives(es, zone, OtherAt(name));
    assert AliasesAlone(KeySet(Normalized(zone)));
  }

  lemma OtherIsNoAlias(f: Entry, l: Key)
    requires Normal(f.rec) && KindOf(f.rec.typ) == KCNAME && l == OtherAt(f.rec.name)
    ensures KindOf(KeyOf(f.rec).typ) == KCNAME && KindOf(l.typ) == KCustom && NameEq(KeyOf(f.rec).name, l.name)
  {
    KindOfKey(f.rec);
    ToLowerTwice(f.rec.name);
  }

  /** A zone with one record of another type shows that the names of the template's aliases must be cleared. */
  lemma CrowdedName(es: seq<Entry>, f: Entry)
    requires Acceptable(es) && NormalEntries(es) && KeepsAliasesAlone(es) && f in es
    ensures ClearsName(es, f)
  {
    var l := OtherAt(f.rec.name);
    if KindOf(f.rec.typ) == KCNAME && !Displaced(es, l) {
      var zone := OtherSurvives(es, f.rec.name);
      BackingIsAdded(es, zone, f);
      OtherIsNoAlias(f, l);
    }
  }

  lemma NotAlone(ks: set<Key>, k: Key, l: Key)
    requires AliasesAlone(ks) && k in ks && l in ks && k != l
    requires KindOf(k.typ) == KCNAME && NameEq(k.name, l.name)
    ensures KindOf(l.typ) == KNS
  {
  }

  lemma PutKind(f: Entry, k: Key)
    requires Normal(f.rec) && PutKey(f, k) && KindOf(k.typ) == KNS
    ensures KindOf(f.rec.typ) == KNS
  {
    KindOfKey(f.rec);
  }

  /** A zone with one alias shows that the template must clear it from the names it uses. */
  lemma CrowdedAlias(es: seq<Entry>, f: Entry)
    requires Acceptable(es) && NormalEntries(es) && KeepsAliasesAlone(es) && f in es
    ensures ClearsAliases(es, f)
  {
    var target := ToLower(f.rec.content + "x");
    ToLowerTwice(f.rec.content + "x");
    ToLowerTwice(f.rec.name);
    var zone := AliasZone(f.rec.name, target);
    var k := AliasAt(f.rec.name, target);
    if Displaced(es, k) {
      AliasTargetIrrelevant(es, k, AliasAt(f.rec.name, ""));
    } else {
      OneSurvives(es, zone, k);
      assert AliasesAlone(KeySet(Normalized(zone)));
      var l := PutsInto(es, zone, f);
      PutElsewhere(f, k, l);
      NotAlone(AppliedKeys(Plain(zone), es), k, l);
      PutKind(f, l);
    }
  }

  lemma PutElsewhere(f: Entry, k: Key, l: Key)
    requires Normal(f.rec) && PutKey(f, l) && KindOf(k.typ) == KCNAME && |k.content| != |f.rec.content|
    ensures k != l
  {
  }

  /** The empty zone shows that the template's own aliases are alone. */
  lemma OwnAliasAlone(es: seq<Entry>, e: Entry, f: Entry)
    requires Acceptable(es) && NormalEntries(es) && KeepsAliasesAlone(es) && e in es && f in es
    requires KeyOf(e.rec) != KeyOf(f.rec) && KindOf(e.rec.typ) == KCNAME && NameEq(e.rec.name, f.rec.name)
    ensures KindOf(f.rec.typ) == KNS
  {
    assert KeySet(Normalized([])) == {};
    var k := PutsInto(es, [], e);
    var l := PutsInto(es, [], f);
    KindOfKey(e.rec);
    KindOfKey(f.rec);
    assert k == KeyOf(e.rec);
    NotAlone(AppliedKeys(Plain([]), es), k, l);
    PutKind(f, l);
  }

  lemma OwnAliasesAlone(es: seq<Entry>)
    requires Acceptable(es) && NormalEntries(es) && KeepsAliasesAlone(es)
    ensures AliasesAlone(EntryKeys(es))
  {
    forall k, l | k in EntryKeys(es) && l in EntryKeys(es) && k != l && KindOf(k.typ) == KCNAME &&
      NameEq(k.name, l.name)
      ensures KindOf(l.typ) == KNS
    {
      var e :| e in es && KeyOf(e.rec) == k;
      var f :| f in es && KeyOf(f.rec) == l;
      KindOfKey(e.rec);
      KindOfKey(f.rec);
      OwnAliasAlone(es, e, f);
    }
  }

  /** Exactly which accepted templates keep aliases alone in every zone: those whose own aliases are alone, which
      clear aliases from every name they put another record at, and everything from the names of their aliases. */
  lemma AliasesStayAloneIff(es: seq<Entry>)
    requires Acceptable(es) && NormalEntries(es)
    ensures KeepsAliasesAlone(es) <==>
            AliasesAlone(EntryKeys(es)) && forall f | f in es :: ClearsAliases(es, f) && ClearsName(es, f)
  {
    if KeepsAliasesAlone(es) {
      OwnAliasesAlone(es);
      forall f | f in es ensures ClearsAliases(es, f) && ClearsName(es, f) {
        CrowdedAlias(es, f);
        CrowdedName(es, f);
      }
    }
    if AliasesAlone(EntryKeys(es)) && forall f | f in es :: ClearsAliases(es, f) && ClearsName(es, f) {
      forall zone: seq<Record>, k, l | AliasesAlone(KeySet(Normalized(zone))) &&
        k in AppliedKeys(Plain(zone), es) && l in AppliedKeys(Plain(zone), es) && k != l &&
        KindOf(k.typ) == KCNAME && NameEq(k.name, l.name)
        ensures KindOf(l.typ) == KNS
      {
        StayAlone(es, zone, k, l);
      }
    }
  }

  // ---------------------------------------------------------------- address templates

  predicate Redirects(e: Entry) {
    !e.backing && KindOf(e.rec.typ) == KREDIR
  }

  predicate IsAddress(e: Entry) {
    KindOf(e.rec.typ) == KA || KindOf(e.rec.typ) == KAAAA
  }

  ghost predicate Redirected(es: seq<Entry>, name: string) {
    exists e | e in es :: Redirects(e) && ToLower(e.rec.name) == ToLower(name)
  }

  ghost predicate Backed(es: seq<Entry>, name: string) {
    exists e | e in es :: e.backing && ToLower(e.rec.name) == ToLower(name)
  }

  /** What resolution guarantees of each record of an address template: an alias is not at the
      apex, an apex alias is, and redirects and their backing addresses share their name up to case. */
  ghost predicate AddressEntry(es: seq<Entry>, e: Entry) {
    if e.backing then IsAddress(e) && Redirected(es, e.rec.name)
    else match KindOf(e.rec.typ)
      case KA | KAAAA | KNS => true
      case KCNAME => CanonicalName(e.rec.name) != "@"
      case KAPEXCNAME => e.rec.name == "@"
      case KREDIR => Backed(es, e.rec.name)
      case _ => false
  }

  ghost predicate AddressTemplate(es: seq<Entry>) {
    forall e | e in es :: AddressEntry(es, e)
  }

  lemma EntriesDontClash(es: seq<Entry>, e: Entry, f: Entry)
    requires Compatible(es) && e in es && f in es && e != f
    ensures !Clash(e, f)
  {
    var i :| 0 <= i < |es| && es[i] == e;
    var j :| 0 <= j < |es| && es[j] == f;
    assert !Clash(es[if i < j then i else j], es[if i < j then j else i]);
  }

  lemma BackingOf(es: seq<Entry>, f: Entry) returns (b: Entry)
    requires AddressTemplate(es) && f in es && Redirects(f)
    ensures b in es && IsAddress(b) && ToLower(b.rec.name) == ToLower(f.rec.name)
  {
    assert AddressEntry(es, f);
    b :| b in es && b.backing && ToLower(b.rec.name) == ToLower(f.rec.name);
    assert AddressEntry(es, b);
  }

  lemma AliasElsewhere(e: Entry, f: Entry)
    requires RoleOf(e.rec.typ) == Alias && RoleOf(f.rec.typ) != Exempt && !Clash(e, f)
    ensures ToLower(e.rec.name) != ToLower(f.rec.name)
  {
  }

  /** The role of an address template's record, other than a redirect. */
  lemma AddressRole(es: seq<Entry>, f: Entry)
    requires AddressTemplate(es) && f in es && !Redirects(f)
    ensures RoleOf(f.rec.typ) != Exempt
  {
    assert AddressEntry(es, f);
  }

  /** No other template record is at the name of a template alias. */
  lemma TemplateAliasAlone(es: seq<Entry>, e: Entry, f: Entry)
    requires Compatible(es) && AddressTemplate(es)
    requires e in es && f in es && e != f && KindOf(e.rec.typ) == KCNAME
    ensures !NameEq(e.rec.name, f.rec.name)
  {
    var g := f;
    if Redirects(f) {
      g := BackingOf(es, f);
    } else {
      AddressRole(es, f);
    }
    EntriesDontClash(es, e, g);
    AliasElsewhere(e, g);
    assert AddressEntry(es, e);
  }

  lemma RedirectMatchesAlias(g: Entry, k: Key)
    requires Redirects(g) && KindOf(k.typ) == KCNAME && NameEq(k.name, g.rec.name)
    ensures Matches(g, k)
  {
  }

  lemma AddressMatchesAlias(f: Entry, k: Key)
    requires !f.backing && (IsAddress(f) || KindOf(f.rec.typ) in {KCNAME, KREDIR, KAPEXCNAME})
    requires KindOf(k.typ) == KCNAME && NameEq(k.name, f.rec.name) &&
      (KindOf(f.rec.typ) == KAPEXCNAME ==> f.rec.name == "@")
    ensures Matches(f, k)
  {
  }

  lemma AddressClearsAliases(es: seq<Entry>, f: Entry)
    requires AddressTemplate(es) && f in es
    ensures ClearsAliases(es, f)
  {
    assert AddressEntry(es, f);
    var k := AliasAt(f.rec.name, "");
    ToLowerTwice(f.rec.name);
    if f.backing {
      var g :| g in es && Redirects(g) && ToLower(g.rec.name) == ToLower(f.rec.name);
      RedirectMatchesAlias(g, k);
    } else if KindOf(f.rec.typ) != KNS {
      AddressMatchesAlias(f, k);
    }
  }

  /** An alias with conflict rules clears its name itself. */
  lemma AliasClearsName(es: seq<Entry>, f: Entry)
    requires AddressTemplate(es) && f in es
    ensures ClearsName(es, f)
  {
    assert AddressEntry(es, f);
    ToLowerTwice(f.rec.name);
    if KindOf(f.rec.typ) == KCNAME {
      assert Matches(f, OtherAt(f.rec.name));
    }
  }

  /** Templates of addresses, aliases, delegations and redirects are among them. */
  lemma AddressTemplatesQualify(es: seq<Entry>)
    requires Acceptable(es) && NormalEntries(es) && AddressTemplate(es)
    ensures KeepsAliasesAlone(es)
  {
    forall k, l | k in EntryKeys(es) && l in EntryKeys(es) && k != l && KindOf(k.typ) == KCNAME
      ensures !NameEq(k.name, l.name)
    {
      var e :| e in es && KeyOf(e.rec) == k;
      var f :| f in es && KeyOf(f.rec) == l;
      KindOfKey(e.rec);
      KindOfKey(f.rec);
      TemplateAliasAlone(es, e, f);
    }
    forall f | f in es ensures ClearsAliases(es, f) && ClearsName(es, f) {
      AddressClearsAliases(es, f);
      AliasClearsName(es, f);
    }
    AliasesStayAloneIff(es);
  }
}
