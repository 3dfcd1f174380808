/** Conflicts among the records that one template produces. */
module Conflicts {
  import opened Text
  import opened Records
  import opened HostNames

  /** A resolved template record; a backing record is an address record behind a redirect. */
  datatype Entry = Entry(rec: Record, mode: string, prefix: string, essential: string, backing: bool)

  datatype Role = Alias | Delegation | Exempt | Other

  function RoleOf(typ: string): Role {
    match KindOf(typ)
    case KCNAME => Alias
    case KNS => Delegation
    case KSPFM | KTXT | KREDIR => Exempt
    case _ => Other
  }

  /** Roles that may not meet at one owner name. */
  predicate RolesClash(a: Role, b: Role) {
    match (a, b)
    case (Exempt, _) => false
    case (_, Exempt) => false
    case (Delegation, Delegation) => false
    case (Other, Other) => false
    case _ => true
  }

  /** Two records that may not share an owner name. */
  predicate Clash(a: Entry, b: Entry) {
    ToLower(a.rec.name) == ToLower(b.rec.name) && RolesClash(RoleOf(a.rec.typ), RoleOf(b.rec.typ))
  }

  const EXEMPT_TYPES := ["TXT", "SPFM", "REDIR301", "REDIR302"]

  /** The rule by type: a CNAME goes with none but the exempt types, an NS with these and other NS. */
  predicate Unfit(a: string, b: string) {
    a !in EXEMPT_TYPES && b !in EXEMPT_TYPES && (a == "CNAME" || b == "CNAME" || (a == "NS") != (b == "NS"))
  }

  lemma RoleByType(typ: string)
    ensures RoleOf(typ) == Exempt <==> typ in EXEMPT_TYPES
    ensures RoleOf(typ) == Alias <==> typ == "CNAME"
    ensures RoleOf(typ) == Delegation <==> typ == "NS"
  {
  }

  lemma ClashByType(a: Entry, b: Entry)
    ensures Clash(a, b) <==> ToLower(a.rec.name) == ToLower(b.rec.name) && Unfit(a.rec.typ, b.rec.typ)
  {
    RoleByType(a.rec.typ);
    RoleByType(b.rec.typ);
  }

  predicate Occludes(ns: Entry, other: Entry) {
    ns.rec.typ == "NS" && other.rec.typ != "NS" && IsChildOf(other.rec.name, ns.rec.name)
  }

  ghost predicate Compatible(es: seq<Entry>) {
    && (forall i, j | 0 <= i < j < |es| :: !Clash(es[i], es[j]))
    && (forall a, b | a in es && b in es :: !Occludes(a, b))
  }

  datatype NameInfo = NameInfo(hasCNAME: bool, hasNS: bool, hasOther: bool)

  /** SameName(i): record i is the first to clash with an earlier one; Below(i, j): record j is under NS i. */
  datatype Conflict = SameName(index: nat) | Below(ns: nat, other: nat)

  ghost predicate HasRole(es: seq<Entry>, name: string, role: Role) {
    exists e | e in es :: ToLower(e.rec.name) == name && RoleOf(e.rec.typ) == role
  }

  function InfoOf(names: map<string, NameInfo>, name: string): NameInfo {
    if name in names then names[name] else NameInfo(false, false, false)
  }

  ghost predicate Summarises(names: map<string, NameInfo>, es: seq<Entry>) {
    forall n ::
      && (InfoOf(names, n).hasCNAME <==> HasRole(es, n, Alias))
      && (InfoOf(names, n).hasNS <==> HasRole(es, n, Delegation))
      && (InfoOf(names, n).hasOther <==> HasRole(es, n, Other))
  }

  ghost predicate ClashFree(es: seq<Entry>) {
    forall i, j | 0 <= i < j < |es| :: !Clash(es[i], es[j])
  }

  lemma HasRoleSnoc(es: seq<Entry>, e: Entry, name: string, role: Role)
    ensures HasRole(es + [e], name, role) <==>
            HasRole(es, name, role) || (ToLower(e.rec.name) == name && RoleOf(e.rec.typ) == role)
  {
    assert forall x :: x in es + [e] <==> x in es || x == e;
  }

  lemma ClashFreeSnoc(es: seq<Entry>, e: Entry)
    requires ClashFree(es)
    ensures ClashFree(es + [e]) <==> forall x | x in es :: !Clash(x, e)
  {
    var all := es + [e];
    if ClashFree(all) {
      forall x | x in es ensures !Clash(x, e) {
        var i :| 0 <= i < |es| && es[i] == x;
        assert !Clash(all[i], all[|es|]);
      }
    }
    if forall x | x in es :: !Clash(x, e) {
      forall i, j | 0 <= i < j < |all| ensures !Clash(all[i], all[j]) {
        assert all[i] == es[i] && es[i] in es;
        if j < |es| { assert all[j] == es[j]; }
      }
    }
  }

  /** A record of the role clashes with one that set a flag. */
  predicate Completes(info: NameInfo, role: Role) {
    match role
    case Alias => info.hasCNAME || info.hasOther || info.hasNS
    case Delegation => info.hasCNAME || info.hasOther
    case Exempt => false
    case Other => info.hasCNAME || info.hasNS
  }

  method CheckFlags(info: NameInfo, role: Role) returns (clash: bool)
    ensures clash <==> Completes(info, role)
  {
    match role {
      case Alias => clash := info.hasCNAME || info.hasOther || info.hasNS;
      case Delegation => clash := info.hasCNAME || info.hasOther;
      case Other => clash := info.hasCNAME || info.hasNS;
      case Exempt => clash := false;
    }
  }

  /** The flags of a name say whether a further record there would clash. */
  lemma FlagsDecide(names: map<string, NameInfo>, es: seq<Entry>, e: Entry)
    requires Summarises(names, es)
    ensures var info := InfoOf(names, ToLower(e.rec.name));
      (exists x | x in es :: Clash(x, e)) <==> Completes(info, RoleOf(e.rec.typ))
  {
    var n := ToLower(e.rec.name);
    assert forall x | x in es && ToLower(x.rec.name) == n :: HasRole(es, n, RoleOf(x.rec.typ));
  }

  function WithRole(info: NameInfo, role: Role): NameInfo {
    match role
    case Alias => info.(hasCNAME := true)
    case Delegation => info.(hasNS := true)
    case Other => info.(hasOther := true)
    case Exempt => info
  }

  lemma SummarisesSnoc(names: map<string, NameInfo>, es: seq<Entry>, e: Entry)
    requires Summarises(names, es)
    ensures var n := ToLower(e.rec.name);
      Summarises(names[n := WithRole(InfoOf(names, n), RoleOf(e.rec.typ))], es + [e])
  {
    forall name, role {
      HasRoleSnoc(es, e, name, role);
    }
  }

  method CheckSameName(resolved: seq<Entry>) returns (c: Option<Conflict>)
    ensures c.None? ==> ClashFree(resolved)
    ensures c.Some? ==> c.value.SameName? && c.value.index < |resolved| &&
                        ClashFree(resolved[..c.value.index]) && !ClashFree(resolved[..c.value.index + 1])
  {
    var names: map<string, NameInfo> := map[];
    for i := 0 to |resolved|
      invariant Summarises(names, resolved[..i])
      invariant ClashFree(resolved[..i])
    {
      var e := resolved[i];
      var n := ToLower(e.rec.name);
      var info := InfoOf(names, n);
      assert resolved[..i + 1] == resolved[..i] + [e];
      ClashFreeSnoc(resolved[..i], e);
      FlagsDecide(names, resolved[..i], e);
      var clash := CheckFlags(info, RoleOf(e.rec.typ));
      if clash {
        return Some(SameName(i));
      }
      SummarisesSnoc(names, resolved[..i], e);
      names := names[n := WithRole(info, RoleOf(e.rec.typ))];
    }
    assert resolved[..|resolved|] == resolved;
    return None;
  }

  lemma ClashFreePrefix(es: seq<Entry>, n: nat)
    requires n <= |es|
    ensures ClashFree(es) ==> ClashFree(es[..n])
  {
    if ClashFree(es) {
      forall i, j | 0 <= i < j < n ensures !Clash(es[..n][i], es[..n][j]) {
        assert !Clash(es[i], es[j]);
      }
    }
  }

  method CheckInternalConflicts(resolved: seq<Entry>) returns (c: Option<Conflict>)
    ensures c.None? <==> Compatible(resolved)
    ensures c.Some? && c.value.Below? ==>
      c.value.ns < |resolved| && c.value.other < |resolved| &&
      ClashFree(resolved) && Occludes(resolved[c.value.ns], resolved[c.value.other])
  {
    c := CheckSameName(resolved);
    if c.Some? {
      ClashFreePrefix(resolved, c.value.index + 1);
      return;
    }
    for i := 0 to |resolved|
      invariant forall a, j | 0 <= a < i && 0 <= j < |resolved| :: !Occludes(resolved[a], resolved[j])
    {
      if resolved[i].rec.typ != "NS" {
        continue;
      }
      for j := 0 to |resolved|
        invariant forall k | 0 <= k < j :: !Occludes(resolved[i], resolved[k])
      {
        ToLowerTwice(resolved[i].rec.name);
        ToLowerTwice(resolved[j].rec.name);
        if resolved[j].rec.typ != "NS" && IsChildOf(ToLower(resolved[j].rec.name), ToLower(resolved[i].rec.name)) {
          assert Occludes(resolved[i], resolved[j]);
          return Some(Below(i, j));
        }
      }
    }
  }

  ghost predicate NoPair(es: seq<Entry>, bad: (Entry, Entry) -> bool) {
    forall i, j | 0 <= i < j < |es| :: !bad(es[i], es[j])
  }

  /** Whether the records of a template clash does not depend on their order. */
  lemma CompatibleIgnoresOrder(es: seq<Entry>, fs: seq<Entry>)
    requires multiset(es) == multiset(fs) && Compatible(es)
    ensures Compatible(fs)
  {
    SameMembers(es, fs);
    NoPairIgnoresOrder(es, fs, (a, b) => Clash(a, b));
    forall i, j | 0 <= i < j < |fs| ensures !Clash(fs[i], fs[j]) {
      assert !((a, b) => Clash(a, b))(fs[i], fs[j]);
    }
  }

  lemma SameMembers(es: seq<Entry>, fs: seq<Entry>)
    requires multiset(es) == multiset(fs)
    ensures forall e :: e in es <==> e in fs
  {
    forall e ensures e in es <==> e in fs {
      assert e in multiset(es) <==> e in multiset(fs);
    }
  }

  lemma NoPairIgnoresOrder(es: seq<Entry>, fs: seq<Entry>, bad: (Entry, Entry) -> bool)
    requires multiset(es) == multiset(fs) && NoPair(es, bad)
    requires forall a, b :: bad(a, b) == bad(b, a)
    ensures NoPair(fs, bad)
  {
    forall i, j | 0 <= i < j < |fs| ensures !bad(fs[i], fs[j]) {
      PairInBoth(es, fs, bad, i, j);
    }
  }

  lemma PairInBoth(es: seq<Entry>, fs: seq<Entry>, bad: (Entry, Entry) -> bool, i: nat, j: nat)
    requires multiset(es) == multiset(fs) && i < j < |fs| && NoPair(es, bad)
    requires forall a, b :: bad(a, b) == bad(b, a)
    ensures !bad(fs[i], fs[j])
  {
    var a, b := fs[i], fs[j];
    SameMembers(es, fs);
    assert a in fs && b in fs;
    var p :| 0 <= p < |es| && es[p] == a;
    var q: nat;
    if a != b {
      q :| 0 <= q < |es| && es[q] == b;
    } else {
      TwiceInMultiset(fs, i, j);
      q := OtherPosition(es, p);
    }
    assert !bad(es[if p < q then p else q], es[if p < q then q else p]);
  }

  lemma TwiceInMultiset(s: seq<Entry>, i: nat, j: nat)
    requires i < j < |s| && s[i] == s[j]
    ensures multiset(s)[s[i]] >= 2
  {
    assert s == s[..j] + s[j..];
    assert s[..j][i] == s[i] && s[j..][0] == s[i];
    assert multiset(s) == multiset(s[..j]) + multiset(s[j..]);
    assert s[i] in multiset(s[..j]) && s[i] in multiset(s[j..]);
  }

  lemma OtherPosition(s: seq<Entry>, p: nat) returns (q: nat)
    requires p < |s| && multiset(s)[s[p]] >= 2
    ensures q < |s| && q != p && s[q] == s[p]
  {
    var rest := s[..p] + s[p + 1..];
    assert s == s[..p] + [s[p]] + s[p + 1..];
    assert multiset(s) == multiset(rest) + multiset{s[p]};
    assert s[p] in multiset(rest);
    var k :| 0 <= k < |rest| && rest[k] == s[p];
    q := if k < p then k else k + 1;
  }

  // ---------------------------------------------------------------- the two spellings of the apex

  /** The same clash, at one name of the zone: there "" and "@" both mean the apex. */
  predicate ZoneClash(a: Entry, b: Entry) {
    NameEq(a.rec.name, b.rec.name) && RolesClash(RoleOf(a.rec.typ), RoleOf(b.rec.typ))
  }

  /** What the check is for: no clash at a zone name and nothing below a delegation. */
  ghost predicate ZoneCompatible(es: seq<Entry>) {
    && (forall i, j | 0 <= i < j < |es| :: !ZoneClash(es[i], es[j]))
    && (forall a, b | a in es && b in es :: !Occludes(a, b))
  }

  /** Two records with clashing roles at the apex, one spelled "" and one spelled "@". */
  ghost predicate MixedApex(es: seq<Entry>) {
    exists a, b | a in es && b in es ::
      a.rec.name == "" && b.rec.name == "@" && RolesClash(RoleOf(a.rec.typ), RoleOf(b.rec.typ))
  }

  lemma MixedPair(es: seq<Entry>, i: nat, j: nat)
    requires i < j < |es| && ZoneClash(es[i], es[j])
    ensures Clash(es[i], es[j]) || MixedApex(es)
  {
    ApexSpellings(es[i].rec.name, es[j].rec.name);
    assert es[i] in es && es[j] in es;
  }

  /** The check accepts a template that is compatible in the zone, and accepts another one exactly when
      its only clashes are between the two spellings of the apex. */
  lemma AcceptanceIsZoneCompatibility(es: seq<Entry>)
    ensures ZoneCompatible(es) <==> Compatible(es) && !MixedApex(es)
  {
    if ZoneCompatible(es) {
      forall i, j | 0 <= i < j < |es| ensures !Clash(es[i], es[j]) {
        assert !ZoneClash(es[i], es[j]);
      }
      if MixedApex(es) {
        var a, b :| a in es && b in es && a.rec.name == "" && b.rec.name == "@" &&
          RolesClash(RoleOf(a.rec.typ), RoleOf(b.rec.typ));
        ApexSpellings(a.rec.name, b.rec.name);
        var i :| 0 <= i < |es| && es[i] == a;
        var j :| 0 <= j < |es| && es[j] == b;
        assert ZoneClash(es[if i < j then i else j], es[if i < j then j else i]);
      }
    }
    if Compatible(es) && !MixedApex(es) {
      forall i, j | 0 <= i < j < |es| ensures !ZoneClash(es[i], es[j]) {
        if ZoneClash(es[i], es[j]) {
          MixedPair(es, i, j);
        }
      }
    }
  }

  lemma AcceptedApart(ns: Entry, a: Entry)
    requires ns.rec.name == "" && ns.rec.typ == "NS" && a.rec.name == "@" && a.rec.typ == "A"
    ensures Compatible([ns, a]) && !ZoneCompatible([ns, a])
  {
    var es := [ns, a];
    LowersToApex("");
    LowersToApex("@");
    assert !Clash(ns, a) && !Occludes(ns, a) && !Occludes(ns, ns);
    assert es[0] == ns && es[1] == a;
    assert MixedApex(es) by {
      assert ns in es && a in es;
    }
    AcceptanceIsZoneCompatibility(es);
  }

  /** In every zone there are templates that the check lets through: the hosts "." + domain + "." and "@"
      resolve to the two spellings of the apex, so an NS and an address record there are accepted. */
  lemma ApexSpellingsEscapeTheCheck(domain: string) returns (ns: Entry, a: Entry)
    ensures ResolveHostName("." + domain + ".", "", domain) == Some(ns.rec.name)
    ensures ResolveHostName("@", "", domain) == Some(a.rec.name)
    ensures ns.rec.typ == "NS" && a.rec.typ == "A" && Compatible([ns, a]) && !ZoneCompatible([ns, a])
  {
    ns := Entry(Record("NS", "", "ns1.example.net", 0, 0, 0, 0, "", "", None), "", "", "", false);
    a := Entry(Record("A", "@", "192.0.2.1", 0, 0, 0, 0, "", "", None), "", "", "", false);
    DottedDomainIsEmpty(domain);
    AcceptedApart(ns, a);
  }
}
