/** How many SPF records a template that merges leaves at a name. A domain with more than one is an error for
    every receiver; compare section 4.5 of RFC 7208. */
module SpfApplied {
  import opened Text
  import opened Records
  import opened RecordLists
  import opened Spfm
  import opened Conflicts
  import opened ZoneApply
  import opened Process
  import opened ZoneMeaning
  import opened ZoneTheorems
  import opened SpfZone
  import opened ZoneSettings

  // ---------------------------------------------------------------- the texts a record goes through

  function FirstText(rules: string): string {
    SPF_PREFIX + rules + " ~all"
  }

  /** The texts of a record after one more rule: a merge looks at the last one. */
  function MergedTexts(texts: seq<string>, rule: string): (more: seq<string>)
    ensures texts <= more
  {
    if texts == [] then [FirstText(rule)]
    else if Contains(texts[|texts| - 1], rule) then texts
    else texts + [MergeRules(texts[|texts| - 1], rule)]
  }

  /** The texts that merging one rule after the other makes of those before. */
  function Chain(before: seq<string>, rules: seq<string>): (texts: seq<string>)
    ensures before <= texts
  {
    if rules == [] then before
    else MergedTexts(Chain(before, rules[..|rules| - 1]), rules[|rules| - 1])
  }

  /** The rules that a template merges at a name, in order. */
  function RulesAt(name: string, es: seq<Entry>): seq<string> {
    if es == [] then []
    else
      var e := es[|es| - 1];
      RulesAt(name, es[..|es| - 1]) + if Merges(name, e) then [e.rec.content] else []
  }

  function Texts(s: seq<Record>): (t: seq<string>)
    ensures |t| == |s|
  {
    seq(|s|, i requires 0 <= i < |s| => s[i].content)
  }

  lemma MergeGrows(content: string, rules: string)
    ensures |content| < |MergeRules(content, rules)|
  {
  }

  predicate Growing(texts: seq<string>) {
    forall i, j | 0 <= i < j < |texts| :: |texts[i]| < |texts[j]|
  }

  // ---------------------------------------------------------------- a run that only merges

  /** The template touches the SPF records at the name by merging only. */
  ghost predicate OnlyMerges(name: string, es: seq<Entry>) {
    forall e | e in es :: Merges(name, e) ||
      (!IsSpf(name, e.rec) && forall k | SpfKey(k) && NameEq(k.name, name) :: !Matches(e, k))
  }

  lemma SparesSpfs(name: string, s: Work, e: Entry, orig: set<Key>)
    requires !Merges(name, e) && OnlyMerges(name, [e])
    requires AllNormal(s.zone) && forall r | r in s.zone :: IsSpf(name, r)
    ensures SpfTurn(name, s, e, orig) == s
  {
    assert e in [e];
    forall r | r in s.zone ensures !Sweeps(e, orig, r) {
      SweepsByRule(e, orig, r);
      SpfHasSpfKey(name, r);
    }
    FilterNone(SweepTest(e, orig), s.zone);
  }

  lemma SpfHasSpfKey(name: string, r: Record)
    requires IsSpf(name, r)
    ensures SpfKey(KeyOf(r)) && NameEq(KeyOf(r).name, name)
  {
    ToLowerTwice(r.name);
    assert ToUpper("TXT") == "TXT";
  }

  /** The records so far: `before` was there, the rest was added; all but the last are deleted again. */
  ghost predicate Queue(name: string, before: seq<Record>, s: Work) {
    var all := before + s.toAdd;
    && (forall r | r in all :: IsSpf(name, r) && Normal(r))
    && Growing(Texts(all))
    && s.zone == (if all == [] then [] else [all[|all| - 1]])
    && s.toDelete == (if all == [] then [] else all[..|all| - 1])
  }

  lemma GrowingSnoc(texts: seq<string>, text: string)
    requires Growing(texts) && (texts == [] || |texts[|texts| - 1]| < |text|)
    ensures Growing(texts + [text])
  {
    var longer := texts + [text];
    forall i, j | 0 <= i < j < |longer| ensures |longer[i]| < |longer[j]| {
      if j == |texts| && i < |texts| - 1 {
        assert |texts[i]| < |texts[|texts| - 1]|;
      }
    }
  }

  lemma QueueSnoc(name: string, before: seq<Record>, s: Work, r: Record, t: Work)
    requires Queue(name, before, s) && IsSpf(name, r) && Normal(r)
    requires s.zone == [] || |s.zone[0].content| < |r.content|
    requires t == Work([r], s.toAdd + [r], s.toDelete + s.zone)
    ensures Queue(name, before, t) && Texts(before + t.toAdd) == Texts(before + s.toAdd) + [r.content]
  {
    var all := before + s.toAdd;
    assert before + t.toAdd == all + [r];
    assert Texts(all + [r]) == Texts(all) + [r.content];
    GrowingSnoc(Texts(all), r.content);
    assert (all + [r])[..|all|] == all;
    if all != [] {
      assert all[..|all| - 1] + [all[|all| - 1]] == all;
    }
  }

  lemma LastInQueue(name: string, before: seq<Record>, s: Work)
    requires Queue(name, before, s)
    ensures var texts := Texts(before + s.toAdd);
      s.zone == [] <==> texts == []
    ensures var texts := Texts(before + s.toAdd);
      s.zone != [] ==> |s.zone| == 1 && s.zone[0].content == texts[|texts| - 1]
  {
  }

  lemma WrittenIsSpf(name: string, at: string, rules: string, content: string, ttl: int)
    requires NameEq(at, name)
    ensures var r := SpfTxt(at, FirstText(rules), ttl); IsSpf(name, r) && Normal(r)
    ensures var r := SpfTxt(at, MergeRules(content, rules), ttl); IsSpf(name, r) && Normal(r)
  {
    assert ToUpper("TXT") == "TXT";
  }

  lemma MergeInQueue(name: string, before: seq<Record>, s: Work, spfm: Record)
    requires Queue(name, before, s) && NameEq(spfm.name, name)
    ensures var t := Merge(s, spfm);
      Queue(name, before, t) && Texts(before + t.toAdd) == MergedTexts(Texts(before + s.toAdd), spfm.content)
  {
    LastInQueue(name, before, s);
    if s.zone == [] {
      var r := SpfTxt(spfm.name, FirstText(spfm.content), if spfm.ttl == 0 then 6000 else spfm.ttl);
      WrittenIsSpf(name, spfm.name, spfm.content, "", r.ttl);
      QueueSnoc(name, before, s, r, Merge(s, spfm));
    } else if !Contains(s.zone[0].content, spfm.content) {
      var r := SpfTxt(spfm.name, MergeRules(s.zone[0].content, spfm.content), s.zone[0].ttl);
      WrittenIsSpf(name, spfm.name, spfm.content, s.zone[0].content, r.ttl);
      MergeGrows(s.zone[0].content, spfm.content);
      QueueSnoc(name, before, s, r, Merge(s, spfm));
    }
  }

  lemma ChainSnoc(before: seq<string>, rules: seq<string>, rule: string)
    ensures Chain(before, rules + [rule]) == MergedTexts(Chain(before, rules), rule)
  {
    assert (rules + [rule])[..|rules|] == rules;
  }

  /** The queue has gone through the texts that the rules make. */
  ghost predicate Follows(name: string, before: seq<Record>, s: Work, rules: seq<string>) {
    Queue(name, before, s) && Texts(before + s.toAdd) == Chain(Texts(before), rules)
  }

  lemma MergeFollows(name: string, before: seq<Record>, s: Work, rules: seq<string>, e: Entry, orig: set<Key>)
    requires Follows(name, before, s, rules) && Merges(name, e)
    ensures Follows(name, before, SpfTurn(name, s, e, orig), rules + [e.rec.content])
  {
    MergeInQueue(name, before, s, e.rec);
    ChainSnoc(Texts(before), rules, e.rec.content);
  }

  lemma OtherFollows(name: string, before: seq<Record>, s: Work, rules: seq<string>, e: Entry, orig: set<Key>)
    requires Follows(name, before, s, rules) && !Merges(name, e) && OnlyMerges(name, [e])
    ensures Follows(name, before, SpfTurn(name, s, e, orig), rules)
  {
    SparesSpfs(name, s, e, orig);
  }

  lemma RulesSnoc(name: string, es: seq<Entry>)
    requires es != []
    ensures var front, e := es[..|es| - 1], es[|es| - 1];
      RulesAt(name, es) == if Merges(name, e) then RulesAt(name, front) + [e.rec.content] else RulesAt(name, front)
  {
  }

  lemma {:induction false} RunFollows(name: string, before: seq<Record>, es: seq<Entry>, orig: set<Key>)
    requires |before| <= 1 && AllNormal(before) && (forall r | r in before :: IsSpf(name, r))
    requires OnlyMerges(name, es)
    ensures Follows(name, before, SpfRun(name, Work(before, [], []), es, orig), RulesAt(name, es))
  {
    if es == [] {
      assert before + [] == before;
    } else {
      SnocSplit(es);
      RulesSnoc(name, es);
      var front, e := es[..|es| - 1], es[|es| - 1];
      var mid := SpfRun(name, Work(before, [], []), front, orig);
      RunFollows(name, before, front, orig);
      if Merges(name, e) {
        MergeFollows(name, before, mid, RulesAt(name, front), e, orig);
      } else {
        assert OnlyMerges(name, [e]);
        OtherFollows(name, before, mid, RulesAt(name, front), e, orig);
      }
    }
  }

  // ---------------------------------------------------------------- what the deltas leave

  lemma TurnAtSame(name: string, other: string, s: Work, e: Entry, orig: set<Key>)
    requires NameEq(name, other)
    ensures SpfTurn(name, s, e, orig) == SpfTurn(other, s, e, orig)
  {
  }

  lemma {:induction false} RunAtSame(name: string, other: string, s: Work, es: seq<Entry>, orig: set<Key>)
    requires NameEq(name, other)
    ensures SpfRun(name, s, es, orig) == SpfRun(other, s, es, orig)
  {
    if es != [] {
      RunAtSame(name, other, s, es[..|es| - 1], orig);
      TurnAtSame(name, other, SpfRun(name, s, es[..|es| - 1], orig), es[|es| - 1], orig);
    }
  }

  /** The SPF identities at a name. */
  ghost function SpfKeysAt(name: string, ks: set<Key>): set<Key> {
    set k | k in ks && SpfKey(k) && NameEq(k.name, name)
  }

  lemma {:induction false} GrowingDistinct(s: seq<Record>)
    requires Growing(Texts(s))
    ensures |KeySet(s)| == |s|
  {
    if s != [] {
      var front, last := s[..|s| - 1], s[|s| - 1];
      assert s == front + [last];
      GrowingFront(front, last);
      GrowingDistinct(front);
      assert KeySet(s) == KeySet(front) + {KeyOf(last)};
    }
  }

  lemma GrowingFront(front: seq<Record>, last: Record)
    requires Growing(Texts(front + [last]))
    ensures Growing(Texts(front)) && KeyOf(last) !in KeySet(front)
  {
    var texts := Texts(front + [last]);
    forall i | 0 <= i < |front| ensures |front[i].content| < |last.content| {
      assert |texts[i]| < |texts[|front|]|;
    }
    forall i, j | 0 <= i < j < |front| ensures |Texts(front)[i]| < |Texts(front)[j]| {
      assert |texts[i]| < |texts[j]|;
    }
  }

  lemma GrowingTail(before: seq<Record>, s: seq<Record>)
    requires Growing(Texts(before + s))
    ensures Growing(Texts(s))
  {
    var texts := Texts(before + s);
    forall i, j | 0 <= i < j < |s| ensures |Texts(s)[i]| < |Texts(s)[j]| {
      assert |texts[|before| + i]| < |texts[|before| + j]|;
    }
  }

  lemma PlainOutcome(o: Opts, es: seq<Entry>, name: string)
    requires !o.multiAware && OnlyMerges(name, es)
    requires |Spfs(name, Normalized(o.zoneRecords))| <= 1
    ensures Follows(name, Spfs(name, Normalized(o.zoneRecords)), SpfOutcome(o, es, name), RulesAt(name, es))
    ensures forall k :: Restored(o, es)[k] == 0
  {
    var before := Spfs(name, Normalized(o.zoneRecords));
    NormalizedIsNormal(o.zoneRecords);
    forall r | r in before ensures IsSpf(name, r) && Normal(r) {
      FilterMembers(SpfTest(name), Normalized(o.zoneRecords), r);
    }
    assert Start(o).toAdd == [] && Start(o).toDelete == [];
    assert Filter(SpfTest(name), []) == [];
    assert SpfsOf(name, Start(o)) == Work(before, [], []);
    RunFollows(name, before, es, KeySet(Start(o).zone));
  }

  lemma SpfAmong(name: string, zone: seq<Record>, k: Key)
    requires AllNormal(zone) && SpfKey(k) && NameEq(k.name, name)
    ensures k in KeySet(zone) <==> k in KeySet(Spfs(name, zone))
  {
    SpfsAtSame(name, k.name, zone);
    SpfCopies(k, zone);
    KeysMembers(zone, k);
    KeysMembers(Spfs(name, zone), k);
  }

  /** A queue's identities after the deltas are carried out: all that were added, or what was there. */
  ghost function Left(before: seq<Record>, added: seq<Record>): seq<Record> {
    if added == [] then before else added
  }

  lemma LeftInQueue(name: string, before: seq<Record>, out: Work, k: Key)
    requires |before| <= 1 && Queue(name, before, out)
    ensures k in KeySet(out.toAdd) || (k in KeySet(before) && Keys(out.toDelete)[k] == 0) <==>
            k in KeySet(Left(before, out.toAdd))
  {
    KeysMembers(out.toDelete, k);
    if out.toAdd != [] {
      var all := before + out.toAdd;
      assert forall r | r in before :: r in all[..|all| - 1];
    } else {
      assert before + [] == before;
      assert Keys([]) == multiset{};
    }
  }

  lemma AppliedInQueue(o: Opts, es: seq<Entry>, name: string, k: Key)
    requires !o.multiAware && Acceptable(es) && NormalEntries(es) && OnlyMerges(name, es)
    requires |Spfs(name, Normalized(o.zoneRecords))| <= 1
    requires SpfKey(k) && NameEq(k.name, name)
    ensures k in AppliedKeys(o, es) <==>
            k in KeySet(Left(Spfs(name, Normalized(o.zoneRecords)), SpfOutcome(o, es, name).toAdd))
  {
    var z := Normalized(o.zoneRecords);
    PlainOutcome(o, es, name);
    AppliedSpfIff(o, es, k);
    SpfsAtSame(name, k.name, Start(o).zone);
    SpfsAtSame(name, k.name, Start(o).toAdd);
    SpfsAtSame(name, k.name, Start(o).toDelete);
    RunAtSame(name, k.name, SpfsOf(name, Start(o)), es, KeySet(Start(o).zone));
    NormalizedIsNormal(o.zoneRecords);
    SpfAmong(name, z, k);
    LeftInQueue(name, Spfs(name, z), SpfOutcome(o, es, name), k);
  }

  lemma LeftIsSpf(name: string, before: seq<Record>, out: Work, k: Key)
    requires Queue(name, before, out) && k in KeySet(Left(before, out.toAdd))
    ensures SpfKey(k) && NameEq(k.name, name)
  {
    var r :| r in Left(before, out.toAdd) && KeyOf(r) == k;
    assert r in before + out.toAdd;
    SpfHasSpfKey(name, r);
  }

  /** How many SPF records the deltas leave at a name that has at most one, for a template that only merges there:
      the returned log holds every intermediate record, so as many as there were merges that changed the text. The
      name is left with at most one exactly when at most one rule is missing from the text when its turn comes. */
  lemma SpfsLeft(o: Opts, es: seq<Entry>, name: string)
    requires !o.multiAware && Acceptable(es) && NormalEntries(es) && OnlyMerges(name, es)
    requires |Spfs(name, Normalized(o.zoneRecords))| <= 1
    ensures var before := Spfs(name, Normalized(o.zoneRecords));
      var changes := |Chain(Texts(before), RulesAt(name, es))| - |before|;
      && |SpfKeysAt(name, AppliedKeys(o, es))| == (if changes == 0 then |before| else changes)
      && (|SpfKeysAt(name, AppliedKeys(o, es))| <= 1 <==> changes <= 1)
  {
    var before, out := Spfs(name, Normalized(o.zoneRecords)), SpfOutcome(o, es, name);
    PlainOutcome(o, es, name);
    SpfKeysLeft(o, es, name);
    LeftCount(name, before, out);
  }

  lemma LeftCount(name: string, before: seq<Record>, out: Work)
    requires Queue(name, before, out)
    ensures |KeySet(Left(before, out.toAdd))| == if out.toAdd == [] then |before| else |out.toAdd|
  {
    assert before + [] == before;
    GrowingTail(before, out.toAdd);
    GrowingDistinct(Left(before, out.toAdd));
  }

  lemma SpfKeysLeft(o: Opts, es: seq<Entry>, name: string)
    requires !o.multiAware && Acceptable(es) && NormalEntries(es) && OnlyMerges(name, es)
    requires |Spfs(name, Normalized(o.zoneRecords))| <= 1
    ensures SpfKeysAt(name, AppliedKeys(o, es)) ==
            KeySet(Left(Spfs(name, Normalized(o.zoneRecords)), SpfOutcome(o, es, name).toAdd))
  {
    var before, out, applied := Spfs(name, Normalized(o.zoneRecords)), SpfOutcome(o, es, name), AppliedKeys(o, es);
    PlainOutcome(o, es, name);
    forall k ensures k in SpfKeysAt(name, applied) <==> k in KeySet(Left(before, out.toAdd)) {
      if SpfKey(k) && NameEq(k.name, name) {
        AppliedInQueue(o, es, name, k);
      }
      if k in KeySet(Left(before, out.toAdd)) {
        LeftIsSpf(name, before, out, k);
      }
    }
  }

  /** The engine's own zone never gets a second SPF record there. */
  lemma WorkingZoneKeepsOne(o: Opts, es: seq<Entry>, name: string)
    requires !o.multiAware && NormalEntries(es) && OnlyMerges(name, es)
    requires |Spfs(name, Normalized(o.zoneRecords))| <= 1
    ensures |Spfs(name, Final(o, es).zone)| <= 1
  {
    NormalizedIsNormal(o.zoneRecords);
    PlainOutcome(o, es, name);
    SpfsEvolve(name, Start(o), es, KeySet(Start(o).zone));
    RestoreAddsBack(Looped(o, es), []);
    assert Looped(o, es).zone + [] == Looped(o, es).zone;
  }

  // ---------------------------------------------------------------- an example

  lemma ChainOfTwo(rule: string, second: string)
    requires !Contains(FirstText(rule), second)
    ensures |Chain([], [rule, second])| == 2
  {
    ChainSnoc([], [], rule);
    ChainSnoc([], [rule], second);
    assert [] + [rule] == [rule] && [rule] + [second] == [rule, second];
  }

  lemma RulesOfTwo(name: string, a: Entry, b: Entry)
    requires Merges(name, a) && Merges(name, b)
    ensures RulesAt(name, [a, b]) == [a.rec.content, b.rec.content]
  {
    assert [a, b][..1] == [a] && [a][..0] == [];
    RulesSnoc(name, [a, b]);
    RulesSnoc(name, [a]);
  }

  lemma OnlySpfm(name: string, a: Entry, b: Entry)
    requires Merges(name, a) && Merges(name, b)
    ensures OnlyMerges(name, [a, b])
  {
  }

  lemma SpfmAccepted(a: Entry, b: Entry)
    requires KindOf(a.rec.typ) == KSPFM && KindOf(b.rec.typ) == KSPFM
    ensures Acceptable([a, b])
  {
    NoApex([], a);
    NoApex([a], b);
    assert [] + [a] == [a] && [a] + [b] == [a, b];
    assert RoleOf(a.rec.typ) == Exempt && RoleOf(b.rec.typ) == Exempt;
    assert Compatible([a, b]);
  }

  lemma NoApex(es: seq<Entry>, e: Entry)
    requires KindOf(e.rec.typ) == KSPFM
    ensures ApexCount(es + [e]) == ApexCount(es)
  {
    assert (es + [e])[..|es|] == es;
  }

  /** Two rules, the second not in the first text, merged into a zone without an SPF record leave two of them. */
  lemma TwoMergesLeaveTwo(o: Opts, name: string, a: Entry, b: Entry)
    requires !o.multiAware && o.zoneRecords == [] && Normal(a.rec) && Normal(b.rec)
    requires Merges(name, a) && Merges(name, b) && !Contains(FirstText(a.rec.content), b.rec.content)
    ensures Acceptable([a, b]) && |SpfKeysAt(name, AppliedKeys(o, [a, b]))| == 2
  {
    SpfmAccepted(a, b);
    OnlySpfm(name, a, b);
    RulesOfTwo(name, a, b);
    ChainOfTwo(a.rec.content, b.rec.content);
    assert Normalized([]) == [] && Texts([]) == [];
    assert Spfs(name, []) == [];
    SpfsLeft(o, [a, b], name);
  }
}
