/** The SPFM rule: merging a template's SPF rules into the SPF record of a zone. */
module Spfm {
  import opened Text
  import opened Records
  import opened RecordLists

  const SPF_PREFIX := "v=spf1 "
  const TERMINATORS := [" -all", " ~all", " ?all"]

  predicate IsSpf(name: string, r: Record) {
    NameEq(r.name, name) && r.typ == "TXT" && HasPrefix(r.content, SPF_PREFIX)
  }

  function SpfTest(name: string): Record -> bool {
    r => IsSpf(name, r)
  }

  function Spfs(name: string, zone: seq<Record>): seq<Record> {
    Filter(SpfTest(name), zone)
  }

  function Terminator(content: string): string {
    if HasSuffix(content, TERMINATORS[0]) then TERMINATORS[0]
    else if HasSuffix(content, TERMINATORS[1]) then TERMINATORS[1]
    else if HasSuffix(content, TERMINATORS[2]) then TERMINATORS[2]
    else ""
  }

  function MergeRules(content: string, rules: string): string {
    var t := Terminator(content);
    SPF_PREFIX + rules + " " + TrimPrefix(TrimSuffix(content, t), SPF_PREFIX) + (if t == "" then " ~all" else t)
  }

  function SpfTxt(name: string, content: string, ttl: int): Record {
    Record("TXT", name, content, ttl, 0, 0, 0, "", "", None)
  }

  datatype Delta = Delta(add: seq<Record>, del: seq<Record>)

  function SpfmDelta(zone: seq<Record>, spfm: Record): Delta {
    var spfs := Spfs(spfm.name, zone);
    if spfs == [] then
      Delta([SpfTxt(spfm.name, SPF_PREFIX + spfm.content + " ~all", if spfm.ttl == 0 then 6000 else spfm.ttl)], [])
    else if Contains(spfs[0].content, spfm.content) then Delta([], [])
    else Delta([SpfTxt(spfm.name, MergeRules(spfs[0].content, spfm.content), spfs[0].ttl)], [spfs[0]])
  }

  function AfterSpfm(zone: seq<Record>, spfm: Record): seq<Record> {
    var d := SpfmDelta(zone, spfm);
    Remove(zone, Keys(d.del)) + d.add
  }

  method FindSpf(zone: seq<Record>, name: string) returns (existing: Option<Record>)
    ensures existing == if Spfs(name, zone) == [] then None else Some(Spfs(name, zone)[0])
  {
    for i := 0 to |zone|
      invariant Spfs(name, zone[..i]) == []
    {
      assert zone[..i + 1] == zone[..i] + [zone[i]];
      FilterAppend(SpfTest(name), zone[..i], [zone[i]]);
      FilterOne(SpfTest(name), zone[i]);
      if IsSpf(name, zone[i]) {
        assert zone == zone[..i + 1] + zone[i + 1..];
        FilterAppend(SpfTest(name), zone[..i + 1], zone[i + 1..]);
        return Some(zone[i]);
      }
    }
    assert zone[..|zone|] == zone;
    return None;
  }

  method FindTerminator(content: string) returns (terminator: string)
    ensures terminator == Terminator(content)
  {
    for t := 0 to |TERMINATORS|
      invariant forall j | 0 <= j < t :: !HasSuffix(content, TERMINATORS[j])
    {
      if HasSuffix(content, TERMINATORS[t]) {
        return TERMINATORS[t];
      }
    }
    return "";
  }

  method InsertRules(found: string, rules: string) returns (newContent: string)
    ensures newContent == MergeRules(found, rules)
  {
    var terminator := FindTerminator(found);
    var content := TrimSuffix(found, terminator);
    if terminator == "" {
      terminator := " ~all";
    }
    newContent := SPF_PREFIX + rules + " " + TrimPrefix(content, SPF_PREFIX) + terminator;
  }

  method ProcessSPFM(zone: seq<Record>, spfm: Record) returns (d: Delta)
    ensures d == SpfmDelta(zone, spfm)
  {
    var name, rules := spfm.name, spfm.content;
    var existing := FindSpf(zone, name);
    if existing.None? {
      var ttl := if spfm.ttl == 0 then 6000 else spfm.ttl;
      return Delta([SpfTxt(name, SPF_PREFIX + rules + " ~all", ttl)], []);
    }
    if Contains(existing.value.content, rules) {
      return Delta([], []);
    }
    var newContent := InsertRules(existing.value.content, rules);
    return Delta([SpfTxt(name, newContent, existing.value.ttl)], [existing.value]);
  }

  // ---------------------------------------------------------------- how many SPF records there are

  predicate AllNormal(zone: seq<Record>) {
    forall r | r in zone :: Normal(r)
  }

  lemma SpfByKey(name: string, r: Record, s: Record)
    requires Normal(r) && Normal(s) && KeyOf(r) == KeyOf(s)
    ensures IsSpf(name, r) == IsSpf(name, s)
  {
    assert CanonicalName(r.name) == CanonicalName(s.name);
  }

  lemma {:induction false} RemoveFirstSpf(name: string, zone: seq<Record>)
    requires AllNormal(zone) && Spfs(name, zone) != []
    ensures Spfs(name, Remove(zone, Keys([Spfs(name, zone)[0]]))) == Spfs(name, zone)[1..]
  {
    var first := Spfs(name, zone)[0];
    KeysOne(first);
    if IsSpf(name, zone[0]) {
      RemoveNothing(zone[1..]);
      assert multiset{KeyOf(first)} - multiset{KeyOf(first)} == multiset{};
    } else {
      FilterMembers(SpfTest(name), zone, first);
      if KeyOf(zone[0]) == KeyOf(first) {
        SpfByKey(name, zone[0], first);
        assert false;
      }
      RemoveFirstSpf(name, zone[1..]);
    }
  }

  lemma MergedIsSpf(name: string, content: string, rules: string, ttl: int)
    ensures Spfs(name, [SpfTxt(name, MergeRules(content, rules), ttl)]) ==
      [SpfTxt(name, MergeRules(content, rules), ttl)]
    ensures Spfs(name, [SpfTxt(name, SPF_PREFIX + rules + " ~all", ttl)]) ==
      [SpfTxt(name, SPF_PREFIX + rules + " ~all", ttl)]
    ensures Contains(MergeRules(content, rules), rules)
    ensures Contains(SPF_PREFIX + rules + " ~all", rules)
  {
    var t := Terminator(content);
    var rest := " " + TrimPrefix(TrimSuffix(content, t), SPF_PREFIX) + (if t == "" then " ~all" else t);
    var merged := MergeRules(content, rules);
    assert merged == SPF_PREFIX + rules + rest;
    ContainsMiddle(SPF_PREFIX, rules, rest);
    ContainsMiddle(SPF_PREFIX, rules, " ~all");
    FilterOne(SpfTest(name), SpfTxt(name, merged, ttl));
    FilterOne(SpfTest(name), SpfTxt(name, SPF_PREFIX + rules + " ~all", ttl));
  }

  /** The SPF records afterwards: a merge takes the first one out and puts its replacement last. */
  lemma SpfsAfter(zone: seq<Record>, spfm: Record)
    requires AllNormal(zone)
    ensures var before, after := Spfs(spfm.name, zone), Spfs(spfm.name, AfterSpfm(zone, spfm));
      if before != [] && Contains(before[0].content, spfm.content) then AfterSpfm(zone, spfm) == zone
      else |SpfmDelta(zone, spfm).add| == 1 && Contains(SpfmDelta(zone, spfm).add[0].content, spfm.content) &&
           after == (if before == [] then [] else before[1..]) + SpfmDelta(zone, spfm).add
  {
    var before, d := Spfs(spfm.name, zone), SpfmDelta(zone, spfm);
    if before == [] {
      RemoveNothing(zone);
      MergedIsSpf(spfm.name, "", spfm.content, if spfm.ttl == 0 then 6000 else spfm.ttl);
    } else if Contains(before[0].content, spfm.content) {
      RemoveNothing(zone);
    } else {
      RemoveFirstSpf(spfm.name, zone);
      MergedIsSpf(spfm.name, before[0].content, spfm.content, before[0].ttl);
    }
    FilterAppend(SpfTest(spfm.name), Remove(zone, Keys(d.del)), d.add);
  }

  /** n SPF records become max(1, n): never a second one where there was one. */
  lemma SpfmKeepsCount(zone: seq<Record>, spfm: Record)
    requires AllNormal(zone)
    ensures |Spfs(spfm.name, AfterSpfm(zone, spfm))| ==
            (if |Spfs(spfm.name, zone)| == 0 then 1 else |Spfs(spfm.name, zone)|)
  {
    SpfsAfter(zone, spfm);
  }

  /** Exactly when merging the same rules once more changes nothing. */
  lemma SpfmRepeat(zone: seq<Record>, spfm: Record)
    requires AllNormal(zone)
    ensures var spfs := Spfs(spfm.name, zone);
      SpfmDelta(AfterSpfm(zone, spfm), spfm) == Delta([], []) <==>
      |spfs| <= 1 || Contains(spfs[0].content, spfm.content) || Contains(spfs[1].content, spfm.content)
  {
    SpfsAfter(zone, spfm);
  }

  lemma ContainedHead(s: string, sub: string)
    requires sub != "" && Contains(s, sub)
    ensures sub[0] in s
  {
    var i :| 0 <= i <= |s| && MatchAt(s, sub, i);
    assert s[i] == s[i..i + |sub|][0];
  }

  lemma LacksZ(s: string)
    requires 'z' !in s
    ensures !Contains(s, "z")
  {
    if Contains(s, "z") {
      ContainedHead(s, "z");
    }
  }

  lemma TwoSpfs(a: Record, b: Record)
    requires IsSpf("@", a) && IsSpf("@", b)
    ensures Spfs("@", [a, b]) == [a, b]
  {
    FilterAppend(SpfTest("@"), [a], [b]);
    FilterOne(SpfTest("@"), a);
    FilterOne(SpfTest("@"), b);
    assert [a] + [b] == [a, b];
  }

  /** Two SPF records at one name: the second merge edits the other one. */
  lemma SpfmRepeatCanChange()
    ensures exists zone, spfm :: AllNormal(zone) && SpfmDelta(AfterSpfm(zone, spfm), spfm) != Delta([], [])
  {
    var a, b := SpfTxt("@", "v=spf1 a -all", 1), SpfTxt("@", "v=spf1 b -all", 1);
    var spfm := SpfTxt("@", "z", 1).(typ := "SPFM");
    LacksZ("v=spf1 a -all");
    LacksZ("v=spf1 b -all");
    TwoSpfs(a, b);
    assert ToUpper("TXT") == "TXT";
    assert AllNormal([a, b]);
    SpfmRepeat([a, b], spfm);
  }

  // ---------------------------------------------------------------- what becomes of the tokens

  /** The record has something between the version and the terminator. */
  predicate HasBody(content: string) {
    HasPrefix(content, SPF_PREFIX) && |SPF_PREFIX| + |Terminator(content)| <= |content|
  }

  function Body(content: string): string
    requires HasBody(content)
  {
    content[|SPF_PREFIX|..|content| - |Terminator(content)|]
  }

  function Tail(content: string): string {
    if Terminator(content) == "" then " ~all" else Terminator(content)
  }

  lemma FieldsOfTail(a: string, t: string)
    requires t == " -all" || t == " ~all" || t == " ?all"
    ensures Fields(a + t) == Fields(a) + [t[1..]]
  {
    assert a + t == a + [' '] + t[1..];
    FieldsAppend(a, ' ', t[1..]);
    FieldsWord(t[1..]);
  }

  lemma FieldsOfPrefixed(s: string)
    ensures Fields(SPF_PREFIX + s) == ["v=spf1"] + Fields(s)
  {
    assert SPF_PREFIX + s == "v=spf1" + [' '] + s;
    FieldsAppend("v=spf1", ' ', s);
    FieldsWord("v=spf1");
  }

  lemma BodySplits(content: string)
    requires HasBody(content)
    ensures content == SPF_PREFIX + Body(content) + Terminator(content)
    ensures TrimPrefix(TrimSuffix(content, Terminator(content)), SPF_PREFIX) == Body(content)
  {
    var t := Terminator(content);
    assert HasSuffix(content, t);
    assert content == content[..|content| - |t|] + t;
    assert content[..|content| - |t|] == SPF_PREFIX + Body(content);
  }

  lemma FieldsOfMerged(rules: string, body: string, t: string)
    requires t == " -all" || t == " ~all" || t == " ?all"
    ensures Fields(SPF_PREFIX + rules + " " + body + t) == ["v=spf1"] + Fields(rules) + Fields(body) + [t[1..]]
  {
    var middle := rules + [' '] + body;
    assert SPF_PREFIX + rules + " " + body + t == SPF_PREFIX + middle + t;
    FieldsOfTail(SPF_PREFIX + middle, t);
    FieldsOfPrefixed(middle);
    FieldsAppend(rules, ' ', body);
  }

  /** With a body, the rules go in right after the version and every token stays, in order,
      a missing terminator being supplied. */
  lemma MergeKeepsTokens(content: string, rules: string)
    requires HasBody(content)
    ensures Fields(MergeRules(content, rules)) ==
      ["v=spf1"] + Fields(rules) + Fields(Body(content)) + [Tail(content)[1..]]
    ensures Fields(content) == ["v=spf1"] + Fields(Body(content)) +
            (if Terminator(content) == "" then [] else [Terminator(content)[1..]])
  {
    BodySplits(content);
    FieldsOfMerged(rules, Body(content), Tail(content));
    FieldsOfPrefixed(Body(content));
    if Terminator(content) != "" {
      FieldsOfTail(SPF_PREFIX + Body(content), Terminator(content));
    } else {
      assert SPF_PREFIX + Body(content) + "" == SPF_PREFIX + Body(content);
    }
  }

  /** Without one -- a bare version and terminator -- the version is written twice. */
  lemma MergeDoublesVersion(content: string, rules: string)
    requires HasPrefix(content, SPF_PREFIX) && !HasBody(content)
    ensures content == "v=spf1" + Terminator(content)
    ensures Fields(MergeRules(content, rules)) == ["v=spf1"] + Fields(rules) + ["v=spf1", Terminator(content)[1..]]
  {
    var t := Terminator(content);
    assert |t| == 5 && HasSuffix(content, t);
    assert |content| < 12;
    BareRecord(content, t);
    assert TrimPrefix(TrimSuffix(content, t), SPF_PREFIX) == "v=spf1";
    FieldsOfMerged(rules, "v=spf1", t);
    FieldsWord("v=spf1");
  }

  /** There is such a record: "v=spf1 -all", the one that allows no sender. */
  lemma BareDoubles(rules: string)
    ensures var bare := "v=spf1 -all";
      HasPrefix(bare, SPF_PREFIX) && !HasBody(bare) &&
      Fields(MergeRules(bare, rules)) == ["v=spf1"] + Fields(rules) + ["v=spf1", "-all"]
  {
    var bare := "v=spf1 -all";
    assert bare[..7] == SPF_PREFIX && bare[6..] == " -all";
    assert Terminator(bare) == " -all";
    MergeDoublesVersion(bare, rules);
  }

  /** The tokens the merge should produce. */
  function ExpectedTokens(content: string, rules: string): seq<string>
    requires Fields(content) != []
  {
    ["v=spf1"] + Fields(rules) + Fields(content)[1..] + (if Terminator(content) == "" then ["~all"] else [])
  }

  lemma TokensLineUp(merged: seq<string>, before: seq<string>, v: string, rules: seq<string>, body: seq<string>,
      end: seq<string>, extra: seq<string>)
    requires merged == [v] + rules + body + end + extra && before == [v] + body + end
    ensures merged == [v] + rules + before[1..] + extra
  {
    assert before[1..] == body + end;
  }

  lemma MergeTokensWithBody(content: string, rules: string)
    requires HasBody(content)
    ensures Fields(content) != [] && Fields(MergeRules(content, rules)) == ExpectedTokens(content, rules)
  {
    MergeKeepsTokens(content, rules);
    var t := Terminator(content);
    var end: seq<string> := if t == "" then [] else [t[1..]];
    var extra := if t == "" then ["~all"] else [];
    TailTokens(content, end, extra);
    TokensLineUp(Fields(MergeRules(content, rules)), Fields(content), "v=spf1", Fields(rules), Fields(Body(content)),
      end, extra);
  }

  lemma TailTokens(content: string, end: seq<string>, extra: seq<string>)
    requires var t := Terminator(content);
      end == (if t == "" then [] else [t[1..]]) && extra == if t == "" then ["~all"] else []
    ensures [Tail(content)[1..]] == end + extra
  {
    assert " ~all"[1..] == "~all";
  }

  lemma MergeTokensBare(content: string, rules: string)
    requires HasPrefix(content, SPF_PREFIX) && !HasBody(content)
    ensures Fields(content) != [] && |Fields(MergeRules(content, rules))| == |ExpectedTokens(content, rules)| + 1
  {
    MergeDoublesVersion(content, rules);
    FieldsOfTail("v=spf1", Terminator(content));
    FieldsWord("v=spf1");
  }

  /** The merge adds the rules and a missing terminator, and nothing else, exactly when
      the existing record has a body. */
  lemma MergeTokens(content: string, rules: string)
    requires HasPrefix(content, SPF_PREFIX)
    ensures Fields(content) != [] &&
            (Fields(MergeRules(content, rules)) == ExpectedTokens(content, rules) <==> HasBody(content))
  {
    if HasBody(content) {
      MergeTokensWithBody(content, rules);
    } else {
      MergeTokensBare(content, rules);
    }
  }

  lemma BareRecord(content: string, t: string)
    requires HasPrefix(content, SPF_PREFIX) && HasSuffix(content, t) && |content| < 12
    requires t == " -all" || t == " ~all" || t == " ?all"
    ensures content == "v=spf1" + t
  {
    var k := |content| - 5;
    assert content[k] == ' ';
    assert content[..7] == SPF_PREFIX;
    assert k == 6;
    assert content == content[..6] + content[6..];
    assert content[..6] == SPF_PREFIX[..6];
  }

  // ---------------------------------------------------------------- the texts and records that are written

  /** A record that ends in one of the three terminators keeps it after its body. */
  lemma MergedWithEnd(body: string, end: string, rules: string)
    requires end in [" -all", " ~all", " ?all"]
    ensures MergeRules("v=spf1 " + body + end, rules) == "v=spf1 " + rules + " " + body + end
  {
    var content := "v=spf1 " + body + end;
    Ends("v=spf1 " + body, end);
    OneEnd(content, end);
    Ends("v=spf1 ", body);
  }

  lemma OneEnd(content: string, end: string)
    requires end in [" -all", " ~all", " ?all"] && HasSuffix(content, end)
    ensures Terminator(content) == end
  {
    var n := |content|;
    assert content[n - 5..] == end && content[n - 4] == end[1];
    forall t | t in TERMINATORS && HasSuffix(content, t) ensures t[1] == end[1] {
      assert content[n - 5..] == t;
    }
  }

  /** One without gets "~all". */
  lemma MergedWithoutEnd(body: string, rules: string)
    requires forall end | end in [" -all", " ~all", " ?all"] :: !HasSuffix("v=spf1 " + body, end)
    ensures MergeRules("v=spf1 " + body, rules) == "v=spf1 " + rules + " " + body + " ~all"
  {
    var content := "v=spf1 " + body;
    assert [" -all", " ~all", " ?all"][0] == TERMINATORS[0] && TERMINATORS[0] in [" -all", " ~all", " ?all"];
    assert TERMINATORS[1] in [" -all", " ~all", " ?all"] && TERMINATORS[2] in [" -all", " ~all", " ?all"];
    assert Terminator(content) == "";
    assert TrimSuffix(content, "") == content;
    Ends("v=spf1 ", body);
  }

  predicate SpfAt(name: string, r: Record) {
    r.typ == "TXT" && NameEq(r.name, name) && HasPrefix(r.content, "v=spf1 ")
  }

  /** Where there is no SPF record one is written, and the time to live is 6000 unless the template says. */
  lemma WritesFresh(zone: seq<Record>, spfm: Record)
    requires forall r | r in zone :: !SpfAt(spfm.name, r)
    ensures SpfmDelta(zone, spfm) == Delta([Record("TXT", spfm.name, "v=spf1 " + spfm.content + " ~all",
      if spfm.ttl == 0 then 6000 else spfm.ttl, 0, 0, 0, "", "", None)], [])
  {
    if Spfs(spfm.name, zone) != [] {
      FilterMembers(SpfTest(spfm.name), zone, Spfs(spfm.name, zone)[0]);
    }
  }

  /** The first SPF record at the name is replaced, with its own time to live, unless it holds the rules. */
  lemma WritesMerged(front: seq<Record>, r: Record, back: seq<Record>, spfm: Record)
    requires SpfAt(spfm.name, r) && forall s | s in front :: !SpfAt(spfm.name, s)
    ensures SpfmDelta(front + [r] + back, spfm) ==
      if Contains(r.content, spfm.content) then Delta([], [])
      else Delta([Record("TXT", spfm.name, MergeRules(r.content, spfm.content), r.ttl, 0, 0, 0, "", "", None)], [r])
  {
    var p := SpfTest(spfm.name);
    FilterAppend(p, front + [r], back);
    FilterAppend(p, front, [r]);
    FilterOne(p, r);
    if Filter(p, front) != [] {
      FilterMembers(p, front, Filter(p, front)[0]);
    }
  }
}
