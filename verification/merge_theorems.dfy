/** What a merge keeps, and that merging again changes nothing. */
module MergeTheorems {
  import opened Text
  import opened SpfCount
  import opened MergeSpf

  predicate Clean(includes: seq<string>) {
    forall i | 0 <= i < |includes| :: NoSpace(includes[i])
  }

  // ---------------------------------------------------------------- where the additions go

  /** The parts of the record around the additions, and what is appended when there is no mark. */
  datatype Cut = Cut(pre: string, post: string, extra: string)

  function CutOf(record: string): Cut {
    var idx := FirstMark(record, MARKS);
    if idx >= 0 then Cut(record[..idx], record[idx..], "") else Cut(record, "", " -all")
  }

  lemma InsertAtCut(record: string, adds: seq<string>)
    ensures var c := CutOf(record);
      && record == c.pre + c.post
      && Insert(record, adds) == c.pre + (" " + Join(adds, " ")) + (c.post + c.extra)
      && (c.post != "" ==> c.post[0] == ' ') && c.extra == if c.post == "" then " -all" else ""
  {
    var idx := FirstMark(record, MARKS);
    if idx >= 0 {
      var m :| m in MARKS && MatchAt(record, m, idx);
      assert m[0] == ' ';
      assert record[idx] == record[idx..idx + |m|][0];
      assert record == record[..idx] + record[idx..];
      assert record[idx..] + "" == record[idx..];
    }
  }

  // ---------------------------------------------------------------- idempotence

  lemma CharOfMatch(s: string, sub: string, i: nat, k: nat)
    requires MatchAt(s, sub, i) && i <= k < i + |sub|
    ensures s[k] == sub[k - i]
  {
    assert s[i..i + |sub|][k - i] == s[k];
  }

  lemma {:induction false} JoinHolds(words: seq<string>, w: string)
    requires w in words
    ensures Contains(Join(words, " "), w)
  {
    if |words| == 1 {
      ContainsMiddle("", w, "");
      assert "" + w + "" == w;
    } else if w == words[0] {
      ContainsMiddle("", w, " " + Join(words[1..], " "));
      assert "" + w + (" " + Join(words[1..], " ")) == Join(words, " ");
    } else {
      JoinHolds(words[1..], w);
      ContainsWider(words[0] + " ", Join(words[1..], " "), "", w);
      assert (words[0] + " ") + Join(words[1..], " ") + "" == Join(words, " ");
    }
  }

  lemma IncludeTokenNoSpace(inc: string)
    requires NoSpace(inc)
    ensures NoSpace(IncludeToken(inc)) && IncludeToken(inc) != ""
  {
  }

  lemma {:induction false} AdditionsCover(record: string, includes: seq<string>, inc: string)
    requires inc in includes
    ensures Contains(record, IncludeToken(inc)) || IncludeToken(inc) in Additions(record, includes)
  {
    if inc != includes[0] {
      AdditionsCover(record, includes[1..], inc);
    }
  }

  lemma {:induction false} NoAdditions(record: string, includes: seq<string>)
    ensures Additions(record, includes) == [] <==> forall inc | inc in includes :: Contains(record, IncludeToken(inc))
  {
    if includes != [] {
      NoAdditions(record, includes[1..]);
      assert forall inc :: inc in includes <==> inc == includes[0] || inc in includes[1..];
    }
  }

  lemma ContainsInMiddle(a: string, joined: string, b: string, sub: string)
    requires Contains(joined, sub)
    ensures Contains(a + (" " + joined) + b, sub)
  {
    ContainsWider(a + " ", joined, b, sub);
    assert (a + " ") + joined + b == a + (" " + joined) + b;
  }

  lemma AddedHolds(record: string, adds: seq<string>, tok: string)
    requires tok in adds
    ensures Contains(Insert(record, adds), tok)
  {
    var c := CutOf(record);
    InsertAtCut(record, adds);
    JoinHolds(adds, tok);
    ContainsInMiddle(c.pre, Join(adds, " "), c.post + c.extra, tok);
  }

  lemma FreshHolds(includes: seq<string>, inc: string)
    requires inc in includes
    ensures Contains(FreshRecord(includes), IncludeToken(inc))
  {
    var i :| 0 <= i < |includes| && includes[i] == inc;
    assert IncludeTokens(includes)[i] == IncludeToken(inc);
    JoinHolds(["v=spf1"] + IncludeTokens(includes) + ["~all"], IncludeToken(inc));
  }

  /** A merged record is an SPF record and needs no trimming. */
  predicate Settled(record: string) {
    record != "" && TrimSpace(record) == record && IsSpfRecord(record)
  }

  lemma SpfStart(a: string, b: string)
    requires IsSpfRecord(a)
    ensures IsSpfRecord(a + b)
  {
    ToLowerAppend(a, b);
    assert ToLower(a)[..6] == "v=spf1";
  }

  lemma SettledAround(pre: string, rest: string)
    requires pre != "" && !IsSpace(pre[0]) && IsSpfRecord(pre)
    requires rest != "" && !IsSpace(rest[|rest| - 1])
    ensures Settled(pre + rest)
  {
    SpfStart(pre, rest);
    TrimSpaceFixed(pre + rest);
  }

  lemma FreshStart(middle: seq<string>)
    ensures "v=spf1" <= Join(["v=spf1"] + middle, " ")
  {
    if middle == [] {
      assert ["v=spf1"] + middle == ["v=spf1"];
    } else {
      JoinAppend(["v=spf1"], middle, " ");
      assert Join(["v=spf1"] + middle, " ") == "v=spf1" + (" " + Join(middle, " "));
    }
  }

  lemma FreshSettled(includes: seq<string>)
    ensures Settled(FreshRecord(includes))
  {
    var middle := IncludeTokens(includes);
    FreshStart(middle);
    JoinAppend(["v=spf1"] + middle, ["~all"], " ");
    var front, rest := Join(["v=spf1"] + middle, " "), " ~all";
    assert FreshRecord(includes) == front + rest;
    assert front == "v=spf1" + front[6..];
    assert ToLower("v=spf1") == "v=spf1";
    SpfStart("v=spf1", front[6..]);
    SettledAround(front, rest);
  }

  /** The version is blank-free, so a mark starts after it. */
  lemma MarkAfterVersion(record: string)
    requires IsSpfRecord(record)
    ensures IsSpfRecord(CutOf(record).pre)
  {
    InsertAtCut(record, []);
    var c := CutOf(record);
    if c.post != "" {
      var k := |c.pre|;
      assert record[k] == ' ' && ToLower(record)[k] == ' ';
      assert forall j | 0 <= j < 6 :: ToLower(record)[j] == "v=spf1"[j];
      assert k >= 6;
      assert ToLower(c.pre) == ToLower(record)[..k];
    }
  }

  lemma SettledEnds(record: string)
    requires Settled(record)
    ensures !IsSpace(record[0]) && !IsSpace(record[|record| - 1])
  {
  }

  lemma SettledPieces(pre: string, text: string, post: string, extra: string)
    requires Settled(pre + post) && IsSpfRecord(pre) && extra == if post == "" then " -all" else ""
    ensures Settled(pre + text + (post + extra))
  {
    SettledEnds(pre + post);
    var tail := post + extra;
    assert pre + text + tail == pre + (text + tail);
    assert pre != "" && (pre + post)[0] == pre[0];
    if post != "" {
      assert tail == post && (pre + post)[|pre + post| - 1] == post[|post| - 1];
    } else {
      assert tail == " -all";
    }
    SettledAround(pre, text + tail);
  }

  lemma InsertSettled(record: string, adds: seq<string>)
    requires Settled(record)
    ensures Settled(Insert(record, adds))
  {
    InsertAtCut(record, adds);
    MarkAfterVersion(record);
    var c := CutOf(record);
    SettledPieces(c.pre, " " + Join(adds, " "), c.post, c.extra);
  }

  lemma TrimmedSettled(current: string)
    requires TrimSpace(current) != "" && IsSpfRecord(TrimSpace(current))
    ensures Settled(TrimSpace(current))
  {
    TrimSpaceFixed(TrimSpace(current));
  }

  lemma MergedSettled(current: string, includes: seq<string>)
    ensures Settled(Merged(current, includes).value)
  {
    var record := TrimSpace(current);
    if record == "" || !IsSpfRecord(record) {
      FreshSettled(includes);
    } else {
      TrimmedSettled(current);
      InsertSettled(record, Additions(record, includes));
    }
  }

  lemma SettledUnchanged(record: string, includes: seq<string>)
    requires Settled(record)
    ensures Merged(record, includes) == Merge(record, false, false) <==> Additions(record, includes) == []
  {
  }

  lemma AbsentIsAdded(current: string, includes: seq<string>, inc: string, value: string)
    requires value == Merged(current, includes).value
    requires inc in includes && !Contains(TrimSpace(current), IncludeToken(inc))
    ensures Contains(value, IncludeToken(inc))
  {
    var record := TrimSpace(current);
    if record == "" || !IsSpfRecord(record) {
      FreshHolds(includes, inc);
    } else {
      AdditionsCover(record, includes, inc);
      AddedHolds(record, Additions(record, includes), IncludeToken(inc));
    }
  }

  /** The record is edited in place: additions are inserted into it. */
  predicate InPlace(record: string, includes: seq<string>) {
    record != "" && IsSpfRecord(record) && Additions(record, includes) != []
  }

  function Block(record: string, includes: seq<string>): string {
    " " + Join(Additions(record, includes), " ")
  }

  /** The text occurs on one side of the cut, so inserting there does not tear it. */
  predicate Whole(c: Cut, sub: string) {
    Contains(c.pre, sub) || Contains(c.post, sub)
  }

  /** The text occurs across the inserted block or one of its seams. */
  predicate Recreated(c: Cut, block: string, sub: string) {
    var all := c.pre + block + (c.post + c.extra);
    exists i | 0 <= i <= |all| :: MatchAt(all, sub, i) && i < |c.pre| + |block| && |c.pre| < i + |sub|
  }

  lemma MatchShifted(a: string, s: string, b: string, sub: string, i: nat)
    requires |a| <= i && i + |sub| <= |a| + |s|
    ensures MatchAt(a + s + b, sub, i) <==> MatchAt(s, sub, i - |a|)
  {
    var k := i - |a|;
    assert (a + s + b)[i..i + |sub|] == s[k..k + |sub|];
  }

  lemma OccursWhere(pre: string, block: string, tail: string, sub: string)
    ensures Contains(pre + block + tail, sub) <==>
      Contains(pre, sub) || Contains(tail, sub) || Recreated(Cut(pre, tail, ""), block, sub)
  {
    var all := pre + block + tail;
    assert tail + "" == tail;
    if i :| 0 <= i <= |all| && MatchAt(all, sub, i) {
      if i + |sub| <= |pre| {
        assert "" + pre + (block + tail) == all;
        MatchShifted("", pre, block + tail, sub, i);
      } else if |pre| + |block| <= i {
        assert (pre + block) + tail + "" == all;
        MatchShifted(pre + block, tail, "", sub, i);
      } else {
        assert Recreated(Cut(pre, tail, ""), block, sub);
      }
    }
    if Contains(pre, sub) {
      ContainsWider("", pre, block + tail, sub);
      assert "" + pre + (block + tail) == all;
    }
    if Contains(tail, sub) {
      ContainsWider(pre + block, tail, "", sub);
      assert (pre + block) + tail + "" == all;
    }
  }

  /** The include tokens in the merged record: whole ones, and those made by the insertion. */
  lemma ValueHolds(record: string, adds: seq<string>, inc: string)
    ensures var c, tok := CutOf(record), IncludeToken(inc);
      Contains(Insert(record, adds), tok) <==> Whole(c, tok) || Recreated(c, " " + Join(adds, " "), tok)
  {
    var c, tok, block := CutOf(record), IncludeToken(inc), " " + Join(adds, " ");
    InsertAtCut(record, adds);
    OccursWhere(c.pre, block, c.post + c.extra, tok);
    assert (c.post + c.extra) + "" == c.post + c.extra;
    if c.post == "" {
      NoIncludeInTerminator(tok);
      NoIncludeInNothing(tok);
      assert c.post + c.extra == " -all";
    } else {
      assert c.post + c.extra == c.post;
    }
  }

  lemma NoIncludeInTerminator(tok: string)
    requires tok != "" && tok[0] == 'i'
    ensures !Contains(" -all", tok)
  {
    forall i | 0 <= i <= 5 && MatchAt(" -all", tok, i) ensures false {
      CharOfMatch(" -all", tok, i, i);
    }
  }

  lemma NoIncludeInNothing(tok: string)
    requires tok != ""
    ensures !Contains("", tok)
  {
  }

  /** The exact condition for any includes, told from the record and the includes: each include that the
      record already holds occurs whole on one side of the cut, or across the block that is inserted. */
  lemma MergeIdempotentIff(current: string, includes: seq<string>) returns (value: string)
    ensures value == Merged(current, includes).value
    ensures var record := TrimSpace(current); var c := CutOf(record);
      Merged(value, includes) == Merge(value, false, false) <==>
        (InPlace(record, includes) ==> forall inc | inc in includes && Contains(record, IncludeToken(inc)) ::
          Whole(c, IncludeToken(inc)) || Recreated(c, Block(record, includes), IncludeToken(inc)))
  {
    value := Merged(current, includes).value;
    var record := TrimSpace(current);
    MergedSettled(current, includes);
    SettledUnchanged(value, includes);
    NoAdditions(value, includes);
    forall inc | inc in includes
      ensures Contains(value, IncludeToken(inc)) <==>
        (InPlace(record, includes) && Contains(record, IncludeToken(inc)) ==>
        Whole(CutOf(record), IncludeToken(inc)) || Recreated(CutOf(record), Block(record, includes), IncludeToken(inc)))
    {
      HeldIff(current, includes, inc, value);
    }
  }

  lemma HeldIff(current: string, includes: seq<string>, inc: string, value: string)
    requires value == Merged(current, includes).value && inc in includes
    ensures var record, tok := TrimSpace(current), IncludeToken(inc);
      Contains(value, tok) <==> (InPlace(record, includes) && Contains(record, tok) ==>
        Whole(CutOf(record), tok) || Recreated(CutOf(record), Block(record, includes), tok))
  {
    var record := TrimSpace(current);
    if !Contains(record, IncludeToken(inc)) {
      AbsentIsAdded(current, includes, inc, value);
    } else if InPlace(record, includes) {
      ValueHolds(record, Additions(record, includes), inc);
    } else if record == "" || !IsSpfRecord(record) {
      FreshHolds(includes, inc);
    }
  }

  // ---------------------------------------------------------------- which includes are never torn

  lemma UnbrokenSplit(s: string, pre: string, post: string, sub: string)
    requires s == pre + post && Contains(s, sub) && NoSpace(sub) && (post != "" ==> post[0] == ' ')
    ensures Contains(pre, sub) || Contains(post, sub)
  {
    var i :| 0 <= i <= |s| && MatchAt(s, sub, i);
    if i + |sub| <= |pre| {
      assert "" + pre + post == s;
      MatchShifted("", pre, post, sub, i);
    } else if |pre| <= i {
      assert pre + post + "" == s;
      MatchShifted(pre, post, "", sub, i);
    } else {
      CharOfMatch(s, sub, i, |pre|);
      assert false;
    }
  }

  /** A cut at a blank tears no text without blanks. */
  lemma UnbrokenIsWhole(record: string, sub: string)
    requires Contains(record, sub) && NoSpace(sub)
    ensures Whole(CutOf(record), sub)
  {
    InsertAtCut(record, []);
    UnbrokenSplit(record, CutOf(record).pre, CutOf(record).post, sub);
  }

  /** For includes without blanks merging again changes nothing, and every include is in the value. */
  lemma MergeIdempotent(current: string, includes: seq<string>) returns (value: string)
    requires Clean(includes)
    ensures value == Merged(current, includes).value
    ensures Merged(value, includes) == Merge(value, false, false)
    ensures forall inc | inc in includes :: Contains(value, IncludeToken(inc))
  {
    var record := TrimSpace(current);
    forall inc | inc in includes && Contains(record, IncludeToken(inc))
      ensures Whole(CutOf(record), IncludeToken(inc))
    {
      IncludeTokenNoSpace(inc);
      UnbrokenIsWhole(record, IncludeToken(inc));
    }
    value := MergeIdempotentIff(current, includes);
    UnchangedHolds(current, includes, value);
  }

  lemma UnchangedHolds(current: string, includes: seq<string>, value: string)
    requires value == Merged(current, includes).value && Merged(value, includes) == Merge(value, false, false)
    ensures forall inc | inc in includes :: Contains(value, IncludeToken(inc))
  {
    MergedSettled(current, includes);
    SettledUnchanged(value, includes);
    NoAdditions(value, includes);
  }

  // ---------------------------------------------------------------- tokens

  lemma LeadingBlank(c: char, rest: string)
    requires IsSpace(c)
    ensures Fields([c] + rest) == Fields(rest)
  {
    assert "" + [c] + rest == [c] + rest;
    FieldsAppend("", c, rest);
  }

  lemma {:induction false} FieldsTrimLeft(s: string)
    ensures Fields(TrimLeft(s)) == Fields(s)
  {
    if s != "" && IsSpace(s[0]) {
      var rest := s[1..];
      assert s == [s[0]] + rest;
      LeadingBlank(s[0], rest);
      FieldsTrimLeft(rest);
    }
  }

  lemma {:induction false} FieldsTrimRight(s: string)
    ensures Fields(TrimRight(s)) == Fields(s)
  {
    if s != "" && IsSpace(s[|s| - 1]) {
      var t := s[..|s| - 1];
      FieldsTrimRight(t);
      assert s == t + [s[|s| - 1]] + "";
      FieldsAppend(t, s[|s| - 1], "");
    }
  }

  lemma {:induction false} AdditionsAreTokens(record: string, includes: seq<string>)
    requires Clean(includes)
    ensures Words(Additions(record, includes))
    ensures CountTokens(Additions(record, includes)) == |Additions(record, includes)|
  {
    if includes != [] {
      AdditionsAreTokens(record, includes[1..]);
      IncludeTokenNoSpace(includes[0]);
      var tok, rest := IncludeToken(includes[0]), Additions(record, includes[1..]);
      if Contains(record, tok) {
        assert Additions(record, includes) == [] + rest;
        assert [] + rest == rest;
      } else {
        assert Additions(record, includes) == [tok] + rest;
        IncludeCosts(includes[0]);
        CostlyFirst(tok, rest);
      }
    }
  }

  predicate Words(tokens: seq<string>) {
    forall i | 0 <= i < |tokens| :: tokens[i] != "" && NoSpace(tokens[i])
  }

  lemma CostlyFirst(tok: string, rest: seq<string>)
    requires !CostOf(tok).Free?
    ensures CountTokens([tok] + rest) == 1 + CountTokens(rest)
  {
    assert ([tok] + rest)[0] == tok && ([tok] + rest)[1..] == rest;
  }

  lemma IncludeCosts(inc: string)
    ensures !CostOf(IncludeToken(inc)).Free?
  {
    ToLowerAppend("include:", inc);
    assert ToLower("include:") == "include:";
    assert ToLower(IncludeToken(inc))[..8] == "include:";
  }

  lemma BlockTokens(pre: string, adds: seq<string>, rest: string)
    requires Words(adds)
    ensures Fields(pre + [' '] + (Join(adds, " ") + [' '] + rest)) == Fields(pre) + (adds + Fields(rest))
  {
    FieldsJoin(adds);
    FieldsAppend(pre, ' ', Join(adds, " ") + [' '] + rest);
    FieldsAppend(Join(adds, " "), ' ', rest);
  }

  lemma InsertForm(record: string, adds: seq<string>)
    ensures var c := CutOf(record); var end := if c.post == "" then "-all" else c.post[1..];
      && Insert(record, adds) == c.pre + [' '] + (Join(adds, " ") + [' '] + end)
      && (c.post == "" ==> record == c.pre) && (c.post != "" ==> record == c.pre + [' '] + end && c.post == [' '] + end)
  {
    var c := CutOf(record);
    InsertAtCut(record, adds);
    if c.post == "" {
      assert c.post + c.extra == " -all" == [' '] + "-all";
      Regroup(c.pre, Join(adds, " "), c.post + c.extra, "-all");
    } else {
      var end := c.post[1..];
      assert c.post == [' '] + end && c.post + c.extra == c.post;
      Regroup(c.pre, Join(adds, " "), c.post, end);
      assert c.pre + [' '] + end == c.pre + ([' '] + end);
    }
  }

  lemma Regroup(pre: string, joined: string, tail: string, end: string)
    requires tail == [' '] + end
    ensures pre + (" " + joined) + tail == pre + [' '] + (joined + [' '] + end)
  {
  }

  lemma TokensAtEnd(pre: string, adds: seq<string>)
    requires Words(adds)
    ensures Fields(pre + [' '] + (Join(adds, " ") + [' '] + "-all")) == Fields(pre) + adds + ["-all"]
  {
    BlockTokens(pre, adds, "-all");
    FieldsWord("-all");
    assert Fields(pre) + (adds + ["-all"]) == Fields(pre) + adds + ["-all"];
  }

  lemma TokensInside(pre: string, adds: seq<string>, end: string)
    requires Words(adds)
    ensures Fields(pre + [' '] + end) == Fields(pre) + Fields([' '] + end)
    ensures Fields(pre + [' '] + (Join(adds, " ") + [' '] + end)) == Fields(pre) + adds + Fields([' '] + end)
  {
    BlockTokens(pre, adds, end);
    FieldsAppend(pre, ' ', end);
    LeadingBlank(' ', end);
    TokensRegroup(Fields(pre), adds, Fields(end));
  }

  lemma TokensRegroup(a: seq<string>, b: seq<string>, c: seq<string>)
    ensures a + (b + c) == a + b + c
  {
  }

  /** The tokens around the additions, and what is appended after them. */
  lemma TokensAtCut(record: string, adds: seq<string>)
    requires Words(adds)
    ensures var c := CutOf(record);
      && Fields(record) == Fields(c.pre) + Fields(c.post)
      && Fields(Insert(record, adds)) == Fields(c.pre) + adds + Fields(c.post) + (if c.post == "" then ["-all"] else [])
  {
    var c := CutOf(record);
    InsertForm(record, adds);
    if c.post == "" {
      TokensAtEnd(c.pre, adds);
      assert Fields("") == [];
    } else {
      TokensInside(c.pre, adds, c.post[1..]);
    }
  }

  /** Merging into an SPF record keeps its tokens in order, puts the new ones in one block, and raises
      the surface lookup count by exactly their number. */
  lemma MergeTokens(current: string, includes: seq<string>) returns (before: seq<string>, after: seq<string>)
    requires Clean(includes) && TrimSpace(current) != "" && IsSpfRecord(TrimSpace(current))
    ensures var adds, value := Additions(TrimSpace(current), includes), Merged(current, includes).value;
      && Fields(current) == before + after
      && (Fields(value) == before + adds + after || Fields(value) == before + adds + after + ["-all"])
      && SurfaceCount(value) == SurfaceCount(current) + |adds|
  {
    var record := TrimSpace(current);
    var adds := Additions(record, includes);
    FieldsTrimRight(TrimLeft(current));
    FieldsTrimLeft(current);
    AdditionsAreTokens(record, includes);
    if adds == [] {
      before, after := Fields(record), [];
    } else {
      before, after := Fields(CutOf(record).pre), Fields(CutOf(record).post);
      TokensAtCut(record, adds);
      CountAround(before, adds, after, if CutOf(record).post == "" then ["-all"] else []);
    }
  }

  lemma CountAround(before: seq<string>, adds: seq<string>, after: seq<string>, extra: seq<string>)
    requires extra == [] || extra == ["-all"]
    ensures CountTokens(before + adds + after + extra) == CountTokens(before + after) + CountTokens(adds)
  {
    CountTokensAppend(before + adds + after, extra);
    CountTokensAppend(before + adds, after);
    CountTokensAppend(before, adds);
    CountTokensAppend(before, after);
    TerminatorIsFree("-all");
    assert ["-all"][1..] == [];
  }

  lemma OtherStart(s: string, p: string)
    requires s != "" && p != "" && s[0] != p[0]
    ensures !HasPrefix(s, p)
  {
  }

  lemma TerminatorIsFree(tok: string)
    requires tok != "" && tok[0] == '-'
    ensures CostOf(tok).Free?
  {
    var low := ToLower(tok);
    assert low[0] == '-';
    OtherStart(low, "a:");
    OtherStart(low, "mx:");
    OtherStart(low, "ptr:");
    OtherStart(low, "exists:");
    OtherStart(low, "include:");
    OtherStart(low, "redirect=");
  }

  // ---------------------------------------------------------------- includes with blanks

  const TORN_INCLUDES := ["a -all", "b"]
  const TORN_BEFORE := "v=spf1 include:a -all"
  const TORN_AFTER := "v=spf1 include:a include:b -all"

  lemma LacksB()
    ensures !Contains(TORN_BEFORE, "include:b")
  {
    forall i | 0 <= i <= |TORN_BEFORE| && MatchAt(TORN_BEFORE, "include:b", i) ensures false {
      CharOfMatch(TORN_BEFORE, "include:b", i, i + 8);
    }
  }

  lemma HyphenPlaces()
    ensures forall k | 0 <= k < |TORN_BEFORE| && TORN_BEFORE[k] == '-' :: k == 17
    ensures forall k | 0 <= k < |TORN_AFTER| && TORN_AFTER[k] == '-' :: k == 27
  {
  }

  lemma TornMark()
    ensures Index(TORN_BEFORE, " -all") == 16
  {
    HyphenPlaces();
    assert MatchAt(TORN_BEFORE, " -all", 16);
    forall i | 0 <= i <= |TORN_BEFORE| && MatchAt(TORN_BEFORE, " -all", i) ensures i == 16 {
      CharOfMatch(TORN_BEFORE, " -all", i, i + 1);
    }
  }

  lemma TornApart()
    ensures !Contains(TORN_AFTER, "include:a -all")
  {
    HyphenPlaces();
    forall i | 0 <= i <= |TORN_AFTER| && MatchAt(TORN_AFTER, "include:a -all", i) ensures false {
      CharOfMatch(TORN_AFTER, "include:a -all", i, i + 10);
      CharOfMatch(TORN_AFTER, "include:a -all", i, i + 8);
    }
  }

  lemma TornAdditions()
    ensures Additions(TORN_BEFORE, TORN_INCLUDES) == ["include:b"]
    ensures Additions(TORN_AFTER, TORN_INCLUDES) != []
  {
    LacksB();
    TornApart();
    assert IncludeToken("a -all") == "include:a -all" && IncludeToken("b") == "include:b";
    assert MatchAt(TORN_BEFORE, "include:a -all", 7);
    TwoAdditions(TORN_BEFORE, "a -all", "b");
    NoAdditions(TORN_AFTER, TORN_INCLUDES);
    assert "a -all" in TORN_INCLUDES;
  }

  lemma TwoAdditions(record: string, a: string, b: string)
    requires Contains(record, IncludeToken(a)) && !Contains(record, IncludeToken(b))
    ensures Additions(record, [a, b]) == [IncludeToken(b)]
  {
    assert [a, b][1..] == [b] && [b][1..] == [];
    assert Additions(record, [b]) == [IncludeToken(b)] + [];
  }

  lemma TornPieces()
    ensures TORN_BEFORE == "v=spf1 include:a" + " -all"
    ensures TORN_AFTER == "v=spf1 include:a" + (" " + "include:b") + " -all"
  {
  }

  lemma TornInsert()
    ensures Insert(TORN_BEFORE, ["include:b"]) == TORN_AFTER
  {
    TornMark();
    TornPieces();
    InsertAtHardFail(TORN_BEFORE, "v=spf1 include:a", " -all", "include:b");
  }

  lemma InsertAtHardFail(record: string, a: string, b: string, tok: string)
    requires record == a + b && Index(record, " -all") == |a|
    ensures Insert(record, [tok]) == a + (" " + tok) + b
  {
    assert MARKS[0] == " -all";
    FirstMarkFound(record, MARKS);
    assert Join([tok], " ") == tok;
    assert record[..|a|] == a && record[|a|..] == b;
  }

  lemma FirstMarkFound(record: string, marks: seq<string>)
    requires marks != [] && Index(record, marks[0]) >= 0
    ensures FirstMark(record, marks) == Index(record, marks[0])
  {
  }

  lemma RecordWith(rest: string)
    requires rest != "" && !IsSpace(rest[|rest| - 1])
    ensures TrimSpace("v=spf1" + rest) == "v=spf1" + rest && IsSpfRecord("v=spf1" + rest)
  {
    assert ToLower("v=spf1") == "v=spf1";
    SpfStart("v=spf1", rest);
    TrimSpaceFixed("v=spf1" + rest);
  }

  lemma TornBeforeIsRecord()
    ensures TrimSpace(TORN_BEFORE) == TORN_BEFORE && IsSpfRecord(TORN_BEFORE)
  {
    var rest := " include:a -all";
    assert TORN_BEFORE == "v=spf1" + rest;
    RecordWith(rest);
  }

  lemma TornAfterIsRecord()
    ensures TrimSpace(TORN_AFTER) == TORN_AFTER && IsSpfRecord(TORN_AFTER)
  {
    var rest := " include:a include:b -all";
    assert TORN_AFTER == "v=spf1" + rest;
    RecordWith(rest);
  }

  /** An include with a blank can be torn apart by the next one: merging again then adds it anew. */
  lemma BlanksBreakIdempotence()
    ensures Merged(TORN_BEFORE, TORN_INCLUDES) == Merge(TORN_AFTER, true, false)
    ensures Merged(TORN_AFTER, TORN_INCLUDES).changed
  {
    TornBeforeIsRecord();
    TornAfterIsRecord();
    TornAdditions();
    TornInsert();
  }
}
