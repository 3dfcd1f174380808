/** The texts that a merge writes, spelled out. */
module MergeTexts {
  import opened Text
  import opened MergeSpf
  import opened MergeSeams

  function Listed(includes: seq<string>): string {
    if includes == [] then "" else " include:" + includes[0] + Listed(includes[1..])
  }

  lemma {:induction false} BlocksListed(includes: seq<string>)
    ensures Blocks(IncludeTokens(includes)) == Listed(includes)
  {
    if includes != [] {
      BlocksListed(includes[1..]);
      assert IncludeTokens(includes)[1..] == IncludeTokens(includes[1..]);
      assert " " + ("include:" + includes[0]) == " include:" + includes[0];
    }
  }

  lemma JoinListed(includes: seq<string>)
    requires includes != []
    ensures " " + Join(IncludeTokens(includes), " ") == Listed(includes)
  {
    BlocksJoin(IncludeTokens(includes));
    BlocksListed(includes);
  }

  lemma JoinAround(first: string, toks: seq<string>, last: string)
    requires toks != []
    ensures Join([first] + toks + [last], " ") == first + (" " + Join(toks, " ")) + (" " + last)
  {
    JoinAppend([first] + toks, [last], " ");
    JoinAppend([first], toks, " ");
  }

  /** A new record: the version, the includes in order, and "~all". */
  lemma FreshIs(includes: seq<string>)
    ensures FreshRecord(includes) == "v=spf1" + Listed(includes) + " ~all"
  {
    var toks := IncludeTokens(includes);
    if includes == [] {
      assert ["v=spf1"] + toks + ["~all"] == ["v=spf1"] + ["~all"];
      JoinAppend(["v=spf1"], ["~all"], " ");
    } else {
      JoinListed(includes);
      JoinAround("v=spf1", toks, "~all");
    }
  }

  /** The includes that the record does not mention, in order. */
  function Missing(record: string, includes: seq<string>): seq<string> {
    if includes == [] then []
    else
      var last := includes[|includes| - 1];
      Missing(record, includes[..|includes| - 1]) + if Contains(record, "include:" + last) then [] else [last]
  }

  lemma {:induction false} AdditionsAppend(record: string, a: seq<string>, b: seq<string>)
    ensures Additions(record, a + b) == Additions(record, a) + Additions(record, b)
  {
    if a == [] {
      assert a + b == b;
    } else {
      assert (a + b)[1..] == a[1..] + b;
      AdditionsAppend(record, a[1..], b);
    }
  }

  lemma {:induction false} AdditionsAre(record: string, includes: seq<string>)
    ensures Additions(record, includes) == IncludeTokens(Missing(record, includes))
  {
    if includes != [] {
      var front, last := includes[..|includes| - 1], includes[|includes| - 1];
      assert includes == front + [last];
      AdditionsAre(record, front);
      AdditionsAppend(record, front, [last]);
      assert [last][1..] == [];
      TokensAppend(Missing(record, front), if Contains(record, "include:" + last) then [] else [last]);
    }
  }

  lemma TokensAppend(a: seq<string>, b: seq<string>)
    ensures IncludeTokens(a + b) == IncludeTokens(a) + IncludeTokens(b)
  {
  }

  predicate FirstAt(record: string, mark: string, i: nat) {
    MatchAt(record, mark, i) && forall j | 0 <= j < i :: !MatchAt(record, mark, j)
  }

  /** The text goes before the first of the marks that occurs, in this order of preference; at the end, with " -all"
      after it, when none does. */
  predicate PlacedIn(record: string, text: string, value: string) {
    var marks := [" -all", " ~all", " ?all", " +all", " redirect="];
    && (forall m, i: nat | 0 <= m < 5 && i <= |record| && FirstAt(record, marks[m], i) &&
          (forall k | 0 <= k < m :: !Contains(record, marks[k])) ::
          value == record[..i] + text + record[i..])
    && ((forall k | 0 <= k < 5 :: !Contains(record, marks[k])) ==> value == record + text + " -all")
  }

  lemma {:induction false} FirstMarkSkips(record: string, marks: seq<string>, m: nat)
    requires m < |marks| && forall k | 0 <= k < m :: !Contains(record, marks[k])
    ensures FirstMark(record, marks) == FirstMark(record, marks[m..])
  {
    if m > 0 {
      assert !Contains(record, marks[0]);
      forall k | 0 <= k < m - 1 ensures !Contains(record, marks[1..][k]) {
        assert marks[1..][k] == marks[k + 1];
      }
      FirstMarkSkips(record, marks[1..], m - 1);
      assert marks[1..][m - 1..] == marks[m..];
    }
  }

  lemma {:induction false} NoMark(record: string, marks: seq<string>)
    requires forall k | 0 <= k < |marks| :: !Contains(record, marks[k])
    ensures FirstMark(record, marks) == -1
  {
    if marks != [] {
      assert !Contains(record, marks[0]);
      forall k | 0 <= k < |marks| - 1 ensures !Contains(record, marks[1..][k]) {
        assert marks[1..][k] == marks[k + 1];
      }
      NoMark(record, marks[1..]);
    }
  }

  lemma InsertPlaces(record: string, adds: seq<string>)
    ensures PlacedIn(record, " " + Join(adds, " "), Insert(record, adds))
  {
    var marks := [" -all", " ~all", " ?all", " +all", " redirect="];
    assert marks == MARKS;
    forall m, i: nat | 0 <= m < 5 && i <= |record| && FirstAt(record, marks[m], i) &&
      (forall k | 0 <= k < m :: !Contains(record, marks[k]))
      ensures FirstMark(record, MARKS) == i
    {
      FirstMarkSkips(record, marks, m);
      assert marks[m..][0] == marks[m];
    }
    if forall k | 0 <= k < 5 :: !Contains(record, marks[k]) {
      NoMark(record, marks);
    }
  }

  /** What a merge makes of a record, in each case. */
  lemma MergedIs(current: string, includes: seq<string>)
    ensures var record, m := TrimSpace(current), Merged(current, includes);
      var missing := Missing(record, includes);
      if record == "" then m == Merge("v=spf1" + Listed(includes) + " ~all", true, false)
      else if !HasPrefix(ToLower(record), "v=spf1") then m == Merge("v=spf1" + Listed(includes) + " ~all", true, true)
      else if missing == [] then m == Merge(record, false, false)
      else m.changed && !m.broken && PlacedIn(record, Listed(missing), m.value)
  {
    var record := TrimSpace(current);
    FreshIs(includes);
    AdditionsAre(record, includes);
    if Missing(record, includes) != [] {
      InsertPlaces(record, Additions(record, includes));
      JoinListed(Missing(record, includes));
    }
  }
}
