/** Merging include mechanisms into an SPF record. */
module MergeSpf {
  import opened Text
  import opened SpfCount

  // ---------------------------------------------------------------- the merge

  function IncludeToken(inc: string): string {
    "include:" + inc
  }

  /** The include tokens that the record does not hold yet, as substrings. */
  function Additions(record: string, includes: seq<string>): seq<string> {
    if includes == [] then []
    else
      (if Contains(record, IncludeToken(includes[0])) then [] else [IncludeToken(includes[0])]) +
      Additions(record, includes[1..])
  }

  function IncludeTokens(includes: seq<string>): (s: seq<string>)
    ensures |s| == |includes|
  {
    seq(|includes|, i requires 0 <= i < |includes| => IncludeToken(includes[i]))
  }

  function FreshRecord(includes: seq<string>): string {
    Join(["v=spf1"] + IncludeTokens(includes) + ["~all"], " ")
  }

  /** The places where additions go, in order of preference. */
  const MARKS := [" -all", " ~all", " ?all", " +all", " redirect="]

  /** The first occurrence of the first mark that occurs; -1 when none does. */
  function FirstMark(record: string, marks: seq<string>): (i: int)
    ensures i == -1 || exists m | m in marks :: 0 <= i <= |record| && MatchAt(record, m, i)
  {
    if marks == [] then -1
    else if Index(record, marks[0]) >= 0 then Index(record, marks[0])
    else FirstMark(record, marks[1..])
  }

  function Insert(record: string, adds: seq<string>): string {
    var text := " " + Join(adds, " ");
    var idx := FirstMark(record, MARKS);
    if idx >= 0 then record[..idx] + text + record[idx..] else record + text + " -all"
  }

  predicate IsSpfRecord(record: string) {
    HasPrefix(ToLower(record), "v=spf1")
  }

  datatype Merge = Merge(value: string, changed: bool, broken: bool)

  function Merged(current: string, includes: seq<string>): Merge {
    var record := TrimSpace(current);
    if record == "" then Merge(FreshRecord(includes), true, false)
    else if !IsSpfRecord(record) then Merge(FreshRecord(includes), true, true)
    else
      var adds := Additions(record, includes);
      if adds == [] then Merge(record, false, false) else Merge(Insert(record, adds), true, false)
  }

  datatype MergeResult = MergeResult(merge: Merge, lookupCount: nat, limitExceeded: bool)

  method BuildFresh(includes: seq<string>) returns (record: string)
    ensures record == FreshRecord(includes)
  {
    if |includes| == 0 {
      assert ["v=spf1"] + IncludeTokens(includes) + ["~all"] == ["v=spf1", "~all"];
      assert ["v=spf1", "~all"][1..] == ["~all"];
      return "v=spf1 ~all";
    }
    var parts := ["v=spf1"];
    for i := 0 to |includes|
      invariant parts == ["v=spf1"] + IncludeTokens(includes)[..i]
    {
      parts := parts + [IncludeToken(includes[i])];
    }
    assert IncludeTokens(includes)[..|includes|] == IncludeTokens(includes);
    record := Join(parts + ["~all"], " ");
  }

  method FindAdditions(record: string, includes: seq<string>) returns (additions: seq<string>)
    ensures additions == Additions(record, includes)
  {
    additions := [];
    for i := 0 to |includes|
      invariant additions + Additions(record, includes[i..]) == Additions(record, includes)
    {
      assert includes[i..][0] == includes[i] && includes[i..][1..] == includes[i + 1..];
      if !Contains(record, IncludeToken(includes[i])) {
        additions := additions + [IncludeToken(includes[i])];
      }
    }
  }

  method InsertAdditions(record: string, additions: seq<string>) returns (value: string)
    ensures value == Insert(record, additions)
  {
    var insert := " " + Join(additions, " ");
    for i := 0 to |MARKS|
      invariant FirstMark(record, MARKS) == FirstMark(record, MARKS[i..])
    {
      assert MARKS[i..][0] == MARKS[i] && MARKS[i..][1..] == MARKS[i + 1..];
      var idx := Index(record, MARKS[i]);
      if idx >= 0 {
        return record[..idx] + insert + record[idx..];
      }
    }
    value := record + insert + " -all";
  }

  method MergeSPF(current: string, includes: seq<string>, resolver: Option<Resolver>) returns (res: MergeResult)
    ensures res.merge == Merged(current, includes)
    ensures var value := res.merge.value;
      res.lookupCount ==
        if resolver.None? || CountRecord(resolver.value, value, 0, {}).failed then SurfaceCount(value)
        else CountRecord(resolver.value, value, 0, {}).count
    ensures res.limitExceeded <==> res.lookupCount > 10
  {
    var record := TrimSpace(current);
    var merge: Merge;
    if record == "" {
      var value := BuildFresh(includes);
      merge := Merge(value, true, false);
    } else if !IsSpfRecord(record) {
      var value := BuildFresh(includes);
      merge := Merge(value, true, true);
    } else {
      var additions := FindAdditions(record, includes);
      if |additions| == 0 {
        merge := Merge(record, false, false);
      } else {
        var value := InsertAdditions(record, additions);
        merge := Merge(value, true, false);
      }
    }
    var count := CountSPFLookups(merge.value);
    if resolver.Some? {
      var total, failed, _ := RecursiveSPFLookupCount(resolver.value, merge.value, 0, {});
      if !failed {
        count := total;
      }
    }
    res := MergeResult(merge, count, count > 10);
  }
}
