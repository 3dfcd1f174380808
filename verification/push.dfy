/** Pushing an SPF record to a provider that upserts by type and name. */
module Push {
  import opened Text
  import opened Records
  import opened MergeSpf
  import opened MergeTheorems

  // ---------------------------------------------------------------- the provider's list

  /** The position of the first record with the name; the length when there is none. */
  function FirstAt(list: seq<Record>, name: string): (i: nat)
    ensures i <= |list| && (i < |list| ==> list[i].name == name)
    ensures forall j | 0 <= j < i :: list[j].name != name
  {
    if list == [] || list[0].name == name then 0 else 1 + FirstAt(list[1..], name)
  }

  function Upsert(list: seq<Record>, r: Record): seq<Record> {
    var i := FirstAt(list, r.name);
    if i < |list| then list[i := r] else list + [r]
  }

  /** A provider in memory: one list of records for each type. */
  class FakeProvider {
    var records: map<string, seq<Record>>

    function Of(recordType: string): seq<Record>
      reads this
    {
      if recordType in records then records[recordType] else []
    }

    constructor ()
      ensures records == map[]
    {
      records := map[];
    }

    method GetRecords(recordType: string) returns (list: seq<Record>)
      ensures list == Of(recordType)
    {
      list := Of(recordType);
    }

    method SetRecord(r: Record)
      modifies this
      ensures records == old(records)[r.typ := Upsert(old(Of(r.typ)), r)]
    {
      var list := Of(r.typ);
      for i := 0 to |list|
        invariant records == old(records)
        invariant forall j | 0 <= j < i :: list[j].name != r.name
      {
        if list[i].name == r.name {
          records := records[r.typ := list[i := r]];
          return;
        }
      }
      records := records[r.typ := list + [r]];
    }
  }

  // ---------------------------------------------------------------- one push

  predicate IsSpfOf(r: Record, domain: string) {
    r.name == domain && IsSpfRecord(r.content)
  }

  /** The position of the domain's first SPF record; the length when there is none. */
  function FirstSpf(list: seq<Record>, domain: string): (i: nat)
    ensures i <= |list| && (i < |list| ==> IsSpfOf(list[i], domain))
    ensures forall j | 0 <= j < i :: !IsSpfOf(list[j], domain)
  {
    if list == [] || IsSpfOf(list[0], domain) then 0 else 1 + FirstSpf(list[1..], domain)
  }

  function CurrentSpf(list: seq<Record>, domain: string): string {
    var i := FirstSpf(list, domain);
    if i < |list| then list[i].content else ""
  }

  datatype PushStatus = Created | Updated | AlreadyConfigured | Failed

  datatype PushResult = PushResult(status: PushStatus, value: string, previous: string)

  /** Which provider call fails, if any. */
  datatype Outage = Up | CannotRead | CannotWrite

  function SpfAt(domain: string, value: string): Record {
    Record("TXT", domain, value, 300, 0, 0, 0, "", "", None)
  }

  /** What a push answers, and the TXT records it leaves, once the merge is known. */
  function Written(list: seq<Record>, domain: string, current: string, merge: Merge, outage: Outage):
      (PushResult, seq<Record>)
  {
    if outage == CannotRead then (PushResult(Failed, "", ""), list)
    else if !merge.changed then (PushResult(AlreadyConfigured, merge.value, current), list)
    else if outage == CannotWrite then (PushResult(Failed, merge.value, current), list)
    else (PushResult(if current == "" then Created else Updated, merge.value, current),
      Upsert(list, SpfAt(domain, merge.value)))
  }

  function Pushed(list: seq<Record>, domain: string, includes: seq<string>, outage: Outage): (PushResult, seq<Record>) {
    var current := CurrentSpf(list, domain);
    Written(list, domain, current, Merged(current, includes), outage)
  }

  method FindSpf(list: seq<Record>, domain: string) returns (current: string)
    ensures current == CurrentSpf(list, domain)
  {
    for i := 0 to |list|
      invariant forall j | 0 <= j < i :: !IsSpfOf(list[j], domain)
    {
      if list[i].name == domain && IsSpfRecord(list[i].content) {
        return list[i].content;
      }
    }
    current := "";
  }

  method Write(p: FakeProvider, domain: string, current: string, merge: Merge, outage: Outage)
      returns (result: PushResult)
    requires outage != CannotRead
    modifies p
    ensures var after := Written(old(p.Of("TXT")), domain, current, merge, outage);
      && result == after.0
      && p.Of("TXT") == after.1
      && (forall t | t != "TXT" :: p.Of(t) == old(p.Of(t)))
      && (result.status in {AlreadyConfigured, Failed} ==> p.records == old(p.records))
  {
    if !merge.changed {
      return PushResult(AlreadyConfigured, merge.value, current);
    }
    if outage == CannotWrite {
      return PushResult(Failed, merge.value, current);
    }
    p.SetRecord(SpfAt(domain, merge.value));
    result := PushResult(if current == "" then Created else Updated, merge.value, current);
  }

  method PushSPFRecord(p: FakeProvider, domain: string, includes: seq<string>, outage: Outage)
      returns (result: PushResult)
    modifies p
    ensures var after := Pushed(old(p.Of("TXT")), domain, includes, outage);
      && result == after.0
      && p.Of("TXT") == after.1
      && (forall t | t != "TXT" :: p.Of(t) == old(p.Of(t)))
      && (result.status in {AlreadyConfigured, Failed} ==> p.records == old(p.records))
  {
    if outage == CannotRead {
      return PushResult(Failed, "", "");
    }
    var records := p.GetRecords("TXT");
    var currentSPF := FindSpf(records, domain);
    var res := MergeSPF(currentSPF, includes, None);
    result := Write(p, domain, currentSPF, res.merge, outage);
  }

  // ---------------------------------------------------------------- pushing twice

  /** After an upsert, the first record with that name is the new one. */
  lemma UpsertIsFirst(list: seq<Record>, r: Record)
    ensures var i, after := FirstAt(list, r.name), Upsert(list, r);
      i < |after| && after[i] == r && FirstAt(after, r.name) == i
  {
  }

  /** The SPF record that was written is the one found next time. */
  lemma WrittenIsCurrent(list: seq<Record>, domain: string, value: string)
    requires IsSpfRecord(value)
    ensures CurrentSpf(Upsert(list, SpfAt(domain, value)), domain) == value
  {
    UpsertIsFirst(list, SpfAt(domain, value));
  }

  lemma MergedIsSpf(current: string, includes: seq<string>)
    ensures IsSpfRecord(Merged(current, includes).value)
  {
    MergedSettled(current, includes);
  }

  lemma NothingToWrite(list: seq<Record>, domain: string, includes: seq<string>, outage: Outage)
    requires outage != CannotRead && !Merged(CurrentSpf(list, domain), includes).changed
    ensures Pushed(list, domain, includes, outage).0.status == AlreadyConfigured
    ensures Pushed(list, domain, includes, outage).1 == list
  {
  }

  lemma MergedOnce(list: seq<Record>, domain: string, includes: seq<string>, merge: Merge)
    requires merge == Merged(CurrentSpf(list, domain), includes)
    ensures Pushed(list, domain, includes, Up).0.value == merge.value
    ensures Pushed(list, domain, includes, Up).1 ==
            if merge.changed then Upsert(list, SpfAt(domain, merge.value)) else list
  {
  }

  /** A push that went through leaves nothing to write, and every include is in what it wrote. */
  lemma PushTwice(list: seq<Record>, domain: string, includes: seq<string>, again: Outage)
    requires Clean(includes) && again != CannotRead
    ensures var once := Pushed(list, domain, includes, Up);
      var twice := Pushed(once.1, domain, includes, again);
      && twice.0.status == AlreadyConfigured && twice.1 == once.1
      && forall inc | inc in includes :: Contains(once.0.value, IncludeToken(inc))
  {
    var current := CurrentSpf(list, domain);
    var merge := Merged(current, includes);
    MergedOnce(list, domain, includes, merge);
    var _ := MergeIdempotent(current, includes);
    if merge.changed {
      MergedIsSpf(current, includes);
      WrittenIsCurrent(list, domain, merge.value);
    }
    NothingToWrite(Pushed(list, domain, includes, Up).1, domain, includes, again);
  }

  // ---------------------------------------------------------------- what else a push touches

  /** Writing replaces the SPF record that was read, or adds one, exactly when no other text of the
      domain comes first; otherwise that other text is lost. */
  lemma PushSparesOthers(list: seq<Record>, domain: string, value: string)
    requires IsSpfRecord(value)
    ensures var i, r := FirstSpf(list, domain), SpfAt(domain, value);
      Upsert(list, r) == (if i < |list| then list[i := r] else list + [r]) <==> FirstAt(list, domain) == i
  {
    var i, k, r := FirstSpf(list, domain), FirstAt(list, domain), SpfAt(domain, value);
    assert k <= i;
    if k < i {
      assert Upsert(list, r)[k] == r && list[k] != r;
      if i < |list| {
        assert list[i := r][k] == list[k];
      }
    }
  }

  /** A domain whose only text is no SPF record loses it to its first push, whatever the text and the includes. */
  lemma FirstPushCanLoseText(domain: string, text: Record, includes: seq<string>)
    requires text.name == domain && !IsSpfRecord(text.content)
    ensures var pushed := Pushed([text], domain, includes, Up);
      pushed.0.status == Created && pushed.1 == [SpfAt(domain, FreshRecord(includes))] && text !in pushed.1
  {
    var r := SpfAt(domain, FreshRecord(includes));
    assert [text][1..] == [];
    assert CurrentSpf([text], domain) == "";
    assert FirstAt([text], domain) == 0 && [text][0 := r] == [r];
    MergedIsSpf("", includes);
  }

  // ---------------------------------------------------------------- a push, spelled out

  predicate IsSpfText(r: Record, domain: string) {
    r.name == domain && HasPrefix(ToLower(r.content), "v=spf1")
  }

  /** The current record is the first text of the domain that starts with the version. */
  lemma CurrentIs(front: seq<Record>, r: Record, back: seq<Record>, domain: string)
    requires IsSpfText(r, domain) && forall s | s in front :: !IsSpfText(s, domain)
    ensures CurrentSpf(front + [r] + back, domain) == r.content
    ensures CurrentSpf(front, domain) == ""
  {
    var list := front + [r] + back;
    assert list[|front|] == r;
    assert forall j | 0 <= j < |front| :: list[j] == front[j] && front[j] in front;
    assert FirstSpf(list, domain) == |front|;
    assert FirstSpf(front, domain) == |front|;
  }

  /** What a push answers and leaves, outage by outage. */
  lemma PushedIs(list: seq<Record>, domain: string, includes: seq<string>, outage: Outage)
    ensures var current := CurrentSpf(list, domain);
      var merge := Merged(current, includes);
      var written := Record("TXT", domain, merge.value, 300, 0, 0, 0, "", "", None);
      var after := Pushed(list, domain, includes, outage);
      if outage == CannotRead then after == (PushResult(Failed, "", ""), list)
      else if !merge.changed then after == (PushResult(AlreadyConfigured, merge.value, current), list)
      else if outage == CannotWrite then after == (PushResult(Failed, merge.value, current), list)
      else after.0 == PushResult(if current == "" then Created else Updated, merge.value, current)
           && Replaced(list, written, after.1)
  {
    var current := CurrentSpf(list, domain);
    if outage == Up && Merged(current, includes).changed {
      UpsertReplaces(list, SpfAt(domain, Merged(current, includes).value));
    }
  }

  /** The record takes the place of the first one with its name, or comes last. */
  ghost predicate Replaced(list: seq<Record>, r: Record, after: seq<Record>) {
    || (after == list + [r] && forall s | s in list :: s.name != r.name)
    || exists i | 0 <= i < |list| :: FirstOfName(list, i, r.name) && after == list[..i] + [r] + list[i + 1..]
  }

  predicate FirstOfName(list: seq<Record>, i: nat, name: string)
    requires i < |list|
  {
    list[i].name == name && forall j | 0 <= j < i :: list[j].name != name
  }

  lemma UpsertReplaces(list: seq<Record>, r: Record)
    ensures Replaced(list, r, Upsert(list, r))
  {
    var i := FirstAt(list, r.name);
    if i < |list| {
      assert FirstOfName(list, i, r.name);
      assert list[i := r] == list[..i] + [r] + list[i + 1..];
    }
  }
}
