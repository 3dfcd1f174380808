/** Lists of records as the engine edits them: selection, counted removal, deduplication. */
module RecordLists {
  import opened Records

  /** The multiset of identities of a list. */
  function Keys(s: seq<Record>): multiset<Key> {
    if s == [] then multiset{} else multiset{KeyOf(s[0])} + Keys(s[1..])
  }

  function KeySet(s: seq<Record>): set<Key> {
    set r | r in s :: KeyOf(r)
  }

  /** The records of `s` with identity `k`, in order. */
  function OfKey(k: Key, s: seq<Record>): seq<Record> {
    Filter(r => KeyOf(r) == k, s)
  }

  function Filter(p: Record -> bool, s: seq<Record>): seq<Record> {
    if s == [] then []
    else if p(s[0]) then [s[0]] + Filter(p, s[1..])
    else Filter(p, s[1..])
  }

  function Not(p: Record -> bool): Record -> bool {
    r => !p(r)
  }

  function Min(a: nat, b: nat): nat {
    if a < b then a else b
  }

  lemma {:induction false} KeysAppend(a: seq<Record>, b: seq<Record>)
    ensures Keys(a + b) == Keys(a) + Keys(b)
  {
    if a == [] {
      assert a + b == b;
    } else {
      assert (a + b)[1..] == a[1..] + b;
      KeysAppend(a[1..], b);
    }
  }

  lemma KeysOne(r: Record)
    ensures Keys([r]) == multiset{KeyOf(r)}
  {
    assert [r][1..] == [];
  }

  lemma {:induction false} KeysMembers(s: seq<Record>, k: Key)
    ensures k in Keys(s) <==> k in KeySet(s)
  {
    if s != [] {
      KeysMembers(s[1..], k);
      assert forall r :: r in s <==> r == s[0] || r in s[1..];
    }
  }

  lemma {:induction false} FilterAppend(p: Record -> bool, a: seq<Record>, b: seq<Record>)
    ensures Filter(p, a + b) == Filter(p, a) + Filter(p, b)
  {
    if a == [] {
      assert a + b == b;
    } else {
      assert (a + b)[1..] == a[1..] + b;
      FilterAppend(p, a[1..], b);
    }
  }

  lemma FilterOne(p: Record -> bool, r: Record)
    ensures Filter(p, [r]) == if p(r) then [r] else []
  {
    assert [r][1..] == [];
  }

  lemma {:induction false} FilterMembers(p: Record -> bool, s: seq<Record>, r: Record)
    ensures r in Filter(p, s) <==> r in s && p(r)
  {
    if s != [] {
      FilterMembers(p, s[1..], r);
      assert r in s <==> r == s[0] || r in s[1..];
    }
  }

  /** Selecting splits a list in two, losing nothing. */
  lemma {:induction false} FilterPartitions(p: Record -> bool, s: seq<Record>)
    ensures Keys(Filter(p, s)) + Keys(Filter(Not(p), s)) == Keys(s)
    ensures |Filter(p, s)| + |Filter(Not(p), s)| == |s|
  {
    if s != [] {
      FilterPartitions(p, s[1..]);
      if p(s[0]) {
        assert Filter(p, s)[1..] == Filter(p, s[1..]);
      } else {
        assert Filter(Not(p), s)[1..] == Filter(Not(p), s[1..]);
      }
    }
  }

  lemma {:induction false} OfKeyCount(k: Key, s: seq<Record>)
    ensures |OfKey(k, s)| == Keys(s)[k]
  {
    if s != [] {
      OfKeyCount(k, s[1..]);
    }
  }

  method Select(zone: seq<Record>, p: Record -> bool) returns (dels: seq<Record>)
    ensures dels == Filter(p, zone)
  {
    dels := [];
    for i := 0 to |zone|
      invariant dels == Filter(p, zone[..i])
    {
      FilterAppend(p, zone[..i], [zone[i]]);
      assert zone[..i + 1] == zone[..i] + [zone[i]];
      if p(zone[i]) {
        dels := dels + [zone[i]];
      }
    }
    assert zone[..|zone|] == zone;
  }

  // ---------------------------------------------------------------- counted removal

  /** Drops from `zone`, front to back, one record for each identity still counted in `c`. */
  function Remove(zone: seq<Record>, c: multiset<Key>): seq<Record> {
    if zone == [] then []
    else if KeyOf(zone[0]) in c then Remove(zone[1..], c - multiset{KeyOf(zone[0])})
    else [zone[0]] + Remove(zone[1..], c)
  }

  function Count(m: map<Key, nat>, k: Key): nat {
    if k in m then m[k] else 0
  }

  ghost predicate Tracks(m: map<Key, nat>, c: multiset<Key>) {
    forall k :: Count(m, k) == c[k]
  }

  method CountKeys(toRemove: seq<Record>) returns (removeSet: map<Key, nat>)
    ensures Tracks(removeSet, Keys(toRemove))
  {
    removeSet := map[];
    for i := 0 to |toRemove|
      invariant Tracks(removeSet, Keys(toRemove[..i]))
    {
      var k := KeyOf(toRemove[i]);
      assert toRemove[..i + 1] == toRemove[..i] + [toRemove[i]];
      KeysAppend(toRemove[..i], [toRemove[i]]);
      KeysOne(toRemove[i]);
      removeSet := removeSet[k := Count(removeSet, k) + 1];
    }
    assert toRemove[..|toRemove|] == toRemove;
  }

  lemma RemoveAt(zone: seq<Record>, i: nat, c: multiset<Key>)
    requires i < |zone|
    ensures KeyOf(zone[i]) in c ==> Remove(zone[i..], c) == Remove(zone[i + 1..], c - multiset{KeyOf(zone[i])})
    ensures KeyOf(zone[i]) !in c ==> Remove(zone[i..], c) == [zone[i]] + Remove(zone[i + 1..], c)
  {
    assert zone[i..][1..] == zone[i + 1..];
  }

  lemma TrackOneLess(m: map<Key, nat>, c: multiset<Key>, k: Key)
    requires Tracks(m, c) && Count(m, k) > 0
    ensures Tracks(m[k := Count(m, k) - 1], c - multiset{k})
  {
  }

  method RemoveRecords(zone: seq<Record>, toRemove: seq<Record>) returns (result: seq<Record>)
    ensures result == Remove(zone, Keys(toRemove))
  {
    if |toRemove| == 0 {
      RemoveNothing(zone);
      return zone;
    }
    var removeSet: map<Key, nat> := CountKeys(toRemove);
    ghost var left := Keys(toRemove);
    result := [];
    for i := 0 to |zone|
      invariant Tracks(removeSet, left)
      invariant result + Remove(zone[i..], left) == Remove(zone, Keys(toRemove))
    {
      var k := KeyOf(zone[i]);
      RemoveAt(zone, i, left);
      assert Count(removeSet, k) == left[k];
      if Count(removeSet, k) > 0 {
        TrackOneLess(removeSet, left, k);
        removeSet := removeSet[k := Count(removeSet, k) - 1];
        left := left - multiset{k};
      } else {
        result := result + [zone[i]];
      }
    }
  }

  lemma {:induction false} RemoveNothing(zone: seq<Record>)
    ensures Remove(zone, multiset{}) == zone
  {
    if zone != [] {
      RemoveNothing(zone[1..]);
    }
  }

  /** Removal is bounded multiset subtraction of identities. */
  lemma {:induction false} RemoveKeys(zone: seq<Record>, c: multiset<Key>)
    ensures Keys(Remove(zone, c)) == Keys(zone) - c
  {
    if zone != [] {
      var k := KeyOf(zone[0]);
      RemoveKeys(zone[1..], if k in c then c - multiset{k} else c);
      if k !in c {
        assert Remove(zone, c)[1..] == Remove(zone[1..], c);
      }
    }
  }

  /** Of each identity the first copies go, and the rest stay in order. */
  lemma {:induction false} RemoveKeepsTail(zone: seq<Record>, c: multiset<Key>, k: Key)
    ensures OfKey(k, Remove(zone, c)) == OfKey(k, zone)[Min(c[k], |OfKey(k, zone)|)..]
  {
    if zone != [] {
      var h := KeyOf(zone[0]);
      RemoveKeepsTail(zone[1..], if h in c then c - multiset{h} else c, k);
      if h !in c {
        assert Remove(zone, c)[1..] == Remove(zone[1..], c);
      }
    }
  }

  /** Removing what a test on identities selected leaves exactly what it did not select. */
  lemma {:induction false} RemoveSelected(p: Record -> bool, zone: seq<Record>)
    requires forall r, s :: r in zone && s in zone && KeyOf(r) == KeyOf(s) ==> p(r) == p(s)
    ensures Remove(zone, Keys(Filter(p, zone))) == Filter(Not(p), zone)
  {
    if zone != [] {
      var h := KeyOf(zone[0]);
      var dels := Filter(p, zone[1..]);
      RemoveSelected(p, zone[1..]);
      if p(zone[0]) {
        assert Filter(p, zone)[1..] == dels;
        assert Keys(Filter(p, zone)) - multiset{h} == Keys(dels);
      } else {
        if h in Keys(dels) {
          KeysMembers(dels, h);
          var r :| r in dels && KeyOf(r) == h;
          FilterMembers(p, zone[1..], r);
          assert false;
        }
      }
    }
  }

  lemma {:induction false} RemoveMembers(zone: seq<Record>, c: multiset<Key>, r: Record)
    requires r in Remove(zone, c)
    ensures r in zone
  {
    if zone != [] {
      var k := KeyOf(zone[0]);
      if k in c {
        RemoveMembers(zone[1..], c - multiset{k}, r);
      } else if r != zone[0] {
        RemoveMembers(zone[1..], c, r);
      }
    }
  }

  // ---------------------------------------------------------------- deduplication

  function Dedup(recs: seq<Record>, seen: set<Key>): seq<Record> {
    if recs == [] then []
    else if KeyOf(recs[0]) in seen then Dedup(recs[1..], seen)
    else [recs[0]] + Dedup(recs[1..], seen + {KeyOf(recs[0])})
  }

  method DeduplicateRecords(recs: seq<Record>) returns (result: seq<Record>)
    ensures result == Dedup(recs, {})
  {
    var seen: set<Key> := {};
    result := [];
    for i := 0 to |recs|
      invariant result + Dedup(recs[i..], seen) == Dedup(recs, {})
    {
      assert recs[i..][1..] == recs[i + 1..];
      var k := KeyOf(recs[i]);
      if k !in seen {
        assert result + ([recs[i]] + Dedup(recs[i + 1..], seen + {k})) ==
          (result + [recs[i]]) + Dedup(recs[i + 1..], seen + {k});
        seen := seen + {k};
        result := result + [recs[i]];
      }
    }
  }

  /** Of each identity exactly the first copy stays. */
  lemma {:induction false} DedupKeepsFirst(recs: seq<Record>, seen: set<Key>, k: Key)
    ensures OfKey(k, Dedup(recs, seen)) ==
            if k in seen then [] else OfKey(k, recs)[..Min(1, |OfKey(k, recs)|)]
  {
    if recs != [] {
      var h := KeyOf(recs[0]);
      if h in seen {
        DedupKeepsFirst(recs[1..], seen, k);
      } else {
        DedupKeepsFirst(recs[1..], seen + {h}, k);
        assert Dedup(recs, seen)[1..] == Dedup(recs[1..], seen + {h});
      }
    }
  }

  lemma DedupKeys(recs: seq<Record>, k: Key)
    ensures Keys(Dedup(recs, {}))[k] == if k in Keys(recs) then 1 else 0
    ensures k in KeySet(Dedup(recs, {})) <==> k in KeySet(recs)
  {
    DedupKeepsFirst(recs, {}, k);
    OfKeyCount(k, recs);
    OfKeyCount(k, Dedup(recs, {}));
    KeysMembers(recs, k);
    KeysMembers(Dedup(recs, {}), k);
  }

  lemma DedupKeySet(recs: seq<Record>)
    ensures KeySet(Dedup(recs, {})) == KeySet(recs)
  {
    forall k ensures k in KeySet(Dedup(recs, {})) <==> k in KeySet(recs) {
      DedupKeys(recs, k);
    }
  }
}
