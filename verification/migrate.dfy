/** Phase B of a migration: writing every record, then polling the new nameservers. */
module Migrate {
  import opened Text
  import opened Records
  import opened Lists
  import VerifyTarget

  datatype RecordStatus = ApplyFailed | Matched | Mismatch | NotYetPropagated

  datatype RecordResult = RecordResult(record: Record, status: RecordStatus)

  /** The errors a report collects. */
  datatype ReportError = RateLimit | NotApplied(record: Record) | Mismatched(record: Record) | Cancelled

  datatype Report = Report(results: seq<RecordResult>, errors: seq<ReportError>)

  /** What the run meets: whether the limiter lets write i through and the provider accepts it, the
      network and the time in each polling round, and whether the caller cancels after it. */
  datatype World = World(
    gate: nat -> bool,
    accepts: nat -> bool,
    net: nat -> VerifyTarget.Network,
    clock: nat -> int,
    cancelled: nat -> bool)

  /** Rounds are two seconds apart or more. */
  ghost predicate Paced(w: World) {
    forall k: nat :: w.clock(k) + 2 <= w.clock(k + 1)
  }

  // ---------------------------------------------------------------- what a run should report

  function VerdictIn(nsHosts: seq<string>, rec: Record, net: VerifyTarget.Network): RecordStatus {
    if VerifyTarget.Serves(nsHosts, rec, net) then Matched
    else if VerifyTarget.AnyAnswer(nsHosts, rec, net) then Mismatch
    else NotYetPropagated
  }

  /** One more round decides what is still open. */
  function Advance(nsHosts: seq<string>, net: VerifyTarget.Network, res: RecordResult): RecordResult {
    if res.status == NotYetPropagated then RecordResult(res.record, VerdictIn(nsHosts, res.record, net)) else res
  }

  function Map<A, B>(f: A -> B, s: seq<A>): (t: seq<B>)
    ensures |t| == |s| && forall i | 0 <= i < |s| :: t[i] == f(s[i])
  {
    seq(|s|, i requires 0 <= i < |s| => f(s[i]))
  }

  function AdvanceAll(nsHosts: seq<string>, net: VerifyTarget.Network, results: seq<RecordResult>):
      (t: seq<RecordResult>)
    ensures |t| == |results|
  {
    Map((res: RecordResult) => Advance(nsHosts, net, res), results)
  }

  function Waiting(recs: seq<Record>): (t: seq<RecordResult>)
    ensures |t| == |recs|
  {
    Map((rec: Record) => RecordResult(rec, NotYetPropagated), recs)
  }

  function RecordsOf(results: seq<RecordResult>): (t: seq<Record>)
    ensures |t| == |results|
  {
    Map((res: RecordResult) => res.record, results)
  }

  function Started(w: World, records: seq<Record>): (t: seq<RecordResult>)
    ensures |t| == |records|
  {
    seq(|records|, i requires 0 <= i < |records| =>
      RecordResult(records[i], if w.accepts(i) then NotYetPropagated else ApplyFailed))
  }

  /** The result of every zone record, in zone order, after n rounds. */
  function Outlook(nsHosts: seq<string>, w: World, records: seq<Record>, n: nat): (t: seq<RecordResult>)
    ensures |t| == |records|
  {
    if n == 0 then Started(w, records) else AdvanceAll(nsHosts, w.net(n - 1), Outlook(nsHosts, w, records, n - 1))
  }

  predicate AllDecided(results: seq<RecordResult>) {
    forall res | res in results :: res.status != NotYetPropagated
  }

  // ---------------------------------------------------------------- multisets under a map

  lemma MapAppend<A, B>(f: A -> B, a: seq<A>, b: seq<A>)
    ensures Map(f, a + b) == Map(f, a) + Map(f, b)
  {
  }

  lemma MapWithout<A, B>(f: A -> B, s: seq<A>, i: nat)
    requires i < |s|
    ensures multiset(Map(f, s)) == multiset(Map(f, Without(s, i))) + multiset{f(s[i])}
  {
    var t := Map(f, s);
    WithoutCount(t, i);
    assert Map(f, Without(s, i)) == Without(t, i);
  }

  /** Mapping does not care about order. */
  lemma {:induction false} MapMultiset<A, B>(f: A -> B, a: seq<A>, b: seq<A>)
    requires multiset(a) == multiset(b)
    ensures multiset(Map(f, a)) == multiset(Map(f, b))
    decreases |a|
  {
    if a == [] {
      assert |multiset(b)| == 0;
      assert b == [];
    } else {
      var i := SameFirst(a, b);
      WithoutCount(a, 0);
      WithoutCount(b, i);
      MapMultiset(f, Without(a, 0), Without(b, i));
      MapWithout(f, a, 0);
      MapWithout(f, b, i);
    }
  }

  /** A round over what is open, beside what is decided. */
  lemma RoundStep(nsHosts: seq<string>, net: VerifyTarget.Network, decided: seq<RecordResult>, open: seq<RecordResult>,
      all: seq<RecordResult>)
    requires AllDecided(decided) && multiset(decided) + multiset(open) == multiset(all)
    ensures multiset(decided) + multiset(AdvanceAll(nsHosts, net, open)) == multiset(AdvanceAll(nsHosts, net, all))
  {
    var f := (res: RecordResult) => Advance(nsHosts, net, res);
    AdvanceIsMap(nsHosts, net, f, decided);
    AdvanceIsMap(nsHosts, net, f, open);
    AdvanceIsMap(nsHosts, net, f, all);
    assert multiset(decided + open) == multiset(all);
    MapMultiset(f, decided + open, all);
    MapAppend(f, decided, open);
    assert Map(f, decided) == decided;
  }

  lemma AdvanceIsMap(nsHosts: seq<string>, net: VerifyTarget.Network, f: RecordResult -> RecordResult,
      s: seq<RecordResult>)
    requires forall res :: f(res) == Advance(nsHosts, net, res)
    ensures AdvanceAll(nsHosts, net, s) == Map(f, s)
  {
  }

  // ---------------------------------------------------------------- the loops

  predicate Gated(w: World, n: nat) {
    exists i | 0 <= i < n :: !w.gate(i)
  }

  /** The results of the first n writes that failed, in zone order. */
  function Refused(w: World, records: seq<Record>, n: nat): seq<RecordResult>
    requires n <= |records|
  {
    if n == 0 then []
    else Refused(w, records, n - 1) + if w.accepts(n - 1) then [] else [RecordResult(records[n - 1], ApplyFailed)]
  }

  function NotAppliedAll(results: seq<RecordResult>): (errors: seq<ReportError>)
    ensures |errors| == |results|
  {
    Map((res: RecordResult) => NotApplied(res.record), results)
  }

  /** The limiter stops the run at write n; what failed before is reported. */
  predicate StoppedAt(w: World, records: seq<Record>, n: nat, results: seq<RecordResult>, errors: seq<ReportError>) {
    n < |records| && !w.gate(n) && !Gated(w, n) && results == Refused(w, records, n) &&
    errors == NotAppliedAll(results) + [RateLimit]
  }

  lemma RefusedNext(w: World, records: seq<Record>, i: nat, results: seq<RecordResult>)
    requires i < |records| && results == Refused(w, records, i)
    ensures w.accepts(i) ==> results == Refused(w, records, i + 1)
    ensures var more := results + [RecordResult(records[i], ApplyFailed)];
      (!w.accepts(i) ==> more == Refused(w, records, i + 1)) &&
      NotAppliedAll(more) == NotAppliedAll(results) + [NotApplied(records[i])]
  {
  }

  /** The first i writes are split into those that failed and those that were applied. */
  ghost predicate Split(w: World, records: seq<Record>, i: nat, results: seq<RecordResult>, applied: seq<Record>)
    requires i <= |records|
  {
    multiset(results) + multiset(Waiting(applied)) == multiset(Started(w, records)[..i])
  }

  lemma SplitNext(w: World, records: seq<Record>, i: nat, results: seq<RecordResult>, applied: seq<Record>)
    requires i < |records| && Split(w, records, i, results, applied)
    ensures w.accepts(i) ==> Split(w, records, i + 1, results, applied + [records[i]])
    ensures !w.accepts(i) ==> Split(w, records, i + 1, results + [RecordResult(records[i], ApplyFailed)], applied)
  {
    var started := Started(w, records);
    assert started[..i + 1] == started[..i] + [started[i]];
    WaitingOneMore(applied, records[i]);
  }

  method ApplyAll(records: seq<Record>, w: World)
      returns (results: seq<RecordResult>, applied: seq<Record>, errors: seq<ReportError>, aborted: bool)
    ensures aborted <==> Gated(w, |records|)
    ensures aborted ==> exists n: nat :: StoppedAt(w, records, n, results, errors)
    ensures !aborted ==> multiset(results) + multiset(Waiting(applied)) == multiset(Started(w, records))
    ensures !aborted ==> results == Refused(w, records, |records|) && errors == NotAppliedAll(results)
    ensures forall res | res in results :: res.status == ApplyFailed
  {
    results, applied, errors := [], [], [];
    for i := 0 to |records|
      invariant !Gated(w, i)
      invariant Split(w, records, i, results, applied)
      invariant results == Refused(w, records, i) && errors == NotAppliedAll(results)
      invariant forall res | res in results :: res.status == ApplyFailed
    {
      if !w.gate(i) {
        assert StoppedAt(w, records, i, results, errors + [RateLimit]);
        errors := errors + [RateLimit];
        aborted := true;
        return;
      }
      RefusedNext(w, records, i, results);
      SplitNext(w, records, i, results, applied);
      if !w.accepts(i) {
        results := results + [RecordResult(records[i], ApplyFailed)];
        errors := errors + [NotApplied(records[i])];
        continue;
      }
      applied := applied + [records[i]];
    }
    assert Started(w, records)[..|records|] == Started(w, records);
    aborted := false;
  }

  lemma WaitingOneMore(recs: seq<Record>, rec: Record)
    ensures Waiting(recs + [rec]) == Waiting(recs) + [RecordResult(rec, NotYetPropagated)]
  {
  }

  method PollRecord(nsHosts: seq<string>, net: VerifyTarget.Network, rec: Record) returns (status: RecordStatus)
    ensures status == VerdictIn(nsHosts, rec, net) && status != ApplyFailed
  {
    var matched, gotAny, _ := VerifyTarget.VerifyRecordAgainstNS(nsHosts, rec, net);
    status := if matched then Matched else if !gotAny then NotYetPropagated else Mismatch;
  }

  lemma RoundOne(nsHosts: seq<string>, net: VerifyTarget.Network, pending: seq<Record>, i: nat, status: RecordStatus)
    requires i < |pending| && status == VerdictIn(nsHosts, pending[i], net)
    ensures var target := AdvanceAll(nsHosts, net, Waiting(pending));
      target[..i + 1] == target[..i] + [RecordResult(pending[i], status)]
  {
  }

  lemma RoundKeeps(decided: seq<RecordResult>, still: seq<Record>, pre: seq<RecordResult>, rec: Record,
      status: RecordStatus)
    requires multiset(decided) + multiset(Waiting(still)) == multiset(pre)
    ensures status == NotYetPropagated ==>
      multiset(decided) + multiset(Waiting(still + [rec])) == multiset(pre + [RecordResult(rec, status)])
    ensures multiset(decided + [RecordResult(rec, status)]) + multiset(Waiting(still)) ==
      multiset(pre + [RecordResult(rec, status)])
  {
    WaitingOneMore(still, rec);
  }

  method PollRound(nsHosts: seq<string>, net: VerifyTarget.Network, pending: seq<Record>)
      returns (decided: seq<RecordResult>, still: seq<Record>)
    ensures multiset(decided) + multiset(Waiting(still)) == multiset(AdvanceAll(nsHosts, net, Waiting(pending)))
    ensures forall res | res in decided :: res.status in {Matched, Mismatch}
  {
    decided, still := [], [];
    ghost var target := AdvanceAll(nsHosts, net, Waiting(pending));
    for i := 0 to |pending|
      invariant multiset(decided) + multiset(Waiting(still)) == multiset(target[..i])
      invariant forall res | res in decided :: res.status in {Matched, Mismatch}
    {
      var status := PollRecord(nsHosts, net, pending[i]);
      RoundOne(nsHosts, net, pending, i, status);
      RoundKeeps(decided, still, target[..i], pending[i], status);
      if status == NotYetPropagated {
        still := still + [pending[i]];
      } else {
        decided := decided + [RecordResult(pending[i], status)];
      }
    }
    assert target[..|pending|] == target;
  }

  /** How polling ended. */
  predicate Ended(nsHosts: seq<string>, w: World, records: seq<Record>, deadline: int, rounds: nat, stopped: bool)
    requires rounds > 0
  {
    var last := rounds - 1;
    if stopped then w.cancelled(last) && w.clock(last) <= deadline
    else w.clock(last) > deadline || AllDecided(Outlook(nsHosts, w, records, rounds))
  }

  /** What is decided and what is pending make up the outlook after n rounds. */
  predicate Tracks(nsHosts: seq<string>, w: World, records: seq<Record>, n: nat, decided: seq<RecordResult>,
      pending: seq<Record>) {
    multiset(decided) + multiset(Waiting(pending)) == multiset(Outlook(nsHosts, w, records, n))
  }

  lemma PollStep(nsHosts: seq<string>, w: World, records: seq<Record>, n: nat, decided: seq<RecordResult>,
      pending: seq<Record>, more: seq<RecordResult>, still: seq<Record>)
    requires AllDecided(decided) && Tracks(nsHosts, w, records, n, decided, pending)
    requires multiset(more) + multiset(Waiting(still)) == multiset(AdvanceAll(nsHosts, w.net(n), Waiting(pending)))
    ensures Tracks(nsHosts, w, records, n + 1, decided + more, still)
  {
    RoundStep(nsHosts, w.net(n), decided, Waiting(pending), Outlook(nsHosts, w, records, n));
  }

  lemma PollEnd(nsHosts: seq<string>, w: World, records: seq<Record>, n: nat, failed: seq<RecordResult>,
      decided: seq<RecordResult>, pending: seq<Record>)
    requires AllDecided(failed + decided) && Tracks(nsHosts, w, records, n, failed + decided, pending)
    ensures multiset(failed) + multiset(decided + Waiting(pending)) == multiset(Outlook(nsHosts, w, records, n))
    ensures pending == [] ==> AllDecided(Outlook(nsHosts, w, records, n))
  {
    if pending == [] {
      DecidedFrom(failed + decided, Outlook(nsHosts, w, records, n));
    }
  }

  lemma DecidedTogether(failed: seq<RecordResult>, decided: seq<RecordResult>, more: seq<RecordResult>)
    requires AllDecided(failed + decided) && forall res | res in more :: res.status in {Matched, Mismatch}
    ensures AllDecided(failed + (decided + more)) && failed + (decided + more) == (failed + decided) + more
  {
    forall res | res in failed + (decided + more) ensures res.status != NotYetPropagated {
      assert res in failed + decided || res in more;
    }
  }

  method PollUntil(nsHosts: seq<string>, w: World, deadline: int, applied: seq<Record>, ghost records: seq<Record>,
      ghost failed: seq<RecordResult>)
      returns (finalResults: seq<RecordResult>, stopped: bool, ghost rounds: nat)
    requires Paced(w)
    requires forall res | res in failed :: res.status == ApplyFailed
    requires Tracks(nsHosts, w, records, 0, failed, applied)
    ensures rounds > 0 && Ended(nsHosts, w, records, deadline, rounds, stopped)
    ensures forall k | 0 <= k < rounds - 1 :: w.clock(k) <= deadline && !w.cancelled(k)
    ensures multiset(failed) + multiset(finalResults) == multiset(Outlook(nsHosts, w, records, rounds))
    ensures forall res | res in finalResults :: res.status != ApplyFailed
  {
    var pending, n := applied, 0;
    finalResults := [];
    assert failed + finalResults == failed;
    while true
      invariant forall res | res in finalResults :: res.status != ApplyFailed
      invariant AllDecided(failed + finalResults)
      invariant Tracks(nsHosts, w, records, n, failed + finalResults, pending)
      invariant forall k | 0 <= k < n :: w.clock(k) <= deadline && !w.cancelled(k)
      decreases if w.clock(n) > deadline then 0 else deadline - w.clock(n) + 1
    {
      var decided, still := PollRound(nsHosts, w.net(n), pending);
      PollStep(nsHosts, w, records, n, failed + finalResults, pending, decided, still);
      DecidedTogether(failed, finalResults, decided);
      finalResults := finalResults + decided;
      PollEnd(nsHosts, w, records, n + 1, failed, finalResults, still);
      if |still| == 0 || w.clock(n) > deadline {
        finalResults := finalResults + Waiting(still);
        return finalResults, false, n + 1;
      }
      pending := still;
      if w.cancelled(n) {
        finalResults := finalResults + Waiting(pending);
        return finalResults, true, n + 1;
      }
      assert w.clock(n) + 2 <= w.clock(n + 1);
      n := n + 1;
    }
  }

  lemma DecidedFrom(results: seq<RecordResult>, all: seq<RecordResult>)
    requires AllDecided(results) && multiset(results) == multiset(all)
    ensures AllDecided(all)
  {
    forall res | res in all ensures res.status != NotYetPropagated {
      assert res in multiset(all);
    }
  }

  predicate Clear(results: seq<RecordResult>) {
    forall res | res in results :: res.status !in {ApplyFailed, Mismatch}
  }

  method CollectMismatches(results: seq<RecordResult>) returns (errors: seq<ReportError>)
    ensures forall err :: err in errors <==>
      exists res | res in results :: res.status == Mismatch && err == Mismatched(res.record)
  {
    errors := [];
    for i := 0 to |results|
      invariant forall err :: err in errors <==>
        exists j | 0 <= j < i :: results[j].status == Mismatch && err == Mismatched(results[j].record)
    {
      if results[i].status == Mismatch {
        errors := errors + [Mismatched(results[i].record)];
      }
    }
  }

  /** The errors of a run that was not aborted: one for each write that failed; cancelled, or one for each record
      that differed. */
  ghost predicate Reported(results: seq<RecordResult>, stopped: bool, err: ReportError) {
    match err
    case NotApplied(rec) => exists res | res in results :: res.status == ApplyFailed && res.record == rec
    case Mismatched(rec) => !stopped && exists res | res in results :: res.status == Mismatch && res.record == rec
    case Cancelled => stopped
    case RateLimit => false
  }

  lemma NotAppliedMembers(failed: seq<RecordResult>, rest: seq<RecordResult>, err: ReportError)
    requires forall res | res in failed :: res.status == ApplyFailed
    requires forall res | res in rest :: res.status != ApplyFailed
    ensures err in NotAppliedAll(failed) <==>
      err.NotApplied? && exists res | res in failed + rest :: res.status == ApplyFailed && res.record == err.record
  {
    if err in NotAppliedAll(failed) {
      var i :| 0 <= i < |failed| && NotAppliedAll(failed)[i] == err;
      assert failed[i] in failed + rest;
    }
    if err.NotApplied? {
      if res :| res in failed + rest && res.status == ApplyFailed && res.record == err.record {
        var i :| 0 <= i < |failed| && failed[i] == res;
        assert NotAppliedAll(failed)[i] == err;
      }
    }
  }

  lemma CancelledErrors(failed: seq<RecordResult>, rest: seq<RecordResult>, errors: seq<ReportError>)
    requires forall res | res in failed :: res.status == ApplyFailed
    requires forall res | res in rest :: res.status != ApplyFailed
    requires errors == NotAppliedAll(failed)
    ensures forall err :: err in errors + [Cancelled] <==> Reported(failed + rest, true, err)
  {
    forall err ensures err in errors + [Cancelled] <==> Reported(failed + rest, true, err) {
      NotAppliedMembers(failed, rest, err);
    }
  }

  lemma EndErrors(failed: seq<RecordResult>, rest: seq<RecordResult>, errors: seq<ReportError>, more: seq<ReportError>)
    requires forall res | res in failed :: res.status == ApplyFailed
    requires forall res | res in rest :: res.status != ApplyFailed
    requires errors == NotAppliedAll(failed)
    requires forall err :: err in more <==>
      exists res | res in failed + rest :: res.status == Mismatch && err == Mismatched(res.record)
    ensures forall err :: err in errors + more <==> Reported(failed + rest, false, err)
    ensures errors + more == [] <==> Clear(failed + rest)
  {
    forall err ensures err in errors + more <==> Reported(failed + rest, false, err) {
      NotAppliedMembers(failed, rest, err);
    }
    if errors + more == [] {
      forall res | res in failed + rest ensures res.status !in {ApplyFailed, Mismatch} {
        assert !Reported(failed + rest, false, NotApplied(res.record));
        assert !Reported(failed + rest, false, Mismatched(res.record));
      }
    } else {
      var err := (errors + more)[0];
      assert err in errors + more && Reported(failed + rest, false, err);
    }
  }

  /** The whole phase. Every zone record gets exactly one result, the one that the rounds decide, also
      when the caller cancels; a run to the end has no error exactly when nothing failed or differed. */
  method PhaseB(nsHosts: seq<string>, w: World, start: int, timeout: nat, records: seq<Record>)
      returns (report: Report, aborted: bool, stopped: bool, ghost rounds: nat)
    requires Paced(w)
    ensures aborted <==> Gated(w, |records|)
    ensures aborted ==> exists n: nat :: StoppedAt(w, records, n, report.results, report.errors)
    ensures !aborted ==>
      && rounds > 0 && Ended(nsHosts, w, records, start + timeout, rounds, stopped)
      && (forall k | 0 <= k < rounds - 1 :: w.clock(k) <= start + timeout && !w.cancelled(k))
      && multiset(report.results) == multiset(Outlook(nsHosts, w, records, rounds))
      && multiset(RecordsOf(report.results)) == multiset(records)
    ensures !aborted ==> forall err :: err in report.errors <==> Reported(report.results, stopped, err)
    ensures !aborted && !stopped ==> (report.errors == [] <==> Clear(report.results))
  {
    stopped, rounds := false, 0;
    var failed, applied, errors, gateClosed := ApplyAll(records, w);
    aborted := gateClosed;
    if aborted {
      return Report(failed, errors), true, false, 0;
    }
    var finalResults;
    finalResults, stopped, rounds := PollUntil(nsHosts, w, start + timeout, applied, records, failed);
    var results := failed + finalResults;
    ResultsCoverZone(nsHosts, w, records, rounds, results);
    if stopped {
      CancelledErrors(failed, finalResults, errors);
      return Report(results, errors + [Cancelled]), false, true, rounds;
    }
    var mismatches := CollectMismatches(results);
    EndErrors(failed, finalResults, errors, mismatches);
    report := Report(results, errors + mismatches);
  }

  // ---------------------------------------------------------------- what the outlook says

  /** What each round says about a record. */
  function Verdicts(nsHosts: seq<string>, w: World, rec: Record): nat -> RecordStatus {
    (k: nat) => VerdictIn(nsHosts, rec, w.net(k))
  }

  predicate SilentBefore(v: nat -> RecordStatus, n: nat) {
    forall j | 0 <= j < n :: v(j) == NotYetPropagated
  }

  /** Of the first n rounds, the first with an answer gives the verdict. */
  predicate FirstVerdict(v: nat -> RecordStatus, n: nat, verdict: RecordStatus) {
    exists k | 0 <= k < n :: SilentBefore(v, k) && v(k) == verdict
  }

  lemma OneMoreRound(v: nat -> RecordStatus, n: nat, verdict: RecordStatus)
    ensures SilentBefore(v, n + 1) <==> SilentBefore(v, n) && v(n) == NotYetPropagated
    ensures FirstVerdict(v, n + 1, verdict) <==> FirstVerdict(v, n, verdict) || (SilentBefore(v, n) && v(n) == verdict)
  {
  }

  lemma SilentNoVerdict(v: nat -> RecordStatus, n: nat, verdict: RecordStatus)
    requires SilentBefore(v, n) && verdict in {Matched, Mismatch}
    ensures !FirstVerdict(v, n, verdict)
  {
  }

  /** What is known about one record after n rounds. */
  predicate Told(v: nat -> RecordStatus, accepted: bool, n: nat, status: RecordStatus) {
    && (status == ApplyFailed <==> !accepted)
    && (status == NotYetPropagated <==> accepted && SilentBefore(v, n))
    && (status == Matched <==> accepted && FirstVerdict(v, n, Matched))
    && (status == Mismatch <==> accepted && FirstVerdict(v, n, Mismatch))
  }

  lemma ToldStart(v: nat -> RecordStatus, accepted: bool)
    ensures Told(v, accepted, 0, if accepted then NotYetPropagated else ApplyFailed)
  {
  }

  lemma ToldNext(v: nat -> RecordStatus, accepted: bool, n: nat, status: RecordStatus)
    requires Told(v, accepted, n, status) && v(n) != ApplyFailed
    ensures Told(v, accepted, n + 1, if status == NotYetPropagated then v(n) else status)
  {
    OneMoreRound(v, n, Matched);
    OneMoreRound(v, n, Mismatch);
    if SilentBefore(v, n) {
      SilentNoVerdict(v, n, Matched);
      SilentNoVerdict(v, n, Mismatch);
    }
  }

  lemma AdvanceStatus(nsHosts: seq<string>, w: World, n: nat, res: RecordResult, v: nat -> RecordStatus)
    requires v == Verdicts(nsHosts, w, res.record)
    ensures v(n) != ApplyFailed
    ensures var next := Advance(nsHosts, w.net(n), res);
      next.record == res.record && next.status == if res.status == NotYetPropagated then v(n) else res.status
  {
    assert v(n) == VerdictIn(nsHosts, res.record, w.net(n));
  }

  lemma OutlookStep(nsHosts: seq<string>, w: World, records: seq<Record>, n: nat, i: nat)
    requires i < |records|
    ensures Outlook(nsHosts, w, records, 0)[i] ==
      RecordResult(records[i], if w.accepts(i) then NotYetPropagated else ApplyFailed)
    ensures Outlook(nsHosts, w, records, n + 1)[i] == Advance(nsHosts, w.net(n), Outlook(nsHosts, w, records, n)[i])
  {
  }

  /** A record that was written gets the verdict of the first round in which a nameserver answered. */
  lemma {:induction false} FirstAnswerDecides(nsHosts: seq<string>, w: World, records: seq<Record>, n: nat, i: nat,
      v: nat -> RecordStatus)
    requires i < |records| && v == Verdicts(nsHosts, w, records[i])
    ensures var res := Outlook(nsHosts, w, records, n)[i];
      res.record == records[i] && Told(v, w.accepts(i), n, res.status)
  {
    if n == 0 {
      OutlookStep(nsHosts, w, records, n, i);
      ToldStart(v, w.accepts(i));
    } else {
      FirstAnswerDecides(nsHosts, w, records, n - 1, i, v);
      OutlookStep(nsHosts, w, records, n - 1, i);
      var before := Outlook(nsHosts, w, records, n - 1)[i];
      AdvanceStatus(nsHosts, w, n - 1, before, v);
      ToldNext(v, w.accepts(i), n - 1, before.status);
      var after := Outlook(nsHosts, w, records, n)[i];
      assert Told(v, w.accepts(i), n, after.status);
    }
  }

  /** One result for each zone record, whatever happened on the way. */
  lemma ResultsCoverZone(nsHosts: seq<string>, w: World, records: seq<Record>, n: nat, results: seq<RecordResult>)
    requires multiset(results) == multiset(Outlook(nsHosts, w, records, n))
    ensures multiset(RecordsOf(results)) == multiset(records)
  {
    var f := (res: RecordResult) => res.record;
    var all := Outlook(nsHosts, w, records, n);
    forall i | 0 <= i < |records| ensures RecordsOf(all)[i] == records[i] {
      FirstAnswerDecides(nsHosts, w, records, n, i, Verdicts(nsHosts, w, records[i]));
    }
    assert RecordsOf(all) == records;
    RecordsIsMap(f, all);
    RecordsIsMap(f, results);
    MapMultiset(f, results, all);
  }

  lemma RecordsIsMap(f: RecordResult -> Record, s: seq<RecordResult>)
    requires forall res :: f(res) == res.record
    ensures RecordsOf(s) == Map(f, s)
  {
  }

  /** One round's verdict on a record, told from the answers. */
  lemma VerdictInIs(nsHosts: seq<string>, rec: Record, net: VerifyTarget.Network)
    ensures VerdictIn(nsHosts, rec, net) ==
      if VerifyTarget.Held(nsHosts, rec, net) then Matched
      else if ToUpper(rec.typ) !in VerifyTarget.ASKED || VerifyTarget.SomeData(nsHosts, rec, net) then Mismatch
      else NotYetPropagated
  {
    VerifyTarget.ServesIff(nsHosts, rec, net);
  }
}
