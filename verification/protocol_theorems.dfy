/** What holds in every run of the migration protocol. */
module ProtocolTheorems {
  import opened Text
  import opened Store
  import opened Protocol
  import opened ProtocolInvariant
  import V = VerifyTarget

  // ---------------------------------------------------------------- the lock and the data file

  /** While the data file exists, at most one process holds the migration's lock, although
      deletions unlink lock files that others may have open. */
  lemma MutualExclusion(row: Row, now: nat, acts: seq<Action>, p: Pid, q: Pid)
    requires First(row)
    requires var s := Run(Init(row, now), acts);
      s.data.Some? && p in s.procs && q in s.procs && InSection(s.procs[p]) && InSection(s.procs[q])
    ensures p == q
  {
    Reachable(row, now, acts);
    Exclusive(Run(Init(row, now), acts), p, q);
  }

  /** A save always replaces the very row it was derived from: no update is lost. */
  lemma NoLostUpdate(row: Row, now: nat, acts: seq<Action>, p: Pid)
    requires First(row)
    requires var s := Run(Init(row, now), acts); p in s.procs && s.procs[p].Write?
    ensures var s := Run(Init(row, now), acts);
      s.data == Some(s.procs[p].job.base) && Legal(s.procs[p].job.base, s.procs[p].job.row)
  {
    Reachable(row, now, acts);
    var s := Run(Init(row, now), acts);
    assert PcOk(s, p, s.procs[p]);
    BaseIsStored(s, p, s.procs[p].job);
  }

  /** Of all saves submitted from one version at most one is ever written, and the rows written
      form one chain of legal saves. */
  lemma OneWinnerPerVersion(row: Row, now: nat, acts: seq<Action>, i: nat, j: nat)
    requires First(row)
    requires var h := Run(Init(row, now), acts).history; i < |h| && j < |h|
    ensures var h := Run(Init(row, now), acts).history;
      (h[i].version == h[j].version ==> i == j) && (i > 0 ==> Legal(h[i - 1], h[i]))
  {
    Reachable(row, now, acts);
  }

  lemma AdvanceExtends(s: State, p: Pid, c: Choice)
    requires p in s.procs
    ensures s.history <= Step(s, p, c).history
  {
    if !s.procs[p].CreateWrite? && !s.procs[p].Write? {
      assert Step(s, p, c).history == s.history;
    }
  }

  lemma StepExtends(s: State, a: Action)
    ensures s.history <= Do(s, a).history
  {
    if a.Advance? && a.pid in s.procs {
      AdvanceExtends(s, a.pid, a.choice);
    } else {
      assert Do(s, a).history == s.history;
    }
  }

  lemma {:induction false} HistoryExtends(s: State, acts: seq<Action>, n: nat)
    requires n <= |acts|
    ensures Run(s, acts[..n]).history <= Run(s, acts).history
    decreases |acts|
  {
    if n == |acts| {
      assert acts[..n] == acts;
    } else {
      var front := acts[..|acts| - 1];
      assert front[..n] == acts[..n];
      HistoryExtends(s, front, n);
      StepExtends(Run(s, front), acts[|acts| - 1]);
    }
  }

  /** Only three of the steps touch the data file. */
  lemma DataSteps(s: State, p: Pid, c: Choice)
    requires p in s.procs
    ensures var t := Step(s, p, c); match s.procs[p]
      case CreateWrite(_) => t.data == Some(s.preview)
      case Write(job, _) => t.data == Some(job.row)
      case DelData(_, _) => t.data == None
      case _ => t.data == s.data
  {
  }

  lemma WritesAreAtomic(s: State, p: Pid, c: Choice)
    requires Inv(s) && p in s.procs
    ensures var t := Step(s, p, c);
      t.data == s.data || t.data == None ||
      CreateRow(s.data, t.data.value) == Ok(t.data.value) || UpdateRow(s.data, t.data.value) == Ok(t.data.value)
  {
    DataSteps(s, p, c);
    assert PcOk(s, p, s.procs[p]);
  }

  /** Interleaved at the level of locks and files, the store behaves like one with atomic calls. */
  lemma RefinesAtomicStore(row: Row, now: nat, acts: seq<Action>, a: Action)
    requires First(row)
    ensures var s := Run(Init(row, now), acts); var t := Do(s, a);
      t.data == s.data || t.data == None ||
      CreateRow(s.data, t.data.value) == Ok(t.data.value) || UpdateRow(s.data, t.data.value) == Ok(t.data.value)
  {
    Reachable(row, now, acts);
    var s := Run(Init(row, now), acts);
    if a.Advance? && a.pid in s.procs {
      WritesAreAtomic(s, a.pid, a.choice);
    }
  }

  /** A deleted migration does not come back. */
  lemma DeletedStaysDeleted(row: Row, now: nat, acts: seq<Action>, a: Action)
    requires First(row) && Gone(Run(Init(row, now), acts))
    ensures Gone(Do(Run(Init(row, now), acts), a))
  {
    Reachable(row, now, acts);
    var s := Run(Init(row, now), acts);
    if a.Advance? && a.pid in s.procs {
      assert PcOk(s, a.pid, s.procs[a.pid]);
    }
  }

  // ---------------------------------------------------------------- the provider

  /** However many applies are requested, at most one gets to the provider. */
  lemma AtMostOneApply(row: Row, now: nat, acts: seq<Action>)
    requires First(row)
    ensures |Run(Init(row, now), acts).entered| <= 1
  {
    Reachable(row, now, acts);
  }

  // ---------------------------------------------------------------- the life of a row

  lemma {:induction false} NameserversFromApply(h: seq<Row>, i: nat)
    requires LegalHistory(h) && i < |h| && h[i].nameservers != [] && h[i].status != Failed
    ensures exists j | 0 <= j <= i :: h[j].status == AwaitingNSChange
    decreases i
  {
    if h[i].status != AwaitingNSChange {
      assert i > 0 && Legal(h[i - 1], h[i]);
      NameserversFromApply(h, i - 1);
    }
  }

  /** Statuses: preview is never re-entered, complete comes only after awaiting_ns_change and only when there are
      records and the type of each can be verified, nothing follows failed, and what was fixed at creation
      never changes. */
  lemma RowLife(row: Row, now: nat, acts: seq<Action>, i: nat)
    requires First(row) && i < |Run(Init(row, now), acts).history|
    ensures var h := Run(Init(row, now), acts).history;
      && (h[i].status == Preview <==> i == 0)
      && (h[i].status == Complete ==> exists j | 0 <= j < i :: h[j].status == AwaitingNSChange)
      && (h[i].status == Complete ==> CanComplete(row.terms))
      && (h[i].status == Failed ==> i == |h| - 1)
      && h[i].terms == row.terms
  {
    Reachable(row, now, acts);
    PreviewFixed(Init(row, now), acts);
    var h := Run(Init(row, now), acts).history;
    PreviewIsFirst(h, i);
    TermsFixed(h, i);
    if h[i].status == Complete {
      assert Legal(h[i - 1], h[i]);
      NameserversFromApply(h, i - 1);
      TermsFixed(h, i - 1);
    }
    FailedIsLast(h, i);
  }

  lemma FailedIsLast(h: seq<Row>, i: nat)
    requires LegalHistory(h) && i < |h|
    ensures i + 1 < |h| ==> h[i].status != Failed
  {
    assert i + 1 < |h| ==> Legal(h[i + 1 - 1], h[i + 1]);
  }

  lemma {:induction false} PreviewFixed(s: State, acts: seq<Action>)
    ensures Run(s, acts).preview == s.preview
  {
    if acts != [] {
      PreviewFixed(s, acts[..|acts| - 1]);
    }
  }

  /** The sweep decides without the lock, yet whatever it removes had expired. */
  lemma SweepRemovesOnlyExpired(row: Row, now: nat, acts: seq<Action>, p: Pid)
    requires First(row)
    requires var s := Run(Init(row, now), acts);
      p in s.procs && s.procs[p].DelData? && s.procs[p].cause.Swept? && s.data.Some?
    ensures var s := Run(Init(row, now), acts); ExpiredAt(s.data.value.terms, s.now)
  {
    Reachable(row, now, acts);
    var s := Run(Init(row, now), acts);
    assert PcOk(s, p, s.procs[p]);
    TermsFixed(s.history, |s.history| - 1);
  }

  /** A verify that lands between apply's two saves strands the migration: no nameservers are ever
      stored, so it keeps verifying and never completes. */
  lemma {:induction false} VerifyDuringApplyStrands(row: Row, now: nat, acts: seq<Action>, i: nat)
    requires First(row)
    requires var h := Run(Init(row, now), acts).history; 2 <= i < |h| && h[2].status == Verifying
    ensures var h := Run(Init(row, now), acts).history; h[i].status == Verifying && h[i].nameservers == []
    decreases i
  {
    Reachable(row, now, acts);
    var h := Run(Init(row, now), acts).history;
    assert Legal(h[0], h[1]) && Legal(h[1], h[2]);
    if i > 2 {
      VerifyDuringApplyStrands(row, now, acts, i - 1);
      assert Legal(h[i - 1], h[i]);
    }
  }

  /** Once a third row is written it is settled whether the new nameservers are ever to be awaited. */
  lemma AwaitedIff(row: Row, now: nat, acts: seq<Action>)
    requires First(row) && |Run(Init(row, now), acts).history| > 2
    ensures var h := Run(Init(row, now), acts).history;
      (exists i | 0 <= i < |h| :: h[i].status == AwaitingNSChange) <==> h[2].status == AwaitingNSChange
  {
    Reachable(row, now, acts);
    var h := Run(Init(row, now), acts).history;
    assert Legal(h[0], h[1]) && Legal(h[1], h[2]);
    FailedIsLast(h, 2);
    if i :| 0 <= i < |h| && h[i].status == AwaitingNSChange {
      if i > 2 && h[2].status == Verifying {
        VerifyDuringApplyStrands(row, now, acts, i);
      }
    }
  }

  lemma CompleteHasRecords(row: Row, now: nat, acts: seq<Action>)
    requires First(row)
    requires var s := Run(Init(row, now), acts); s.data.Some? && s.data.value.status == Complete
    ensures Run(Init(row, now), acts).data.value.terms.records != []
  {
    Reachable(row, now, acts);
    var s := Run(Init(row, now), acts);
    var n := |s.history| - 1;
    assert s.history[n] == s.data.value;
    assert n > 0 && Legal(s.history[n - 1], s.history[n]);
  }

  /** A verify of a complete migration sends it back to verifying exactly when some record is not served. */
  lemma ReopensIff(row: Row, now: nat, acts: seq<Action>, net: V.Network)
    requires First(row)
    requires var s := Run(Init(row, now), acts); s.data.Some? && s.data.value.status == Complete
    ensures var m := Run(Init(row, now), acts).data.value;
      VerifiedStatus(m, net) == Verifying <==> !V.ServesAll(m.nameservers, m.terms.records, net)
  {
    CompleteHasRecords(row, now, acts);
    var m := Run(Init(row, now), acts).data.value;
    V.AllServed(m.nameservers, m.terms.records, net);
  }
}
