/** Runs of the protocol that show what can happen. */
module ProtocolRuns {
  import opened Text
  import opened Store
  import opened Protocol
  import opened ProtocolInvariant
  import opened ProtocolTheorems
  import V = VerifyTarget

  // ---------------------------------------------------------------- putting runs together

  lemma {:induction false} RunOn(s: State, a: seq<Action>, b: seq<Action>)
    ensures Run(s, a + b) == Run(Run(s, a), b)
    decreases |b|
  {
    if b == [] {
      assert a + b == a;
    } else {
      assert (a + b)[..|a + b| - 1] == a + b[..|b| - 1];
      RunOn(s, a, b[..|b| - 1]);
    }
  }

  lemma RunNext(s: State, acts: seq<Action>, a: Action)
    ensures Run(s, acts + [a]) == Do(Run(s, acts), a)
  {
    assert (acts + [a])[..|acts|] == acts;
  }

  lemma GotoTwice(s: State, p: Pid, a: Pc, b: Pc)
    ensures Goto(Goto(s, p, a), p, b) == Goto(s, p, b)
  {
    assert s.procs[p := a][p := b] == s.procs[p := b];
  }

  /** The same process goes on. */
  lemma GoesOn(s: State, acts: seq<Action>, p: Pid, mid: State) returns (longer: seq<Action>)
    requires Run(s, acts) == mid && p in mid.procs
    ensures Run(s, longer) == Step(mid, p, Plain)
  {
    longer := acts + [Advance(p, Plain)];
    RunNext(s, acts, Advance(p, Plain));
  }

  // ---------------------------------------------------------------- one save

  /** Nobody holds the lock that an open would get. */
  predicate LockFree(s: State) {
    OpenedInode(s) !in s.held
  }

  /** What a completed save leaves. */
  predicate Saved(s: State, t: State, p: Pid, row: Row, pc: Pc) {
    && t.data == Some(row) && t.history == s.history + [row]
    && t.procs == s.procs[p := pc] && t.held == s.held && LockFree(t)
    && t.now == s.now && t.preview == s.preview
  }

  lemma ReleasesFree(held: map<Inode, Pid>, ino: Inode, p: Pid)
    requires ino !in held
    ensures held[ino := p] - {ino} == held
  {
  }

  lemma LockTaken(s: State, p: Pid, job: Job)
    requires p in s.procs && s.procs[p] == Open(job) && LockFree(s)
    ensures var ino := OpenedInode(s);
      Step(s, p, Plain) == Goto(OpenLock(s), p, Lock(job, ino)) &&
      Step(Step(s, p, Plain), p, Plain) == Goto(OpenLock(s).(held := s.held[ino := p]), p, Check(job, ino))
  {
    var ino := OpenedInode(s);
    assert s.procs[p := Lock(job, ino)][p := Check(job, ino)] == s.procs[p := Check(job, ino)];
  }

  lemma VersionMatches(s: State, p: Pid, job: Job, ino: Inode)
    requires p in s.procs && s.procs[p] == Check(job, ino) && UpdateRow(s.data, job.row).Ok?
    ensures Step(s, p, Plain) == Goto(s, p, Write(job, ino))
  {
  }

  /** Up to the write: the lock is taken and the version compared. */
  lemma SaveChecks(s: State, p: Pid, job: Job) returns (acts: seq<Action>, t: State)
    requires p in s.procs && s.procs[p] == Open(job) && LockFree(s)
    requires s.data.Some? && UpdateRow(s.data, job.row).Ok?
    ensures var ino := OpenedInode(s); var unlocked := OpenLock(s);
      t == Run(s, acts) && t == Goto(unlocked.(held := s.held[ino := p]), p, Write(job, ino))
  {
    var ino := OpenedInode(s);
    var s2 := Goto(OpenLock(s).(held := s.held[ino := p]), p, Check(job, ino));
    LockTaken(s, p, job);
    VersionMatches(s2, p, job, ino);
    t := Goto(s2, p, Write(job, ino));
    acts := GoesOn(s, [], p, s);
    acts := GoesOn(s, acts, p, Goto(OpenLock(s), p, Lock(job, ino)));
    acts := GoesOn(s, acts, p, s2);
    assert t.procs == s.procs[p := Write(job, ino)];
  }

  /** A save submitted from the stored version goes through when nobody holds the lock. */
  lemma SaveRuns(s: State, p: Pid, job: Job) returns (acts: seq<Action>, t: State)
    requires p in s.procs && s.procs[p] == Open(job) && LockFree(s)
    requires s.data.Some? && UpdateRow(s.data, job.row).Ok?
    ensures t == Run(s, acts) && Saved(s, t, p, job.row, if job.begins then Work(job.row) else Done)
  {
    var ino := OpenedInode(s);
    var s3;
    acts, s3 := SaveChecks(s, p, job);
    SaveWrites(s3, p, job, ino);
    var s4 := Step(s3, p, Plain);
    acts := GoesOn(s, acts, p, s3);
    acts := GoesOn(s, acts, p, s4);
    t := Step(s4, p, Plain);
    SaveLeaves(s, s3, t, p, job, ino);
  }

  lemma SaveLeaves(s: State, s3: State, t: State, p: Pid, job: Job, ino: Inode)
    requires p in s.procs && LockFree(s) && ino == OpenedInode(s)
    requires s3 == Goto(OpenLock(s).(held := s.held[ino := p]), p, Write(job, ino))
    requires t == Goto(Save(s3, p, job.row).(held := s3.held - {ino}), p, if job.begins then Work(job.row) else Done)
    ensures Saved(s, t, p, job.row, if job.begins then Work(job.row) else Done)
  {
    ReleasesFree(s.held, ino, p);
    var pc := if job.begins then Work(job.row) else Done;
    assert s3.procs[p := pc] == s.procs[p := pc];
  }

  lemma SaveWrites(s: State, p: Pid, job: Job, ino: Inode)
    requires p in s.procs && s.procs[p] == Write(job, ino)
    ensures var u := Step(s, p, Plain); p in u.procs && u.procs[p].Release?
    ensures var u := Step(s, p, Plain);
      Step(u, p, Plain) ==
      Goto(Save(s, p, job.row).(held := s.held - {ino}), p, if job.begins then Work(job.row) else Done)
  {
    var u := Goto(Save(s, p, job.row), p, Release(ino, if job.begins then Provide(job.row) else Finish));
    assert u == Step(s, p, Plain);
    var pc := if job.begins then Work(job.row) else Done;
    assert u.procs[p := pc] == s.procs[p := pc];
  }

  // ---------------------------------------------------------------- one verify

  /** A verify is answered from the moment an apply has begun. */
  const VERIFIABLE := {Applying, AwaitingNSChange, Verifying, Complete}

  function Verified(row: Row, net: V.Network): Row {
    NextVersion(row.(status := VerifiedStatus(row, net)))
  }

  function VerifyActs(p: Pid, token: string, net: V.Network): seq<Action> {
    [Spawn(p, Verify(token)), Advance(p, Plain), Advance(p, Answers(net))]
  }

  lemma RunTo(s: State, acts: seq<Action>, a: Action, mid: State, next: State)
    requires Run(s, acts) == mid && Do(mid, a) == next
    ensures Run(s, acts + [a]) == next
  {
    RunNext(s, acts, a);
  }

  lemma ThreeActs(s: State, a: Action, b: Action, c: Action, s1: State, s2: State, s3: State)
    requires Do(s, a) == s1 && Do(s1, b) == s2 && Do(s2, c) == s3
    ensures Run(s, [a, b, c]) == s3
  {
    RunTo(s, [], a, s, s1);
    assert [] + [a] == [a];
    RunTo(s, [a], b, s1, s2);
    assert [a] + [b] == [a, b];
    RunTo(s, [a, b], c, s2, s3);
    assert [a, b] + [c] == [a, b, c];
  }

  /** A request is taken and the row loaded. */
  lemma LoadRuns(s: State, p: Pid, req: Request, pc: Pc)
    requires p !in s.procs && Loaded(s, req) == pc
    ensures Do(s, Spawn(p, req)) == Goto(s, p, Load(req))
    ensures Do(Goto(s, p, Load(req)), Advance(p, Plain)) == Goto(s, p, pc)
  {
    GotoTwice(s, p, Load(req), pc);
    assert Loaded(Goto(s, p, Load(req)), req) == pc;
  }

  lemma QueryRuns(s: State, p: Pid, row: Row, net: V.Network, job: Job)
    requires job == Job(Verified(row, net), row, false)
    ensures Do(Goto(s, p, Query(row)), Advance(p, Answers(net))) == Goto(Goto(s, p, Query(row)), p, Open(job))
    ensures Goto(Goto(s, p, Query(row)), p, Open(job)) == Goto(s, p, Open(job))
  {
    GotoTwice(s, p, Query(row), Open(job));
  }

  lemma PrepareRuns(s: State, p: Pid, row: Row, job: Job)
    requires job == Job(Begun(row), row, true)
    ensures Do(Goto(s, p, Prepare(row)), Advance(p, Plain)) == Goto(Goto(s, p, Prepare(row)), p, Open(job))
    ensures Goto(Goto(s, p, Prepare(row)), p, Open(job)) == Goto(s, p, Open(job))
  {
    GotoTwice(s, p, Prepare(row), Open(job));
  }

  lemma VerifyBegins(s: State, p: Pid, net: V.Network)
    requires p !in s.procs && s.data.Some? && s.data.value.terms.token != ""
    requires !ExpiredAt(s.data.value.terms, s.now) && s.data.value.status in VERIFIABLE
    ensures var row := s.data.value;
      Run(s, VerifyActs(p, row.terms.token, net)) == Goto(s, p, Open(Job(Verified(row, net), row, false)))
  {
    var row := s.data.value;
    var job, begin := Job(Verified(row, net), row, false), VerifyActs(p, row.terms.token, net);
    var s1 := Goto(s, p, Load(Verify(row.terms.token)));
    var s2 := Goto(s, p, Query(row));
    LoadRuns(s, p, Verify(row.terms.token), Query(row));
    QueryRuns(s, p, row, net, job);
    ThreeActs(s, begin[0], begin[1], begin[2], s1, s2, Goto(s2, p, Open(job)));
  }

  lemma SavedOver(s: State, p: Pid, pc: Pc, t: State, row: Row, end: Pc)
    requires Saved(Goto(s, p, pc), t, p, row, end)
    ensures Saved(s, t, p, row, end)
  {
    assert s.procs[p := pc][p := end] == s.procs[p := end];
  }

  /** A verify by a new process with the right token saves what the network tells. */
  lemma VerifyRuns(s: State, p: Pid, net: V.Network) returns (more: seq<Action>, t: State)
    requires p !in s.procs && LockFree(s) && s.data.Some? && s.data.value.terms.token != ""
    requires !ExpiredAt(s.data.value.terms, s.now) && s.data.value.status in VERIFIABLE
    ensures t == Run(s, more) && Saved(s, t, p, Verified(s.data.value, net), Done)
  {
    var row := s.data.value;
    var job, begin := Job(Verified(row, net), row, false), VerifyActs(p, row.terms.token, net);
    VerifyBegins(s, p, net);
    var rest;
    rest, t := SaveRuns(Goto(s, p, Open(job)), p, job);
    RunOn(s, begin, rest);
    more := begin + rest;
    SavedOver(s, p, Open(job), t, job.row, Done);
  }

  // ---------------------------------------------------------------- a stranded migration

  /** The preview handler up to the write. */
  lemma CreateChecks(row: Row, now: nat) returns (acts: seq<Action>, t: State)
    ensures t == Run(Init(row, now), acts)
    ensures t == Init(row, now).(lock := Some(0), nextIno := 1, held := map[0 := 0], procs := map[0 := CreateWrite(0)])
  {
    var s := Init(row, now);
    var s1 := s.(lock := Some(0), nextIno := 1, procs := map[0 := CreateLock(0)]);
    var s2 := s1.(held := map[0 := 0], procs := map[0 := CreateStat(0)]);
    t := s2.(procs := map[0 := CreateWrite(0)]);
    acts := GoesOn(s, [], 0, s);
    acts := GoesOn(s, acts, 0, s1);
    acts := GoesOn(s, acts, 0, s2);
  }

  /** A create that finds a data file lets go of the lock without writing. */
  lemma CreateRefuses(s: State, p: Pid, ino: Inode)
    requires p in s.procs && s.procs[p] == CreateStat(ino)
    ensures Step(s, p, Plain) ==
            s.(procs := s.procs[p := if s.data.Some? then Release(ino, Finish) else CreateWrite(ino)])
  {
  }

  lemma CreateRuns(row: Row, now: nat) returns (acts: seq<Action>, t: State)
    ensures t == Run(Init(row, now), acts)
    ensures t.data == Some(row) && t.history == [row] && t.procs == map[0 := Done] && t.held == map[] &&
      t.now == now && t.preview == row
  {
    var s3;
    acts, s3 := CreateChecks(row, now);
    var s4 := Save(s3, 0, row).(procs := map[0 := Release(0, Finish)]);
    t := s4.(held := map[], procs := map[0 := Done]);
    assert map[0 := 0] - {0} == map[];
    acts := GoesOn(Init(row, now), acts, 0, s3);
    acts := GoesOn(Init(row, now), acts, 0, s4);
  }

  function ApplyActs(p: Pid, token: string): seq<Action> {
    [Spawn(p, Apply(token)), Advance(p, Plain), Advance(p, Plain)]
  }

  function Begun(row: Row): Row {
    NextVersion(row.(status := Applying))
  }

  lemma ApplyBegins(s: State, p: Pid)
    requires p !in s.procs && s.data.Some? && s.data.value.terms.token != ""
    requires !ExpiredAt(s.data.value.terms, s.now) && s.data.value.status == Preview
    ensures var row := s.data.value;
      Run(s, ApplyActs(p, row.terms.token)) == Goto(s, p, Open(Job(Begun(row), row, true)))
  {
    var row := s.data.value;
    var job, begin := Job(Begun(row), row, true), ApplyActs(p, row.terms.token);
    var s1 := Goto(s, p, Load(Apply(row.terms.token)));
    var s2 := Goto(s, p, Prepare(row));
    LoadRuns(s, p, Apply(row.terms.token), Prepare(row));
    PrepareRuns(s, p, row, job);
    ThreeActs(s, begin[0], begin[1], begin[2], s1, s2, Goto(s2, p, Open(job)));
  }

  /** An apply that has begun: preview saved as applying, provider work about to start. */
  lemma ApplyRuns(s: State, p: Pid) returns (more: seq<Action>, t: State)
    requires p !in s.procs && LockFree(s) && s.data.Some? && s.data.value.terms.token != ""
    requires !ExpiredAt(s.data.value.terms, s.now) && s.data.value.status == Preview
    ensures var row := Begun(s.data.value);
      t == Run(s, more) && Saved(s, t, p, row, Work(row))
  {
    var row := s.data.value;
    var job, begin := Job(Begun(row), row, true), ApplyActs(p, row.terms.token);
    ApplyBegins(s, p);
    var rest;
    rest, t := SaveRuns(Goto(s, p, Open(job)), p, job);
    RunOn(s, begin, rest);
    more := begin + rest;
    SavedOver(s, p, Open(job), t, job.row, Work(job.row));
  }

  /** Every preview that has not expired can be stranded: apply begins, and a verify is saved before apply
      has asked the provider for the nameservers. */
  lemma MigrationCanStrand(row: Row, now: nat) returns (acts: seq<Action>)
    requires First(row) && !ExpiredAt(row.terms, now)
    ensures var h := Run(Init(row, now), acts).history;
      |h| == 3 && h[0].status == Preview && h[1].status == Applying && h[2].status == Verifying
  {
    var create, s := CreateRuns(row, now);
    var begin, applying := ApplyRuns(s, 1);
    var net := SilentNet(Begun(row));
    var verify, t := VerifyRuns(applying, 2, net);
    RunOn(Init(row, now), create, begin);
    RunOn(Init(row, now), create + begin, verify);
    acts := create + begin + verify;
  }

  // ---------------------------------------------------------------- a complete migration reopens

  lemma {:induction false} FreshPid(ps: set<Pid>) returns (p: Pid)
    ensures forall q | q in ps :: q < p
    decreases |ps|
  {
    if ps == {} {
      p := 0;
    } else {
      var x :| x in ps;
      var most := FreshPid(ps - {x});
      p := if x < most then most else x + 1;
      assert forall q | q in ps :: q == x || q in ps - {x};
    }
  }

  /** Whoever holds the lock may stop; the kernel then drops it. */
  lemma LockCanBeFreed(s: State) returns (more: seq<Action>)
    requires Inv(s)
    ensures var t := Run(s, more);
      LockFree(t) && t.data == s.data && t.history == s.history && t.now == s.now
  {
    var ino := OpenedInode(s);
    if ino in s.held {
      var q := s.held[ino];
      more := [Stop(q)];
      assert [Stop(q)][..0] == [];
      assert Run(s, more) == Do(s, Stop(q));
    } else {
      more := [];
    }
  }

  lemma SilentNet(row: Row) returns (net: V.Network)
    ensures VerifiedStatus(row, net) == Verifying
  {
    net := (ns, rec) => V.Silent;
    V.AllServed(row.nameservers, row.terms.records, net);
    if row.terms.records != [] {
      assert !V.Serves(row.nameservers, row.terms.records[0], net);
    }
  }

  /** From every reachable state with a complete migration that has not expired, a run goes on to save it as
      verifying again. */
  lemma CompleteCanReopen(row: Row, now: nat, acts: seq<Action>) returns (more: seq<Action>)
    requires First(row)
    requires var s := Run(Init(row, now), acts);
      s.data.Some? && s.data.value.status == Complete && !ExpiredAt(s.data.value.terms, s.now)
    ensures var s, t := Run(Init(row, now), acts), Run(Init(row, now), acts + more);
      t.data.Some? && t.data.value.status == Verifying && t.history == s.history + [t.data.value]
  {
    var s := Run(Init(row, now), acts);
    StoredTerms(row, now, acts, s);
    var freeing := LockCanBeFreed(s);
    var free := Run(s, freeing);
    var p := FreshPid(free.procs.Keys);
    var net := SilentNet(s.data.value);
    var verify, t := VerifyRuns(free, p, net);
    RunOn(s, freeing, verify);
    more := freeing + verify;
    RunOn(Init(row, now), acts, more);
  }

  // ---------------------------------------------------------------- which migrations can complete

  /** The network in which every nameserver serves every record. */
  lemma ServingNet(row: Row) returns (net: V.Network)
    requires CanComplete(row.terms) && row.nameservers != []
    ensures VerifiedStatus(row, net) == Complete
  {
    net := (ns, rec) => V.Reply([V.Kept(rec)]);
    var ns := row.nameservers[0];
    forall r | r in row.terms.records ensures V.Serves(row.nameservers, r, net) {
      assert V.Kept(r) in net(ns, r).rrs && V.RecordsMatch(r, r);
      assert V.AnswerMatches(net(ns, r), r);
    }
    V.AllServed(row.nameservers, row.terms.records, net);
  }

  predicate CompletesBy(s: State, more: seq<Action>) {
    Run(s, more).data.Some? && Run(s, more).data.value.status == Complete
  }

  lemma CompletionRuns(s: State) returns (more: seq<Action>)
    requires Inv(s) && s.data.Some? && s.data.value.status in VERIFIABLE && s.data.value.nameservers != []
    requires !ExpiredAt(s.data.value.terms, s.now) && CanComplete(s.data.value.terms)
    requires s.data.value.terms.token != ""
    ensures CompletesBy(s, more)
  {
    var freeing := LockCanBeFreed(s);
    var free := Run(s, freeing);
    var p := FreshPid(free.procs.Keys);
    var net := ServingNet(s.data.value);
    var verify, t := VerifyRuns(free, p, net);
    RunOn(s, freeing, verify);
    more := freeing + verify;
  }

  lemma CompletedCould(row: Row, now: nat, acts: seq<Action>, s: State)
    requires First(row) && s == Run(Init(row, now), acts) && s.data.Some? && s.data.value.status == Complete
    ensures CanComplete(row.terms)
  {
    Reachable(row, now, acts);
    RowLife(row, now, acts, |s.history| - 1);
  }

  lemma OnlyIfItCould(row: Row, now: nat, acts: seq<Action>, s: State, more: seq<Action>)
    requires First(row) && s == Run(Init(row, now), acts) && CompletesBy(s, more)
    ensures CanComplete(row.terms)
  {
    RunOn(Init(row, now), acts, more);
    CompletedCould(row, now, acts + more, Run(s, more));
  }

  lemma StoredTerms(row: Row, now: nat, acts: seq<Action>, s: State)
    requires First(row) && s == Run(Init(row, now), acts) && s.data.Some?
    ensures Inv(s) && s.data.value.terms == row.terms
  {
    Reachable(row, now, acts);
    PreviewFixed(Init(row, now), acts);
    TermsFixed(s.history, |s.history| - 1);
  }

  /** Once the nameservers are stored, some run completes the migration exactly when it has records and the type
      of each can be verified; the scraper also collects types that cannot. */
  lemma CompletesIff(row: Row, now: nat, acts: seq<Action>)
    requires First(row)
    requires var s := Run(Init(row, now), acts);
      s.data.Some? && s.data.value.status in VERIFIABLE && s.data.value.nameservers != [] &&
      !ExpiredAt(s.data.value.terms, s.now)
    ensures (exists more :: CompletesBy(Run(Init(row, now), acts), more)) <==> CanComplete(row.terms)
  {
    var s := Run(Init(row, now), acts);
    StoredTerms(row, now, acts, s);
    if CanComplete(row.terms) {
      var more := CompletionRuns(s);
    }
    if more :| CompletesBy(s, more) {
      OnlyIfItCould(row, now, acts, s, more);
    }
  }

  // ---------------------------------------------------------------- what else requests do

  /** A request is refused, and changes nothing, when the migration is gone or has expired, the token is wrong, or
      the status does not allow it. */
  lemma RefusedRuns(s: State, p: Pid, req: Request)
    requires p !in s.procs
    requires s.data.Some? ==>
      || (s.data.value.terms.expiresAt.Some? && s.data.value.terms.expiresAt.value < s.now)
      || req.token == "" || req.token != s.data.value.terms.token
      || (req.Apply? && s.data.value.status != Preview)
      || (req.Verify? && s.data.value.status in {Preview, Failed})
    ensures Run(s, [Spawn(p, req), Advance(p, Plain)]) == Goto(s, p, Done)
  {
    LoadRuns(s, p, req, Done);
    RunTo(s, [], Spawn(p, req), s, Goto(s, p, Load(req)));
    assert [] + [Spawn(p, req)] == [Spawn(p, req)];
    RunTo(s, [Spawn(p, req)], Advance(p, Plain), Goto(s, p, Load(req)), Goto(s, p, Done));
    assert [Spawn(p, req)] + [Advance(p, Plain)] == [Spawn(p, req), Advance(p, Plain)];
  }

  /** The row that an apply saves after its provider work. */
  function Outcome(row: Row, c: Choice): Row
    requires c.EnsureFails? || c.InitFails? || c.Wrote?
  {
    match c
    case EnsureFails(report) => Row(Failed, row.version + 1, row.terms, row.nameservers, report)
    case InitFails(ns, report) => Row(Failed, row.version + 1, row.terms, ns, report)
    case Wrote(ns, report, true) => Row(AwaitingNSChange, row.version + 1, row.terms, ns, report)
    case Wrote(ns, report, false) => Row(Failed, row.version + 1, row.terms, ns, report)
  }

  /** An apply that is at the provider ends by saving what became of it, when nobody holds the lock or has saved
      meanwhile. */
  lemma ApplyFinishes(s: State, p: Pid, row: Row, c: Choice) returns (more: seq<Action>, t: State)
    requires p in s.procs && s.procs[p] == Work(row) && LockFree(s) && s.data == Some(row)
    requires c.EnsureFails? || c.InitFails? || c.Wrote?
    ensures t == Run(s, more) && t.data == Some(Outcome(row, c)) && t.history == s.history + [Outcome(row, c)]
    ensures t.procs == s.procs[p := Done] && LockFree(t)
  {
    var job := Job(Outcome(row, c), row, c.Plain?);
    var s1 := Goto(s.(entered := s.entered + [p]), p, Open(job));
    assert Do(s, Advance(p, c)) == s1;
    var rest;
    rest, t := SaveRuns(s1, p, job);
    RunTo(s, [], Advance(p, c), s, s1);
    assert [] + [Advance(p, c)] == [Advance(p, c)];
    RunOn(s, [Advance(p, c)], rest);
    more := [Advance(p, c)] + rest;
    assert s.procs[p := Open(job)][p := Done] == s.procs[p := Done];
  }

  lemma RemoveLoads(s: State, p: Pid) returns (acts: seq<Action>, t: State)
    requires p !in s.procs && s.data.Some? && !ExpiredAt(s.data.value.terms, s.now)
    requires s.data.value.terms.token != ""
    ensures t == Run(s, acts) && t == Goto(s, p, DelOpen(Authorised))
  {
    var req := Request.Remove(s.data.value.terms.token);
    t := Goto(s, p, DelOpen(Authorised));
    LoadRuns(s, p, req, DelOpen(Authorised));
    RunTo(s, [], Spawn(p, req), s, Goto(s, p, Load(req)));
    assert [] + [Spawn(p, req)] == [Spawn(p, req)];
    RunTo(s, [Spawn(p, req)], Advance(p, Plain), Goto(s, p, Load(req)), t);
    acts := [Spawn(p, req)] + [Advance(p, Plain)];
  }

  lemma DeleteLocks(s: State, p: Pid, cause: Cause)
    requires p in s.procs && s.procs[p] == DelOpen(cause) && LockFree(s)
    ensures var ino := OpenedInode(s);
      Step(s, p, Plain) == Goto(OpenLock(s), p, DelLock(cause, ino)) &&
      Step(Step(s, p, Plain), p, Plain) == Goto(OpenLock(s).(held := s.held[ino := p]), p, DelData(cause, ino))
  {
    var ino := OpenedInode(s);
    assert s.procs[p := DelLock(cause, ino)][p := DelData(cause, ino)] == s.procs[p := DelData(cause, ino)];
  }

  lemma DeleteEnds(s: State, p: Pid, cause: Cause, ino: Inode)
    requires p in s.procs && s.procs[p] == DelData(cause, ino)
    ensures var u := Step(s, p, Plain); p in u.procs && u.procs[p] == Release(ino, Unlink)
    ensures var v := Step(Step(s, p, Plain), p, Plain); p in v.procs && v.procs[p] == DelLockFile
    ensures var w := Step(Step(Step(s, p, Plain), p, Plain), p, Plain);
      w.data == None && w.lock == None && w.history == s.history && w.procs[p] == Done
  {
  }

  /** A removal with the right token deletes the migration when nobody holds the lock. */
  lemma RemoveRuns(s: State, p: Pid) returns (more: seq<Action>, t: State)
    requires p !in s.procs && LockFree(s) && s.data.Some? && !ExpiredAt(s.data.value.terms, s.now)
    requires s.data.value.terms.token != ""
    ensures t == Run(s, more) && t.data == None && t.lock == None && t.history == s.history
  {
    var s1, acts;
    acts, s1 := RemoveLoads(s, p);
    DeleteLocks(s1, p, Authorised);
    var s2 := Step(s1, p, Plain);
    var s3 := Step(s2, p, Plain);
    DeleteEnds(s3, p, Authorised, OpenedInode(s1));
    var s4 := Step(s3, p, Plain);
    var s5 := Step(s4, p, Plain);
    t := Step(s5, p, Plain);
    acts := GoesOn(s, acts, p, s1);
    acts := GoesOn(s, acts, p, s2);
    acts := GoesOn(s, acts, p, s3);
    acts := GoesOn(s, acts, p, s4);
    more := GoesOn(s, acts, p, s5);
  }
}
