/** The invariant of the protocol, and that every action keeps it. */
module ProtocolInvariant {
  import opened Text
  import opened Store
  import opened Protocol
  import V = VerifyTarget

  // ---------------------------------------------------------------- the history of rows

  /** There is something to verify, and all of it can be. */
  predicate CanComplete(terms: Terms) {
    terms.records != [] && V.AllVerifiable(terms.records)
  }

  /** The saves that handlers make: who may follow whom. */
  predicate Legal(a: Row, b: Row) {
    && b.version == a.version + 1
    && b.terms == a.terms
    && match b.status
       case Preview => false
       case Applying => a.status == Preview && b.nameservers == a.nameservers
       case Failed => a.status == Applying
       case AwaitingNSChange => a.status == Applying
       case Verifying => CanVerify(a.status) && b.nameservers == a.nameservers
       case Complete =>
         CanVerify(a.status) && b.nameservers == a.nameservers && a.nameservers != [] && CanComplete(a.terms)
  }

  ghost predicate LegalHistory(h: seq<Row>) {
    && (h != [] ==> First(h[0]))
    && (forall i | 0 <= i < |h| :: h[i].version == i + 1)
    && (forall i | 0 < i < |h| :: Legal(h[i - 1], h[i]))
  }

  predicate InHistory(h: seq<Row>, row: Row) {
    1 <= row.version <= |h| && h[row.version - 1] == row
  }

  // ---------------------------------------------------------------- locks

  function Fd(pc: Pc): Option<Inode> {
    match pc
    case CreateLock(ino) => Some(ino)
    case CreateStat(ino) => Some(ino)
    case CreateWrite(ino) => Some(ino)
    case Lock(_, ino) => Some(ino)
    case Check(_, ino) => Some(ino)
    case Write(_, ino) => Some(ino)
    case DelLock(_, ino) => Some(ino)
    case DelData(_, ino) => Some(ino)
    case Release(ino, _) => Some(ino)
    case _ => None
  }

  predicate InSection(pc: Pc) {
    pc.CreateStat? || pc.CreateWrite? || pc.Check? || pc.Write? || pc.DelData? || pc.Release?
  }

  /** The row existed and was deleted. */
  predicate Gone(s: State) {
    s.history != [] && s.data.None?
  }

  /** Until the row is deleted, every open lock descriptor is on the inode the lock path names. */
  predicate FdOk(s: State, pc: Pc) {
    Fd(pc).Some? ==> Fd(pc).value < s.nextIno && (Gone(s) || s.lock == Fd(pc))
  }

  ghost predicate LocksOk(s: State) {
    && (s.lock.Some? ==> s.lock.value < s.nextIno)
    && (forall i | i in s.held ::
          s.held[i] in s.procs && InSection(s.procs[s.held[i]]) && Fd(s.procs[s.held[i]]) == Some(i))
    && (forall p | p in s.procs && InSection(s.procs[p]) ::
          Fd(s.procs[p]).value in s.held && s.held[Fd(s.procs[p]).value] == p)
  }

  // ---------------------------------------------------------------- what each process knows

  predicate JobOk(s: State, p: Pid, job: Job) {
    && InHistory(s.history, job.base)
    && Legal(job.base, job.row)
    && (job.begins <==> job.row.status == Applying)
  }

  /** `row` is the applying row that this process wrote, and the provider is still untouched. */
  predicate Mine(s: State, p: Pid, row: Row) {
    InHistory(s.history, row) && row.status == Applying && row.version <= |s.authors| &&
    s.authors[row.version - 1] == p && s.entered == []
  }

  predicate CauseOk(s: State, cause: Cause) {
    s.history != [] && (cause.Swept? ==> cause.before <= s.now && ExpiredAt(s.history[0].terms, cause.before))
  }

  predicate PcOk(s: State, p: Pid, pc: Pc) {
    match pc
    case CreateOpen => p == 0 && s.history == []
    case CreateLock(_) => p == 0 && s.history == []
    case CreateStat(_) => p == 0 && s.history == []
    case CreateWrite(_) => p == 0 && s.history == []
    case Load(_) => true
    case Prepare(row) => InHistory(s.history, row) && row.status == Preview
    case Open(job) => JobOk(s, p, job)
    case Lock(job, _) => JobOk(s, p, job)
    case Check(job, _) => JobOk(s, p, job)
    case Write(job, _) => JobOk(s, p, job) && UpdateRow(s.data, job.row).Ok?
    case Work(row) => Mine(s, p, row)
    case Query(row) => InHistory(s.history, row) && CanVerify(row.status)
    case SweepRead(before) => before <= s.now
    case DelOpen(cause) => CauseOk(s, cause)
    case DelLock(cause, _) => CauseOk(s, cause)
    case DelData(cause, _) => CauseOk(s, cause)
    case DelLockFile => Gone(s)
    case Release(_, after) =>
      s.history != [] &&
      (match after case Finish => true case Provide(row) => Mine(s, p, row) case Unlink => Gone(s))
    case Done => true
  }

  ghost predicate ProcsOk(s: State) {
    forall p | p in s.procs :: PcOk(s, p, s.procs[p]) && FdOk(s, s.procs[p])
  }

  /** The provider was entered at most once, by the process that wrote the second row. */
  predicate EnteredOk(s: State) {
    s.entered == [] || (|s.history| >= 2 && |s.authors| >= 2 && s.entered == [s.authors[1]])
  }

  ghost predicate DataOk(s: State) {
    && First(s.preview)
    && LegalHistory(s.history)
    && (s.history != [] ==> s.history[0] == s.preview)
    && |s.authors| == |s.history|
    && (s.data.Some? ==> s.history != [] && s.data.value == s.history[|s.history| - 1])
    && EnteredOk(s)
  }

  ghost predicate Inv(s: State) {
    DataOk(s) && LocksOk(s) && ProcsOk(s)
  }

  // ---------------------------------------------------------------- facts about histories

  lemma {:induction false} TermsFixed(h: seq<Row>, i: nat)
    requires LegalHistory(h) && i < |h|
    ensures h[i].terms == h[0].terms
    decreases i
  {
    if i > 0 {
      TermsFixed(h, i - 1);
      assert Legal(h[i - 1], h[i]);
    }
  }

  lemma PreviewIsFirst(h: seq<Row>, i: nat)
    requires LegalHistory(h) && i < |h|
    ensures h[i].status == Preview <==> i == 0
    ensures h[i].status == Applying <==> i == 1 && h[1].status == Applying
  {
    if i > 0 {
      assert Legal(h[i - 1], h[i]);
      if i > 1 {
        assert Legal(h[i - 2], h[i - 1]);
      }
    }
  }

  lemma HistoryGrows(h: seq<Row>, row: Row)
    requires LegalHistory(h)
    requires if h == [] then First(row) else Legal(h[|h| - 1], row)
    ensures LegalHistory(h + [row])
  {
    var g := h + [row];
    forall i | 0 < i < |g| ensures Legal(g[i - 1], g[i]) {
      if i < |h| {
        assert Legal(h[i - 1], h[i]);
      }
    }
  }

  /** At most one process is between taking and releasing the lock while the row exists. */
  lemma Exclusive(s: State, p: Pid, q: Pid)
    requires LocksOk(s) && ProcsOk(s) && !Gone(s)
    requires p in s.procs && q in s.procs && InSection(s.procs[p]) && InSection(s.procs[q])
    ensures p == q
  {
    assert FdOk(s, s.procs[p]) && FdOk(s, s.procs[q]);
  }

  // ---------------------------------------------------------------- steps that leave the files alone

  /** What every process knows survives when the files only gain the lock file or time passes. */
  predicate Quiet(s: State, t: State) {
    && t.preview == s.preview && t.data == s.data
    && t.history == s.history && t.authors == s.authors && t.entered == s.entered
    && s.now <= t.now && s.nextIno <= t.nextIno
    && (t.lock == s.lock || s.lock.None?)
  }

  lemma QuietKeeps(s: State, t: State, q: Pid, pc: Pc)
    requires Quiet(s, t) && PcOk(s, q, pc) && FdOk(s, pc)
    ensures PcOk(t, q, pc) && FdOk(t, pc)
  {
  }

  /** Process p moves on to `pc` while nothing but locks changes. */
  lemma QuietStep(s: State, t: State, p: Pid, pc: Pc)
    requires Inv(s) && Quiet(s, t) && t.procs == s.procs[p := pc]
    requires PcOk(t, p, pc) && FdOk(t, pc) && LocksOk(t)
    ensures Inv(t)
  {
    forall q | q in t.procs ensures PcOk(t, q, t.procs[q]) && FdOk(t, t.procs[q]) {
      if q != p {
        QuietKeeps(s, t, q, s.procs[q]);
      }
    }
  }

  lemma MoveKeeps(s: State, p: Pid, pc: Pc)
    requires Inv(s) && (p in s.procs || !InSection(pc))
    requires PcOk(s, p, pc) && FdOk(s, pc)
    requires p in s.procs ==> InSection(pc) == InSection(s.procs[p])
    requires p in s.procs && InSection(pc) ==> Fd(pc) == Fd(s.procs[p])
    ensures Inv(Goto(s, p, pc))
  {
    var t := Goto(s, p, pc);
    assert LocksOk(t);
    QuietStep(s, t, p, pc);
  }

  lemma OpenKeeps(s: State, p: Pid, pc: Pc)
    requires Inv(s) && p in s.procs && !InSection(s.procs[p]) && !InSection(pc)
    requires PcOk(s, p, pc) && Fd(pc) == Some(OpenedInode(s))
    ensures Inv(Goto(OpenLock(s), p, pc))
  {
    var t := Goto(OpenLock(s), p, pc);
    OpenKeepsLocks(s, p, pc);
    QuietKeeps(s, t, p, SweepRead(s.now));
    OpenKeepsPc(s, p, pc);
    QuietStep(s, t, p, pc);
  }

  lemma OpenKeepsLocks(s: State, p: Pid, pc: Pc)
    requires LocksOk(s) && p in s.procs && !InSection(s.procs[p]) && !InSection(pc)
    ensures LocksOk(Goto(OpenLock(s), p, pc))
  {
  }

  lemma OpenKeepsPc(s: State, p: Pid, pc: Pc)
    requires PcOk(s, p, pc)
    ensures PcOk(Goto(OpenLock(s), p, pc), p, pc)
  {
  }

  lemma AcquireKeeps(s: State, p: Pid, ino: Inode, pc: Pc)
    requires Inv(s) && p in s.procs && !InSection(s.procs[p]) && InSection(pc)
    requires Fd(s.procs[p]) == Some(ino) && Fd(pc) == Some(ino) && PcOk(s, p, pc)
    ensures Inv(Acquire(s, p, ino, pc))
  {
    if ino !in s.held {
      var t := Acquire(s, p, ino, pc);
      assert LocksOk(t);
      assert FdOk(s, s.procs[p]);
      QuietStep(s, t, p, pc);
    }
  }

  lemma ReleaseKeeps(s: State, p: Pid, ino: Inode, pc: Pc)
    requires Inv(s) && p in s.procs && InSection(s.procs[p]) && Fd(s.procs[p]) == Some(ino)
    requires !InSection(pc) && Fd(pc) == None && PcOk(s, p, pc)
    ensures Inv(Goto(s.(held := s.held - {ino}), p, pc))
  {
    var t := Goto(s.(held := s.held - {ino}), p, pc);
    assert LocksOk(t);
    QuietStep(s, t, p, pc);
  }

  lemma StopKeeps(s: State, p: Pid)
    requires Inv(s) && p in s.procs
    ensures Inv(Do(s, Stop(p)))
  {
    var t := Do(s, Stop(p));
    assert LocksOk(t);
    QuietStep(s, t, p, Done);
  }

  lemma TickKeeps(s: State)
    requires Inv(s)
    ensures Inv(Do(s, Tick))
  {
    var t := Do(s, Tick);
    assert LocksOk(t);
    forall q | q in t.procs ensures PcOk(t, q, t.procs[q]) && FdOk(t, t.procs[q]) {
      QuietKeeps(s, t, q, s.procs[q]);
    }
  }

  // ---------------------------------------------------------------- steps that write

  /** While one process writes, no other holds the lock, so no other is about to write. */
  lemma SaveKeepsOthers(s: State, p: Pid, row: Row, q: Pid)
    requires Inv(s) && p in s.procs && q in s.procs && p != q && !Gone(s)
    requires s.procs[p].CreateWrite? || s.procs[p].Write?
    ensures var t := Save(s, p, row); PcOk(t, q, s.procs[q]) && FdOk(t, s.procs[q])
  {
    assert PcOk(s, p, s.procs[p]) && PcOk(s, q, s.procs[q]) && FdOk(s, s.procs[q]);
    if s.procs[q].Write? || s.procs[q].CreateWrite? || s.procs[q].CreateStat? {
      Exclusive(s, p, q);
    }
  }

  lemma SaveKeeps(s: State, p: Pid, row: Row, pc: Pc)
    requires Inv(s) && p in s.procs && !Gone(s)
    requires s.procs[p].CreateWrite? || s.procs[p].Write?
    requires if s.history == [] then row == s.preview else s.data.Some? && Legal(s.data.value, row)
    requires pc.Release? && Fd(pc) == Fd(s.procs[p]) && PcOk(Save(s, p, row), p, pc)
    ensures Inv(Goto(Save(s, p, row), p, pc))
  {
    var t := Goto(Save(s, p, row), p, pc);
    HistoryGrows(s.history, row);
    assert FdOk(s, s.procs[p]);
    assert LocksOk(t);
    forall q | q in t.procs ensures PcOk(t, q, t.procs[q]) && FdOk(t, t.procs[q]) {
      if q != p {
        SaveKeepsOthers(s, p, row, q);
      }
    }
  }

  /** The stored row at a successful compare is the very row the job was derived from. */
  lemma BaseIsStored(s: State, p: Pid, job: Job)
    requires Inv(s) && JobOk(s, p, job) && UpdateRow(s.data, job.row).Ok?
    ensures s.data == Some(job.base)
  {
    var n := |s.history|;
    assert s.history[n - 1].version == n;
  }

  lemma WriteKeeps(s: State, p: Pid, job: Job, ino: Inode)
    requires Inv(s) && p in s.procs && s.procs[p] == Write(job, ino)
    ensures Inv(Step(s, p, Plain))
  {
    assert PcOk(s, p, s.procs[p]);
    BaseIsStored(s, p, job);
    var pc := Release(ino, if job.begins then Provide(job.row) else Finish);
    if job.begins {
      assert job.base.status == Preview;
      PreviewIsFirst(s.history, |s.history| - 1);
    }
    assert PcOk(Save(s, p, job.row), p, pc);
    SaveKeeps(s, p, job.row, pc);
  }

  lemma RemoveKeeps(s: State, p: Pid, cause: Cause, ino: Inode)
    requires Inv(s) && p in s.procs && s.procs[p] == DelData(cause, ino)
    ensures Inv(Step(s, p, Plain))
  {
    RemoveKeepsLocks(s, p, cause, ino);
    RemoveKeepsProcs(s, p, cause, ino);
    assert PcOk(s, p, s.procs[p]);
    assert Step(s, p, Plain) == Goto(s.(data := None), p, Release(ino, Unlink));
  }

  lemma RemoveKeepsLocks(s: State, p: Pid, cause: Cause, ino: Inode)
    requires LocksOk(s) && p in s.procs && s.procs[p] == DelData(cause, ino)
    ensures LocksOk(Goto(s.(data := None), p, Release(ino, Unlink)))
  {
  }

  lemma RemoveKeepsProcs(s: State, p: Pid, cause: Cause, ino: Inode)
    requires Inv(s) && p in s.procs && s.procs[p] == DelData(cause, ino)
    ensures ProcsOk(Goto(s.(data := None), p, Release(ino, Unlink)))
  {
    var t := Goto(s.(data := None), p, Release(ino, Unlink));
    assert PcOk(s, p, s.procs[p]) && FdOk(s, s.procs[p]);
    forall q | q in t.procs ensures PcOk(t, q, t.procs[q]) && FdOk(t, t.procs[q]) {
      if q != p {
        RemoveKeepsOthers(s, p, q);
        BystanderOk(s.(data := None), p, Release(ino, Unlink), q);
      }
    }
  }

  /** Moving another process does not change what one knows. */
  lemma BystanderOk(s: State, p: Pid, pc: Pc, q: Pid)
    requires q in s.procs && p != q && PcOk(s, q, s.procs[q]) && FdOk(s, s.procs[q])
    ensures var t := Goto(s, p, pc); PcOk(t, q, t.procs[q]) && FdOk(t, t.procs[q])
  {
  }

  lemma RemoveKeepsOthers(s: State, p: Pid, q: Pid)
    requires Inv(s) && p in s.procs && q in s.procs && p != q && s.procs[p].DelData?
    ensures var t := s.(data := None); PcOk(t, q, s.procs[q]) && FdOk(t, s.procs[q])
  {
    assert PcOk(s, p, s.procs[p]) && PcOk(s, q, s.procs[q]) && FdOk(s, s.procs[q]);
    if s.procs[q].Write? {
      Exclusive(s, p, q);
    }
  }

  lemma UnlinkKeeps(s: State, p: Pid)
    requires Inv(s) && p in s.procs && s.procs[p] == DelLockFile
    ensures Inv(Step(s, p, Plain))
  {
    var t := Step(s, p, Plain);
    assert PcOk(s, p, s.procs[p]);
    assert LocksOk(t);
    forall q | q in t.procs ensures PcOk(t, q, t.procs[q]) && FdOk(t, t.procs[q]) {
      if q != p {
        assert PcOk(s, q, s.procs[q]) && FdOk(s, s.procs[q]);
      }
    }
  }

  /** Only the writer of the second row enters the provider, and only once. */
  lemma WorkKeeps(s: State, p: Pid, row: Row, c: Choice)
    requires Inv(s) && p in s.procs && s.procs[p] == Work(row) && !c.Plain? && !c.Answers?
    ensures Inv(Step(s, p, c))
  {
    var t := Step(s, p, c);
    assert PcOk(s, p, s.procs[p]);
    PreviewIsFirst(s.history, row.version - 1);
    assert JobOk(t, p, Job(Applied(row, c), row, false));
    assert LocksOk(t);
    forall q | q in t.procs ensures PcOk(t, q, t.procs[q]) && FdOk(t, t.procs[q]) {
      if q != p {
        EnterKeepsOthers(s, p, row, q);
      }
    }
  }

  lemma EnterKeepsOthers(s: State, p: Pid, row: Row, q: Pid)
    requires Inv(s) && q in s.procs && p != q && Mine(s, p, row)
    ensures var t := s.(entered := [p]); PcOk(t, q, s.procs[q]) && FdOk(t, s.procs[q])
  {
    assert PcOk(s, q, s.procs[q]) && FdOk(s, s.procs[q]);
    NotMineToo(s, p, row, q);
  }

  lemma NotMineToo(s: State, p: Pid, row: Row, q: Pid)
    requires DataOk(s) && Mine(s, p, row) && p != q
    ensures forall other :: !Mine(s, q, other)
  {
    forall other | Mine(s, q, other) ensures false {
      PreviewIsFirst(s.history, row.version - 1);
      PreviewIsFirst(s.history, other.version - 1);
    }
  }

  // ---------------------------------------------------------------- every action

  lemma LoadKeeps(s: State, p: Pid, req: Request)
    requires Inv(s) && p in s.procs && s.procs[p] == Load(req)
    ensures Inv(Step(s, p, Plain))
  {
    MoveKeeps(s, p, Loaded(s, req));
  }

  lemma SweepKeeps(s: State, p: Pid, before: nat)
    requires Inv(s) && p in s.procs && s.procs[p] == SweepRead(before)
    ensures Inv(Step(s, p, Plain))
  {
    assert PcOk(s, p, s.procs[p]);
    if s.data.Some? {
      TermsFixed(s.history, |s.history| - 1);
    }
    if s.data.Some? && ExpiredAt(s.data.value.terms, before) {
      MoveKeeps(s, p, DelOpen(Swept(before)));
    } else {
      MoveKeeps(s, p, Done);
    }
  }

  lemma VerifyIsLegal(row: Row, net: V.Network)
    requires CanVerify(row.status)
    ensures Legal(row, NextVersion(row.(status := VerifiedStatus(row, net))))
  {
    V.AllServed(row.nameservers, row.terms.records, net);
    if V.ServesAll(row.nameservers, row.terms.records, net) {
      V.ServedIsVerifiable(row.nameservers, row.terms.records, net);
    }
  }

  lemma QueryKeeps(s: State, p: Pid, row: Row, net: V.Network)
    requires Inv(s) && p in s.procs && s.procs[p] == Query(row)
    ensures Inv(Step(s, p, Answers(net)))
  {
    assert PcOk(s, p, s.procs[p]);
    VerifyIsLegal(row, net);
    MoveKeeps(s, p, Open(Job(NextVersion(row.(status := VerifiedStatus(row, net))), row, false)));
  }

  predicate Creates(pc: Pc) {
    pc.CreateOpen? || pc.CreateLock? || pc.CreateStat? || pc.CreateWrite?
  }

  predicate Updates(pc: Pc) {
    pc.Open? || pc.Lock? || pc.Check? || pc.Write?
  }

  predicate Deletes(pc: Pc) {
    pc.DelOpen? || pc.DelLock? || pc.DelData? || pc.DelLockFile?
  }

  lemma CreateKeeps(s: State, p: Pid, c: Choice)
    requires Inv(s) && p in s.procs && Creates(s.procs[p])
    ensures Inv(Step(s, p, c))
  {
    var pc := s.procs[p];
    assert PcOk(s, p, pc) && FdOk(s, pc);
    match pc
    case CreateOpen => OpenKeeps(s, p, CreateLock(OpenedInode(s)));
    case CreateLock(ino) => AcquireKeeps(s, p, ino, CreateStat(ino));
    case CreateStat(ino) => MoveKeeps(s, p, CreateWrite(ino));
    case CreateWrite(ino) => SaveKeeps(s, p, s.preview, Release(ino, Finish));
  }

  lemma CheckKeeps(s: State, p: Pid, c: Choice)
    requires Inv(s) && p in s.procs && s.procs[p].Check?
    ensures Inv(Step(s, p, c))
  {
    assert PcOk(s, p, s.procs[p]) && FdOk(s, s.procs[p]);
    var job, ino := s.procs[p].job, s.procs[p].ino;
    MoveKeeps(s, p, if UpdateRow(s.data, job.row).Ok? then Write(job, ino) else Release(ino, Finish));
  }

  lemma UpdateKeeps(s: State, p: Pid, c: Choice)
    requires Inv(s) && p in s.procs && Updates(s.procs[p])
    ensures Inv(Step(s, p, c))
  {
    match s.procs[p]
    case Open(job) =>
      assert PcOk(s, p, s.procs[p]);
      OpenKeeps(s, p, Lock(job, OpenedInode(s)));
    case Lock(job, ino) =>
      assert PcOk(s, p, s.procs[p]);
      AcquireKeeps(s, p, ino, Check(job, ino));
    case Check(_, _) => CheckKeeps(s, p, c);
    case Write(job, ino) => WriteKeeps(s, p, job, ino);
  }

  lemma DeleteKeeps(s: State, p: Pid, c: Choice)
    requires Inv(s) && p in s.procs && Deletes(s.procs[p])
    ensures Inv(Step(s, p, c))
  {
    var pc := s.procs[p];
    assert PcOk(s, p, pc) && FdOk(s, pc);
    match pc
    case DelOpen(cause) => OpenKeeps(s, p, DelLock(cause, OpenedInode(s)));
    case DelLock(cause, ino) => AcquireKeeps(s, p, ino, DelData(cause, ino));
    case DelData(cause, ino) => RemoveKeeps(s, p, cause, ino);
    case DelLockFile => UnlinkKeeps(s, p);
  }

  lemma PrepareKeeps(s: State, p: Pid, row: Row)
    requires Inv(s) && p in s.procs && s.procs[p] == Prepare(row)
    ensures Inv(Step(s, p, Plain))
  {
    assert PcOk(s, p, s.procs[p]);
    MoveKeeps(s, p, Open(Job(NextVersion(row.(status := Applying)), row, true)));
  }

  lemma FinishKeeps(s: State, p: Pid, ino: Inode, after: After)
    requires Inv(s) && p in s.procs && s.procs[p] == Release(ino, after)
    ensures Inv(Step(s, p, Plain))
  {
    assert PcOk(s, p, s.procs[p]);
    ReleaseKeeps(s, p, ino, match after case Finish => Done case Provide(row) => Work(row) case Unlink => DelLockFile);
  }

  lemma AdvanceKeeps(s: State, p: Pid, c: Choice)
    requires Inv(s) && p in s.procs
    ensures Inv(Step(s, p, c))
  {
    var pc := s.procs[p];
    if Creates(pc) {
      CreateKeeps(s, p, c);
    } else if Updates(pc) {
      UpdateKeeps(s, p, c);
    } else if Deletes(pc) {
      DeleteKeeps(s, p, c);
    } else {
      match pc
      case Load(req) => LoadKeeps(s, p, req);
      case SweepRead(before) => SweepKeeps(s, p, before);
      case Prepare(row) => PrepareKeeps(s, p, row);
      case Work(row) => if !c.Plain? && !c.Answers? { WorkKeeps(s, p, row, c); }
      case Query(row) => if c.Answers? { QueryKeeps(s, p, row, c.net); }
      case Release(ino, after) => FinishKeeps(s, p, ino, after);
      case Done =>
    }
  }

  /** Every action, of any process, keeps the invariant. */
  lemma DoKeeps(s: State, a: Action)
    requires Inv(s)
    ensures Inv(Do(s, a))
  {
    match a
    case Tick => TickKeeps(s);
    case Spawn(p, req) => if p !in s.procs { MoveKeeps(s, p, Load(req)); }
    case SpawnSweep(p, before) => if p !in s.procs && before <= s.now { MoveKeeps(s, p, SweepRead(before)); }
    case Advance(p, c) => if p in s.procs { AdvanceKeeps(s, p, c); }
    case Stop(p) => if p in s.procs { StopKeeps(s, p); }
  }

  /** The invariant holds in every state of every run. */
  lemma {:induction false} Reachable(row: Row, now: nat, acts: seq<Action>)
    requires First(row)
    ensures Inv(Run(Init(row, now), acts))
  {
    if acts != [] {
      Reachable(row, now, acts[..|acts| - 1]);
      DoKeeps(Run(Init(row, now), acts[..|acts| - 1]), acts[|acts| - 1]);
    }
  }
}
