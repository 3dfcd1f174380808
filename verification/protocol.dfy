/** One migration shared by any number of request handlers and sweepers: the handlers' steps over
    the data file and the lock file, interleaved in every possible way. */
module Protocol {
  import opened Text
  import opened Store
  import V = VerifyTarget

  type Pid = nat
  type Inode = nat

  // ---------------------------------------------------------------- processes

  /** A save: `row` is submitted, derived from the loaded or saved `base`. */
  datatype Job = Job(row: Row, base: Row, begins: bool)

  /** Who may delete: a client that showed the token, or a sweep with this cut-off. */
  datatype Cause = Authorised | Swept(before: nat)

  datatype Request = Apply(token: string) | Verify(token: string) | Remove(token: string)

  /** What a process does once it has released the lock. */
  datatype After = Finish | Provide(row: Row) | Unlink

  datatype Pc =
    | CreateOpen
    | CreateLock(ino: Inode)
    | CreateStat(ino: Inode)
    | CreateWrite(ino: Inode)
    | Load(req: Request)
    | Prepare(row: Row)
    | Open(job: Job)
    | Lock(job: Job, ino: Inode)
    | Check(job: Job, ino: Inode)
    | Write(job: Job, ino: Inode)
    | Work(row: Row)
    | Query(row: Row)
    | SweepRead(before: nat)
    | DelOpen(cause: Cause)
    | DelLock(cause: Cause, ino: Inode)
    | DelData(cause: Cause, ino: Inode)
    | DelLockFile
    | Release(ino: Inode, after: After)
    | Done

  /** `preview` is the row the preview handler made, `data` and `lock` are the directory entries, `held`
      the exclusive locks on inodes. The last three fields are bookkeeping: every row ever written with
      its writer, and who called the provider. */
  datatype State = State(
    preview: Row,
    data: Option<Row>,
    lock: Option<Inode>,
    held: map<Inode, Pid>,
    nextIno: Inode,
    now: nat,
    procs: map<Pid, Pc>,
    history: seq<Row>,
    authors: seq<Pid>,
    entered: seq<Pid>)

  // ---------------------------------------------------------------- actions

  /** How the outside world answers a step. */
  datatype Choice =
    | Plain
    | EnsureFails(report: string)
    | InitFails(nameservers: seq<string>, report: string)
    | Wrote(nameservers: seq<string>, report: string, ok: bool)
    | Answers(net: V.Network)

  /** A process may also stop at any point, on an error or a crash; the kernel then drops its lock. */
  datatype Action =
    | Tick
    | Spawn(pid: Pid, req: Request)
    | SpawnSweep(pid: Pid, before: nat)
    | Advance(pid: Pid, choice: Choice)
    | Stop(pid: Pid)

  function OpenedInode(s: State): Inode {
    if s.lock.Some? then s.lock.value else s.nextIno
  }

  /** Opening the lock path creates the file when it is missing. */
  function OpenLock(s: State): State {
    if s.lock.Some? then s else s.(lock := Some(s.nextIno), nextIno := s.nextIno + 1)
  }

  function Goto(s: State, p: Pid, pc: Pc): State {
    s.(procs := s.procs[p := pc])
  }

  function Acquire(s: State, p: Pid, ino: Inode, pc: Pc): State {
    if ino in s.held then s else Goto(s.(held := s.held[ino := p]), p, pc)
  }

  function Save(s: State, p: Pid, row: Row): State {
    s.(data := Some(row), history := s.history + [row], authors := s.authors + [p])
  }

  predicate CanVerify(st: Status) {
    st == Applying || st == AwaitingNSChange || st == Verifying || st == Complete
  }

  /** loadAndAuth followed by the status test of the handler. */
  function Loaded(s: State, req: Request): Pc {
    var r := ReadRow(s.data, s.now);
    if r.Err? || req.token == "" || r.value.terms.token != req.token then Done
    else match req
      case Apply(_) => if r.value.status == Preview then Prepare(r.value) else Done
      case Verify(_) => if CanVerify(r.value.status) then Query(r.value) else Done
      case Remove(_) => DelOpen(Authorised)
  }

  function NextVersion(row: Row): Row {
    row.(version := row.version + 1)
  }

  function VerifiedStatus(row: Row, net: V.Network): Status {
    var total := |row.terms.records|;
    if total > 0 && V.CountServed(row.nameservers, row.terms.records, net) == total then Complete else Verifying
  }

  /** The row the apply handler saves after its provider work. */
  function Applied(row: Row, c: Choice): Row {
    match c
    case EnsureFails(report) => NextVersion(row.(status := Failed, report := report))
    case InitFails(ns, report) => NextVersion(row.(status := Failed, nameservers := ns, report := report))
    case Wrote(ns, report, ok) =>
      NextVersion(row.(status := if ok then AwaitingNSChange else Failed, nameservers := ns, report := report))
    case _ => row
  }

  function Step(s: State, p: Pid, c: Choice): State
    requires p in s.procs
  {
    match s.procs[p]
    // Create: lock, stat, write
    case CreateOpen => Goto(OpenLock(s), p, CreateLock(OpenedInode(s)))
    case CreateLock(ino) => Acquire(s, p, ino, CreateStat(ino))
    case CreateStat(ino) =>
      Goto(s, p, if CreateRow(s.data, s.preview).Ok? then CreateWrite(ino) else Release(ino, Finish))
    case CreateWrite(ino) => Goto(Save(s, p, s.preview), p, Release(ino, Finish))
    // handlers
    case Load(req) => Goto(s, p, Loaded(s, req))
    case Prepare(row) => Goto(s, p, Open(Job(NextVersion(row.(status := Applying)), row, true)))
    case Work(row) =>
      if c.Plain? || c.Answers? then s
      else Goto(s.(entered := s.entered + [p]), p, Open(Job(Applied(row, c), row, false)))
    case Query(row) =>
      if !c.Answers? then s
      else Goto(s, p, Open(Job(NextVersion(row.(status := VerifiedStatus(row, c.net))), row, false)))
    // Update: lock, read and compare, write
    case Open(job) => Goto(OpenLock(s), p, Lock(job, OpenedInode(s)))
    case Lock(job, ino) => Acquire(s, p, ino, Check(job, ino))
    case Check(job, ino) =>
      if UpdateRow(s.data, job.row).Ok? then Goto(s, p, Write(job, ino)) else Goto(s, p, Release(ino, Finish))
    case Write(job, ino) =>
      Goto(Save(s, p, job.row), p, Release(ino, if job.begins then Provide(job.row) else Finish))
    // the sweep reads without the lock
    case SweepRead(before) =>
      if s.data.Some? && ExpiredAt(s.data.value.terms, before) then Goto(s, p, DelOpen(Swept(before)))
      else Goto(s, p, Done)
    // Delete: lock, remove the data file, release, remove the lock file
    case DelOpen(cause) => Goto(OpenLock(s), p, DelLock(cause, OpenedInode(s)))
    case DelLock(cause, ino) => Acquire(s, p, ino, DelData(cause, ino))
    case DelData(cause, ino) => Goto(s.(data := None), p, Release(ino, Unlink))
    case DelLockFile => Goto(s.(lock := None), p, Done)
    // releasing the lock
    case Release(ino, after) =>
      Goto(s.(held := s.held - {ino}), p,
           match after case Finish => Done case Provide(row) => Work(row) case Unlink => DelLockFile)
    case Done => s
  }

  function DropLocks(held: map<Inode, Pid>, p: Pid): map<Inode, Pid> {
    map i | i in held && held[i] != p :: held[i]
  }

  /** An action that is not enabled changes nothing. */
  function Do(s: State, a: Action): State {
    match a
    case Tick => s.(now := s.now + 1)
    case Spawn(p, req) => if p in s.procs then s else Goto(s, p, Load(req))
    case SpawnSweep(p, before) => if p in s.procs || before > s.now then s else Goto(s, p, SweepRead(before))
    case Advance(p, c) => if p in s.procs then Step(s, p, c) else s
    case Stop(p) => if p in s.procs then Goto(s.(held := DropLocks(s.held, p)), p, Done) else s
  }

  function Run(s: State, acts: seq<Action>): State {
    if acts == [] then s else Do(Run(s, acts[..|acts| - 1]), acts[|acts| - 1])
  }

  /** The row a preview stores; its token is random. */
  predicate First(row: Row) {
    row.status == Preview && row.version == 1 && row.nameservers == [] && row.terms.token != ""
  }

  /** The preview handler is about to create the row; the ID is fresh, so nothing else knows it. */
  function Init(row: Row, now: nat): State {
    State(row, None, None, map[], 0, now, map[0 := CreateOpen], [], [], [])
  }
}
