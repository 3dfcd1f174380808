/** Who can do what to a migration: without its token a request changes nothing. */
module ProtocolAccess {
  import opened Text
  import opened Store
  import opened Protocol
  import opened ProtocolInvariant
  import opened ProtocolTheorems
  import V = VerifyTarget

  /** Where a process can be that never showed the token: it creates, it sweeps what has expired, or it is done. */
  predicate Outside(row: Row, now: nat, pc: Pc) {
    match pc
    case CreateOpen | CreateLock(_) | CreateStat(_) | CreateWrite(_) => true
    case Load(req) => req.token != row.terms.token
    case SweepRead(before) => before <= now
    case DelOpen(cause) => Expires(row, now, cause)
    case DelLock(cause, _) => Expires(row, now, cause)
    case DelData(cause, _) => Expires(row, now, cause)
    case DelLockFile | Done => true
    case Release(_, after) => !after.Provide?
    case _ => false
  }

  predicate Expires(row: Row, now: nat, cause: Cause) {
    cause.Swept? && cause.before <= now && ExpiredAt(row.terms, cause.before)
  }

  ghost predicate AllOutside(s: State) {
    forall p | p in s.procs :: Outside(s.preview, s.now, s.procs[p])
  }

  /** The migration is as the preview made it, or has expired. */
  predicate Untouched(s: State) {
    && s.history <= [s.preview]
    && s.entered == []
    && (s.data.Some? ==> s.data.value == s.preview)
    && (Gone(s) ==> ExpiredAt(s.preview.terms, s.now))
  }

  /** The request of a Spawn does not carry the token. */
  predicate Stranger(a: Action, token: string) {
    a.Spawn? ==> a.req.token != token
  }

  lemma LoadedOutside(s: State, req: Request)
    requires Untouched(s) && req.token != s.preview.terms.token
    ensures Loaded(s, req) == Done
  {
  }

  /** A step moves one process and leaves clock and preview alone. */
  lemma StepMovesOne(s: State, p: Pid, c: Choice)
    requires p in s.procs
    ensures var t := Step(s, p, c);
      t.preview == s.preview && t.now == s.now && p in t.procs && t.procs == s.procs[p := t.procs[p]]
  {
    if s.procs[p].Done? || (s.procs[p].Work? && (c.Plain? || c.Answers?)) || (s.procs[p].Query? && !c.Answers?) {
      assert Step(s, p, c) == s && s.procs == s.procs[p := s.procs[p]];
    } else if s.procs[p].CreateLock? || s.procs[p].Lock? || s.procs[p].DelLock? {
      assert s.procs == s.procs[p := s.procs[p]];
    }
  }

  lemma CreatorStaysOutside(s: State, p: Pid, c: Choice)
    requires p in s.procs && Creates(s.procs[p])
    ensures p in Step(s, p, c).procs && Outside(s.preview, s.now, Step(s, p, c).procs[p])
  {
  }

  lemma SweeperStaysOutside(s: State, p: Pid, c: Choice)
    requires p in s.procs && Outside(s.preview, s.now, s.procs[p]) && Untouched(s)
    requires Deletes(s.procs[p]) || s.procs[p].SweepRead? || s.procs[p].Release? || s.procs[p].Done?
    ensures p in Step(s, p, c).procs && Outside(s.preview, s.now, Step(s, p, c).procs[p])
  {
  }

  lemma StepOutside(s: State, p: Pid, c: Choice)
    requires p in s.procs && Outside(s.preview, s.now, s.procs[p]) && Untouched(s)
    ensures p in Step(s, p, c).procs && Outside(s.preview, s.now, Step(s, p, c).procs[p])
  {
    if s.procs[p].Load? {
      LoadedOutside(s, s.procs[p].req);
    } else if Creates(s.procs[p]) {
      CreatorStaysOutside(s, p, c);
    } else {
      SweeperStaysOutside(s, p, c);
    }
  }

  lemma StepUntouched(s: State, p: Pid, c: Choice)
    requires Inv(s) && p in s.procs && Outside(s.preview, s.now, s.procs[p]) && Untouched(s)
    ensures Untouched(Step(s, p, c))
  {
    assert PcOk(s, p, s.procs[p]);
  }

  lemma DoOutside(s: State, a: Action)
    requires Inv(s) && AllOutside(s) && Untouched(s) && Stranger(a, s.preview.terms.token)
    ensures AllOutside(Do(s, a)) && Untouched(Do(s, a))
  {
    if a.Advance? && a.pid in s.procs {
      StepMovesOne(s, a.pid, a.choice);
      StepOutside(s, a.pid, a.choice);
      StepUntouched(s, a.pid, a.choice);
    }
  }

  lemma {:induction false} RunOutside(row: Row, now: nat, acts: seq<Action>)
    requires First(row) && forall i | 0 <= i < |acts| :: Stranger(acts[i], row.terms.token)
    ensures var s := Run(Init(row, now), acts); AllOutside(s) && Untouched(s) && s.preview == row
  {
    PreviewFixed(Init(row, now), acts);
    if acts != [] {
      var front := acts[..|acts| - 1];
      RunOutside(row, now, front);
      Reachable(row, now, front);
      DoOutside(Run(Init(row, now), front), acts[|acts| - 1]);
    }
  }

  /** Whatever requests come, in whatever interleaving: if none carries the token, no row is written after the preview,
      the provider is not called, and the migration is deleted only when it has expired. */
  lemma StrangersChangeNothing(row: Row, now: nat, acts: seq<Action>)
    requires First(row) && forall i | 0 <= i < |acts| :: acts[i].Spawn? ==> acts[i].req.token != row.terms.token
    ensures var s := Run(Init(row, now), acts);
      && s.history <= [row] && s.entered == []
      && (s.history != [] && s.data.None? ==>
            row.terms.expiresAt.Some? && row.terms.expiresAt.value < s.now)
      && (s.data.Some? ==> s.data.value == row)
  {
    forall i | 0 <= i < |acts| ensures Stranger(acts[i], row.terms.token) {
    }
    RunOutside(row, now, acts);
  }
}
