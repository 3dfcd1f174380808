/** One verification round against a set of nameservers. */
module VerifyTarget {
  import opened Text
  import opened Records

  /** An answer record that converts to a record of the library, or one that is skipped. */
  datatype Rr = Kept(rec: Record) | Skipped

  /** What asking one nameserver about one record comes to. A reply without records whose response code
      reports an error, such as NXDOMAIN, is NameError. */
  datatype NsAnswer = Unresolved | Failed | Silent | NameError | Reply(rrs: seq<Rr>)

  /** The network: the answer of a nameserver about a record. */
  type Network = (string, Record) -> NsAnswer

  predicate EqualFold(a: string, b: string) {
    ToLower(a) == ToLower(b)
  }

  predicate RecordsMatch(want: Record, got: Record) {
    EqualFold(want.typ, got.typ) &&
    EqualFold(TrimDot(want.name), TrimDot(got.name)) &&
    (want.content == got.content || EqualFold(want.content, got.content)) &&
    (want.typ == "MX" ==> want.priority == got.priority)
  }

  predicate Verifiable(typ: string) {
    ToUpper(typ) in ["A", "AAAA", "CNAME", "TXT", "MX", "NS", "SRV", "CAA"]
  }

  predicate AllVerifiable(records: seq<Record>) {
    forall r | r in records :: Verifiable(r.typ)
  }

  predicate AnswerMatches(a: NsAnswer, rec: Record) {
    a.Reply? && exists rr | rr in a.rrs :: rr.Kept? && RecordsMatch(rec, rr.rec)
  }

  predicate AnswerNonempty(a: NsAnswer) {
    a.Reply? && a.rrs != []
  }

  /** Some nameserver serves the record. */
  predicate Serves(nsHosts: seq<string>, rec: Record, net: Network) {
    Verifiable(rec.typ) && exists ns | ns in nsHosts :: AnswerMatches(net(ns, rec), rec)
  }

  predicate AnyAnswer(nsHosts: seq<string>, rec: Record, net: Network) {
    !Verifiable(rec.typ) || exists ns | ns in nsHosts :: AnswerNonempty(net(ns, rec))
  }

  /** Asking the nameserver went wrong, as opposed to an answer without records. */
  predicate Trouble(a: NsAnswer) {
    a.Unresolved? || a.Failed?
  }

  predicate AnyTrouble(nsHosts: seq<string>, rec: Record, net: Network) {
    exists ns | ns in nsHosts :: Trouble(net(ns, rec))
  }

  method ScanAnswer(rrs: seq<Rr>, rec: Record, detail: bool) returns (found: bool, noted: bool)
    ensures found <==> AnswerMatches(Reply(rrs), rec)
    ensures rrs == [] ==> noted == detail
  {
    noted := detail;
    for j := 0 to |rrs|
      invariant forall rr | rr in rrs[..j] :: !(rr.Kept? && RecordsMatch(rec, rr.rec))
      invariant j == 0 ==> noted == detail
    {
      assert rrs[..j + 1] == rrs[..j] + [rrs[j]];
      if rrs[j].Kept? {
        if RecordsMatch(rec, rrs[j].rec) {
          return true, true;
        }
        noted := true;
      }
    }
    assert rrs[..|rrs|] == rrs;
    found := false;
  }

  method VerifyRecordAgainstNS(nsHosts: seq<string>, rec: Record, net: Network)
      returns (matched: bool, gotAny: bool, detail: bool)
    ensures matched <==> Serves(nsHosts, rec, net)
    ensures gotAny <==> AnyAnswer(nsHosts, rec, net)
    ensures !gotAny ==> (detail <==> AnyTrouble(nsHosts, rec, net))
  {
    detail := false;
    if !Verifiable(rec.typ) {
      return false, true, true;
    }
    gotAny := false;
    for i := 0 to |nsHosts|
      invariant forall ns | ns in nsHosts[..i] :: !AnswerMatches(net(ns, rec), rec)
      invariant gotAny <==> exists ns | ns in nsHosts[..i] :: AnswerNonempty(net(ns, rec))
      invariant !gotAny ==> (detail <==> exists ns | ns in nsHosts[..i] :: Trouble(net(ns, rec)))
    {
      var resp := net(nsHosts[i], rec);
      assert nsHosts[..i + 1] == nsHosts[..i] + [nsHosts[i]];
      match resp {
        case Unresolved | Failed => detail := true;
        case Silent | NameError =>
        case Reply(rrs) =>
          if |rrs| > 0 {
            gotAny := true;
          }
          var found, noted := ScanAnswer(rrs, rec, detail);
          if found {
            return true, true, true;
          }
          detail := noted;
      }
    }
    assert nsHosts[..|nsHosts|] == nsHosts;
    matched := false;
  }

  datatype Verdict = Matched | Mismatch | NotYetPropagated | LookupError

  datatype Summary = Summary(matched: nat, total: nat, results: seq<Verdict>)

  /** The number of records that some nameserver serves. */
  function CountServed(nsHosts: seq<string>, records: seq<Record>, net: Network): (n: nat)
    ensures n <= |records|
  {
    if records == [] then 0
    else CountServed(nsHosts, records[..|records| - 1], net) +
         if Serves(nsHosts, records[|records| - 1], net) then 1 else 0
  }

  /** The verdict of one round. A nameserver that could not be asked counts as not yet propagated, and
      one that answers with no record as an error. */
  function VerdictOf(nsHosts: seq<string>, rec: Record, net: Network): Verdict {
    if Serves(nsHosts, rec, net) then Matched
    else if AnyAnswer(nsHosts, rec, net) then Mismatch
    else if AnyTrouble(nsHosts, rec, net) then NotYetPropagated
    else LookupError
  }

  lemma CountServedNext(nsHosts: seq<string>, records: seq<Record>, i: nat, net: Network)
    requires i < |records|
    ensures CountServed(nsHosts, records[..i + 1], net) ==
      CountServed(nsHosts, records[..i], net) + if Serves(nsHosts, records[i], net) then 1 else 0
  {
    assert records[..i + 1][..i] == records[..i];
  }

  method VerifyOne(nsHosts: seq<string>, rec: Record, net: Network) returns (status: Verdict)
    ensures status == VerdictOf(nsHosts, rec, net)
    ensures status == Matched <==> Serves(nsHosts, rec, net)
  {
    var matched, gotAny, detail := VerifyRecordAgainstNS(nsHosts, rec, net);
    status :=
      if matched then Matched
      else if gotAny then Mismatch
      else if detail then NotYetPropagated
      else LookupError;
  }

  /** The verdicts of one round, record by record. */
  function Verdicts(nsHosts: seq<string>, records: seq<Record>, net: Network): (v: seq<Verdict>)
    ensures |v| == |records|
  {
    seq(|records|, i requires 0 <= i < |records| => VerdictOf(nsHosts, records[i], net))
  }

  lemma VerdictsNext(nsHosts: seq<string>, records: seq<Record>, i: nat, net: Network, status: Verdict)
    requires i < |records| && status == VerdictOf(nsHosts, records[i], net)
    ensures Verdicts(nsHosts, records, net)[..i + 1] == Verdicts(nsHosts, records, net)[..i] + [status]
  {
  }

  method VerifyAgainstNS(nameservers: seq<string>, records: seq<Record>, net: Network) returns (out: Summary)
    ensures out == Summary(CountServed(nameservers, records, net), |records|, Verdicts(nameservers, records, net))
  {
    var results, matched := [], 0;
    for i := 0 to |records|
      invariant matched == CountServed(nameservers, records[..i], net)
      invariant results == Verdicts(nameservers, records, net)[..i]
    {
      var status := VerifyOne(nameservers, records[i], net);
      CountServedNext(nameservers, records, i, net);
      VerdictsNext(nameservers, records, i, net, status);
      if status == Matched {
        matched := matched + 1;
      }
      results := results + [status];
    }
    assert records[..|records|] == records;
    out := Summary(matched, |records|, results);
  }

  /** An answer that holds no record for the name. */
  predicate Silence(a: NsAnswer) {
    a.Silent? || (a.Reply? && a.rrs == [])
  }

  predicate AnySilence(nsHosts: seq<string>, rec: Record, net: Network) {
    exists ns | ns in nsHosts :: Silence(net(ns, rec))
  }

  /** The verdict as documented: a mismatch when some nameserver returned another value, not yet propagated
      when some returned no answer, an error when all lookups failed, NXDOMAIN included. A type that cannot
      be verified is never looked up, so nothing was returned for it. */
  function DocumentedVerdict(nsHosts: seq<string>, rec: Record, net: Network): Verdict {
    if Serves(nsHosts, rec, net) then Matched
    else if Verifiable(rec.typ) && AnyAnswer(nsHosts, rec, net) then Mismatch
    else if Verifiable(rec.typ) && AnySilence(nsHosts, rec, net) then NotYetPropagated
    else LookupError
  }

  lemma AnswerKinds(a: NsAnswer, rec: Record)
    ensures AnswerMatches(a, rec) ==> AnswerNonempty(a)
  {
  }

  /** The code gives the documented verdict exactly when the type can be verified and some nameserver answered
      with data, or silence and trouble were both met or neither was. With silence and no trouble it says error,
      with trouble and no silence not yet propagated, and a type that cannot be verified it calls a mismatch. */
  lemma DocumentedVerdictIff(nsHosts: seq<string>, rec: Record, net: Network)
    ensures VerdictOf(nsHosts, rec, net) == DocumentedVerdict(nsHosts, rec, net) <==>
      Verifiable(rec.typ) &&
      (AnyAnswer(nsHosts, rec, net) || (AnySilence(nsHosts, rec, net) <==> AnyTrouble(nsHosts, rec, net)))
  {
    if Serves(nsHosts, rec, net) {
      var ns :| ns in nsHosts && AnswerMatches(net(ns, rec), rec);
      AnswerKinds(net(ns, rec), rec);
    }
  }

  lemma ServedIsVerifiable(nsHosts: seq<string>, records: seq<Record>, net: Network)
    requires ServesAll(nsHosts, records, net)
    ensures AllVerifiable(records)
  {
  }

  lemma NoneServes(rec: Record, net: Network)
    ensures !Serves([], rec, net)
  {
  }

  predicate ServesAll(nsHosts: seq<string>, records: seq<Record>, net: Network) {
    forall r | r in records :: Serves(nsHosts, r, net)
  }

  lemma ServesAllSnoc(nsHosts: seq<string>, front: seq<Record>, last: Record, net: Network)
    ensures ServesAll(nsHosts, front + [last], net) <==> ServesAll(nsHosts, front, net) && Serves(nsHosts, last, net)
  {
    assert last in front + [last];
    assert forall r :: r in front + [last] <==> r in front || r == last;
  }

  /** All records match exactly when each is served; without nameservers none is. */
  lemma {:induction false} AllServed(nsHosts: seq<string>, records: seq<Record>, net: Network)
    ensures CountServed(nsHosts, records, net) == |records| <==> ServesAll(nsHosts, records, net)
    ensures nsHosts == [] ==> CountServed(nsHosts, records, net) == 0
  {
    if records != [] {
      var front, last := records[..|records| - 1], records[|records| - 1];
      assert records == front + [last];
      AllServed(nsHosts, front, net);
      NoneServes(last, net);
      ServesAllSnoc(nsHosts, front, last, net);
    }
  }

  // ---------------------------------------------------------------- what counts as serving

  /** An answer record matches up to the case of type, name and content and a final dot; for MX the priority counts. */
  lemma MatchesIff(want: Record, got: Record, w: string, g: string)
    requires (want.name == w + "." || (want.name == w && !Dotted(w))) &&
      (got.name == g + "." || (got.name == g && !Dotted(g)))
    ensures RecordsMatch(want, got) <==>
      && ToLower(want.typ) == ToLower(got.typ) && ToLower(w) == ToLower(g)
      && ToLower(want.content) == ToLower(got.content) && (want.typ == "MX" ==> want.priority == got.priority)
  {
    Undotted(want.name, w);
    Undotted(got.name, g);
  }

  const ASKED := ["A", "AAAA", "CNAME", "TXT", "MX", "NS", "SRV", "CAA"]

  /** Some nameserver's answer holds a matching record, and the type is one that is asked for. */
  ghost predicate Held(nsHosts: seq<string>, rec: Record, net: Network) {
    ToUpper(rec.typ) in ASKED && exists ns | ns in nsHosts :: HeldBy(net(ns, rec), rec)
  }

  ghost predicate HeldBy(a: NsAnswer, rec: Record) {
    a.Reply? && exists rr | rr in a.rrs :: rr.Kept? && RecordsMatch(rec, rr.rec)
  }

  /** Some nameserver answered the question with records. */
  ghost predicate SomeData(nsHosts: seq<string>, rec: Record, net: Network) {
    exists ns | ns in nsHosts :: net(ns, rec).Reply? && net(ns, rec).rrs != []
  }

  lemma ServesIff(nsHosts: seq<string>, rec: Record, net: Network)
    ensures Serves(nsHosts, rec, net) <==> Held(nsHosts, rec, net)
    ensures AnyAnswer(nsHosts, rec, net) <==> ToUpper(rec.typ) !in ASKED || SomeData(nsHosts, rec, net)
    ensures Verifiable(rec.typ) <==> ToUpper(rec.typ) in ASKED
  {
    forall ns | ns in nsHosts ensures AnswerMatches(net(ns, rec), rec) <==> HeldBy(net(ns, rec), rec) {
    }
  }

  /** Trouble is a nameserver that cannot be resolved or asked. */
  lemma VerdictIs(nsHosts: seq<string>, rec: Record, net: Network)
    ensures VerdictOf(nsHosts, rec, net) ==
      if Held(nsHosts, rec, net) then Matched
      else if ToUpper(rec.typ) !in ASKED || SomeData(nsHosts, rec, net) then Mismatch
      else if exists ns | ns in nsHosts :: net(ns, rec).Unresolved? || net(ns, rec).Failed? then NotYetPropagated
      else LookupError
  {
    ServesIff(nsHosts, rec, net);
  }
}
