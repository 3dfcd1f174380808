/** What an SPF record costs, told from the mechanisms it is written with. */
module SpfTexts {
  import opened Text
  import opened SpfCount
  import opened SesTexts
  import SesWalk

  /** The mechanisms and modifiers of section 4.6.4 of RFC 7208 and the common free ones, as they are written. */
  datatype Mechanism =
    | A | Mx | AOf(domain: string) | MxOf(domain: string) | Ptr(domain: string) | Exists(domain: string)
    | Include(domain: string) | Redirect(domain: string)
    | Ip4(net: string) | Ip6(net: string) | All(qualifier: string)

  function Written(m: Mechanism): string {
    match m
    case A => "a"
    case Mx => "mx"
    case AOf(d) => "a:" + d
    case MxOf(d) => "mx:" + d
    case Ptr(d) => "ptr:" + d
    case Exists(d) => "exists:" + d
    case Include(d) => "include:" + d
    case Redirect(d) => "redirect=" + d
    case Ip4(n) => "ip4:" + n
    case Ip6(n) => "ip6:" + n
    case All(q) => q + "all"
  }

  predicate LooksUp(m: Mechanism) {
    !m.Ip4? && !m.Ip6? && !m.All?
  }

  function LookUps(ms: seq<Mechanism>): nat {
    if ms == [] then 0 else (if LooksUp(ms[0]) then 1 else 0) + LookUps(ms[1..])
  }

  /** Tokens for the mechanisms, in any letter case. */
  predicate Spells(toks: seq<string>, ms: seq<Mechanism>) {
    |toks| == |ms| && forall i | 0 <= i < |ms| ::
      toks[i] != "" && NoSpace(toks[i]) && ToLower(toks[i]) == ToLower(Written(ms[i])) &&
      (ms[i].All? ==> ms[i].qualifier in QUALIFIERS)
  }

  const COSTLY_WORDS := ["a", "mx"]
  const COSTLY_PREFIXES := ["a:", "mx:", "ptr:", "exists:", "include:", "redirect="]

  /** Which tokens cost a lookup. */
  predicate Costly(low: string) {
    low in COSTLY_WORDS || exists p | p in COSTLY_PREFIXES :: HasPrefix(low, p)
  }

  lemma CostlyIff(tok: string)
    ensures !CostOf(tok).Free? <==> Costly(ToLower(tok))
  {
    var p := COSTLY_PREFIXES;
    assert p[0] in p && p[1] in p && p[2] in p && p[3] in p && p[4] in p && p[5] in p;
  }

  lemma LowerPrefixed(prefix: string, d: string)
    requires ToLower(prefix) == prefix
    ensures HasPrefix(ToLower(prefix + d), prefix)
  {
    ToLowerAppend(prefix, d);
  }

  lemma CostlyWritten(m: Mechanism)
    requires LooksUp(m)
    ensures Costly(ToLower(Written(m)))
  {
    var p := COSTLY_PREFIXES;
    assert p[0] in p && p[1] in p && p[2] in p && p[3] in p && p[4] in p && p[5] in p;
    match m
    case A => assert ToLower("a") == "a" && COSTLY_WORDS[0] == "a";
    case Mx => assert ToLower("mx") == "mx" && COSTLY_WORDS[1] == "mx";
    case AOf(d) => assert ToLower(p[0]) == p[0]; LowerPrefixed(p[0], d);
    case MxOf(d) => assert ToLower(p[1]) == p[1]; LowerPrefixed(p[1], d);
    case Ptr(d) => assert ToLower(p[2]) == p[2]; LowerPrefixed(p[2], d);
    case Exists(d) => assert ToLower(p[3]) == p[3]; LowerPrefixed(p[3], d);
    case Include(d) => assert ToLower(p[4]) == p[4]; LowerPrefixed(p[4], d);
    case Redirect(d) => assert ToLower(p[5]) == p[5]; LowerPrefixed(p[5], d);
  }

  lemma FreeWritten(m: Mechanism)
    requires !LooksUp(m) && (m.All? ==> m.qualifier in QUALIFIERS)
    ensures !Costly(ToLower(Written(m)))
  {
    if m.All? {
      ToLowerAppend(m.qualifier, "all");
      assert ToLower("all") == "all";
      FreeAll(m.qualifier);
    } else {
      var low := ToLower(Written(m));
      assert low[0] == 'i' && low[1] == 'p' && low[3] == ':';
      forall p | p in COSTLY_PREFIXES ensures !HasPrefix(low, p) {
        assert p[0] != 'i' || p[1] == 'n';
      }
    }
  }

  lemma FreeAll(q: string)
    requires q in QUALIFIERS
    ensures !Costly(ToLower(q) + "all")
  {
    assert ToLower(q) == q;
    var low := q + "all";
    assert |low| <= 4 && low[|low| - 3..] == "all";
    forall p | p in COSTLY_PREFIXES ensures !HasPrefix(low, p) {
      assert p[|p| - 1] == ':' || p[|p| - 1] == '=';
      assert ':' !in low && '=' !in low;
    }
  }

  lemma {:induction false} CountWritten(toks: seq<string>, ms: seq<Mechanism>)
    requires Spells(toks, ms)
    ensures CountTokens(toks) == LookUps(ms)
  {
    if toks != [] {
      assert ToLower(toks[0]) == ToLower(Written(ms[0]));
      CostlyIff(toks[0]);
      if LooksUp(ms[0]) {
        CostlyWritten(ms[0]);
      } else {
        FreeWritten(ms[0]);
      }
      CountWritten(toks[1..], ms[1..]);
    }
  }

  /** The count of a record is the number of its mechanisms that look something up, in whatever case it is written. */
  lemma SurfaceCountIs(toks: seq<string>, ms: seq<Mechanism>)
    requires Spells(toks, ms)
    ensures SurfaceCount(Join(["v=spf1"] + toks, " ")) == LookUps(ms)
  {
    FieldsJoin(["v=spf1"] + toks);
    CountTokensAppend(["v=spf1"], toks);
    VersionIsFree();
    CountWritten(toks, ms);
  }

  lemma VersionIsFree()
    ensures CountTokens(["v=spf1"]) == 0
  {
    CostlyIff("v=spf1");
    assert ToLower("v=spf1") == "v=spf1";
    forall p | p in COSTLY_PREFIXES ensures !HasPrefix("v=spf1", p) {
      assert p[0] != 'v';
    }
    assert ["v=spf1"][1..] == [];
  }

  // ---------------------------------------------------------------- which hosts are opened

  /** The mechanism is recognised in any case, its name is cut off in lower case only. */
  predicate Capital(tok: string, prefix: string) {
    HasPrefix(ToLower(tok), prefix) && !HasPrefix(tok, prefix)
  }

  lemma LowerPrefix(tok: string, prefix: string)
    requires HasPrefix(tok, prefix) && ToLower(prefix) == prefix
    ensures HasPrefix(ToLower(tok), prefix)
  {
    EndsOnly(tok, prefix);
    ToLowerAppend(prefix, TrimPrefix(tok, prefix));
  }

  lemma NotPrefixed(tok: string, prefix: string)
    requires !HasPrefix(ToLower(tok), prefix) && ToLower(prefix) == prefix
    ensures !HasPrefix(tok, prefix)
  {
    if HasPrefix(tok, prefix) {
      LowerPrefix(tok, prefix);
    }
  }

  lemma OpensByInclude(tok: string)
    requires HasPrefix(ToLower(tok), "include:")
    ensures CostOf(tok) == Follow(TrimDot(SesWalk.StripQualifier(TrimPrefix(tok, "include:"))))
  {
    assert ToLower(tok)[0] == 'i' && ToLower(tok)[7] == ':';
  }

  lemma OpensByRedirect(tok: string)
    requires HasPrefix(ToLower(tok), "redirect=")
    ensures CostOf(tok) == Follow(TrimDot(TrimPrefix(tok, "redirect=")))
  {
    assert ToLower(tok)[0] == 'r' && ToLower(tok)[8] == '=';
  }

  lemma OpensNothing(tok: string)
    requires !HasPrefix(ToLower(tok), "include:") && !HasPrefix(ToLower(tok), "redirect=")
    ensures !CostOf(tok).Follow? && SesWalk.Target(tok).None?
  {
    assert ToLower("include:") == "include:" && ToLower("redirect=") == "redirect=";
    NotPrefixed(tok, "include:");
    NotPrefixed(tok, "redirect=");
  }

  lemma InitialOf(tok: string, prefix: string)
    requires prefix != "" && HasPrefix(ToLower(tok), prefix)
    ensures tok != "" && LowerChar(tok[0]) == prefix[0]
  {
    assert ToLower(tok)[0] == prefix[0];
  }

  lemma OpensIncludeIff(tok: string, h: string)
    requires HasPrefix(ToLower(tok), "include:")
    ensures CostOf(tok) == Follow(h) <==> if Capital(tok, "include:") then TrimDot(tok) == h else Points(tok, h)
    ensures !Capital(tok, "redirect=")
  {
    OpensByInclude(tok);
    InitialOf(tok, "include:");
    if HasPrefix(tok, "include:") {
      TargetIff(tok, h);
    } else {
      assert SesWalk.StripQualifier(tok) == tok;
    }
    if HasPrefix(ToLower(tok), "redirect=") {
      InitialOf(tok, "redirect=");
    }
  }

  lemma OpensRedirectIff(tok: string, h: string)
    requires HasPrefix(ToLower(tok), "redirect=")
    ensures CostOf(tok) == Follow(h) <==> if Capital(tok, "redirect=") then TrimDot(tok) == h else Points(tok, h)
    ensures !Capital(tok, "include:")
  {
    OpensByRedirect(tok);
    InitialOf(tok, "redirect=");
    if HasPrefix(tok, "redirect=") {
      assert tok[0] == 'r' && !HasPrefix(tok, "include:");
      TargetIff(tok, h);
    }
    if HasPrefix(ToLower(tok), "include:") {
      InitialOf(tok, "include:");
    }
  }

  /** The host that a token has opened: what an include or redirect points to; the whole token, but for a final dot,
      when its name is written with a capital. */
  lemma OpensIff(tok: string, h: string)
    ensures CostOf(tok) == Follow(h) <==>
      if Capital(tok, "include:") || Capital(tok, "redirect=") then TrimDot(tok) == h else Points(tok, h)
  {
    if HasPrefix(ToLower(tok), "include:") {
      OpensIncludeIff(tok, h);
    } else if HasPrefix(ToLower(tok), "redirect=") {
      OpensRedirectIff(tok, h);
    } else {
      OpensNothing(tok);
      TargetIff(tok, h);
    }
  }

  /** An include in capitals costs a lookup, but its host is never opened. */
  lemma CapitalsAreNotFollowed(host: string)
    requires host != "" && !Dotted(host)
    ensures CostOf("INCLUDE:" + host) == Follow("INCLUDE:" + host)
  {
    var tok := "INCLUDE:" + host;
    ToLowerAppend("INCLUDE:", host);
    assert ToLower("INCLUDE:") == "include:";
    assert tok[0] == 'I' && !HasPrefix(tok, "include:");
    Undotted(tok, tok);
    OpensIff(tok, tok);
  }

  /** Of a host's texts the first that is an SPF record counts. */
  lemma {:induction false} FirstSpfIs(front: seq<string>, txt: string, back: seq<string>)
    requires forall t | t in front :: !HasPrefix(ToLower(TrimSpace(t)), "v=spf1")
    requires HasPrefix(ToLower(TrimSpace(txt)), "v=spf1")
    ensures FirstSpf(front + [txt] + back) == Some(txt)
    ensures FirstSpf(front) == None
  {
    if front == [] {
      assert (front + [txt] + back)[0] == txt;
    } else {
      assert (front + [txt] + back)[1..] == front[1..] + [txt] + back;
      FirstSpfIs(front[1..], txt, back);
    }
  }

  // ---------------------------------------------------------------- failures

  /** A failed count stopped at a lookup that failed; all before it answered. */
  ghost predicate StopsAtFailure(r: Resolver, t: Tally) {
    && (forall i | 0 <= i < |t.log| - 1 :: r(t.log[i].host).Some?)
    && (t.failed <==> t.log != [] && r(t.log[|t.log| - 1].host).None?)
  }

  lemma ThenStops(r: Resolver, a: Tally, b: Tally)
    requires StopsAtFailure(r, a) && !a.failed && StopsAtFailure(r, b)
    ensures StopsAtFailure(r, Then(a, AddOne(b)))
  {
    var log := a.log + b.log;
    forall i | 0 <= i < |log| - 1 ensures r(log[i].host).Some? {
      if i < |a.log| {
        assert log[i] == a.log[i];
      } else {
        assert log[i] == b.log[i - |a.log|];
      }
    }
  }

  /** The count fails exactly when a lookup does. */
  lemma {:induction false} CountFails(r: Resolver, spf: string, depth: nat, seen: set<string>)
    ensures StopsAtFailure(r, CountRecord(r, spf, depth, seen))
    decreases 12 - depth, 1, 0
  {
    if depth <= 10 {
      CountFromFails(r, Fields(spf), depth, seen);
    }
  }

  lemma {:induction false} CountFromFails(r: Resolver, toks: seq<string>, depth: nat, seen: set<string>)
    requires depth <= 10
    ensures StopsAtFailure(r, CountFrom(r, toks, depth, seen))
    decreases 12 - depth, 0, |toks|, 1
  {
    if toks != [] {
      match CostOf(toks[0])
      case Free => CountFromFails(r, toks[1..], depth, seen);
      case Plain => CountFromFails(r, toks[1..], depth, seen);
      case Follow(target) =>
        var sub := RecurseInto(r, target, depth, seen, |toks|);
        RecurseIntoFails(r, target, depth, seen, |toks|);
        if !sub.failed {
          CountFromFails(r, toks[1..], depth, sub.seen);
          ThenStops(r, sub, CountFrom(r, toks[1..], depth, sub.seen));
        }
    }
  }

  lemma {:induction false} RecurseIntoFails(r: Resolver, target: string, depth: nat, seen: set<string>, room: nat)
    requires depth <= 10
    ensures StopsAtFailure(r, RecurseInto(r, target, depth, seen, room))
    decreases 12 - depth, 0, room, 0
  {
    if target != "" && target !in seen && r(target).Some? && FirstSpf(r(target).value).Some? {
      var txt := FirstSpf(r(target).value).value;
      CountFails(r, txt, depth + 1, seen + {target});
      OpenedThenStops(r, target, depth, CountRecord(r, txt, depth + 1, seen + {target}));
    }
  }

  lemma OpenedThenStops(r: Resolver, target: string, depth: nat, sub: Tally)
    requires StopsAtFailure(r, sub) && r(target).Some?
    ensures StopsAtFailure(r, sub.(log := [Opened(target, depth + 1)] + sub.log))
  {
    var log := [Opened(target, depth + 1)] + sub.log;
    forall i | 0 <= i < |log| - 1 ensures r(log[i].host).Some? {
      if i > 0 {
        assert log[i] == sub.log[i - 1];
      }
    }
  }
}
