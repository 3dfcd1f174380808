/** Building a signed apply URL, and reconstructing the signed text on the other side. */
module ApplyUrl {
  import opened Text
  import opened Query

  // ---------------------------------------------------------------- sorting

  /** Bytewise order. */
  predicate Less(a: string, b: string) {
    b != "" && (a == "" || a[0] < b[0] || (a[0] == b[0] && Less(a[1..], b[1..])))
  }

  lemma {:induction false} LessTotal(a: string, b: string)
    ensures Less(a, b) || Less(b, a) || a == b
    ensures !(Less(a, b) && Less(b, a))
  {
    if a != "" && b != "" {
      assert a == [a[0]] + a[1..] && b == [b[0]] + b[1..];
      LessTotal(a[1..], b[1..]);
    }
  }

  lemma {:induction false} LessTransitive(a: string, b: string, c: string)
    requires Less(a, b) && Less(b, c)
    ensures Less(a, c)
  {
    if a != "" {
      if a[0] == b[0] == c[0] {
        LessTransitive(a[1..], b[1..], c[1..]);
      }
    }
  }

  predicate Sorted(s: seq<string>) {
    forall i, j | 0 <= i < j < |s| :: !Less(s[j], s[i])
  }

  /** x goes after the last string that it is not less than. */
  function Insert(s: seq<string>, x: string): seq<string> {
    if s == [] || !Less(x, s[|s| - 1]) then s + [x] else Insert(s[..|s| - 1], x) + [s[|s| - 1]]
  }

  function Sort(s: seq<string>): seq<string> {
    if s == [] then [] else Insert(Sort(s[..|s| - 1]), s[|s| - 1])
  }

  lemma NotBelow(a: string, b: string, c: string)
    requires !Less(b, a) && !Less(c, b)
    ensures !Less(c, a)
  {
    LessTotal(a, b);
    LessTotal(b, c);
    LessTotal(a, c);
    if Less(a, b) && Less(b, c) {
      LessTransitive(a, b, c);
    }
  }

  predicate AtLeastAll(x: string, s: seq<string>) {
    forall y | y in s :: !Less(x, y)
  }

  lemma SortedSnoc(front: seq<string>, last: string)
    requires Sorted(front) && AtLeastAll(last, front)
    ensures Sorted(front + [last])
  {
  }

  lemma SortedFront(s: seq<string>)
    requires s != [] && Sorted(s)
    ensures Sorted(s[..|s| - 1]) && AtLeastAll(s[|s| - 1], s[..|s| - 1])
    ensures multiset(s[..|s| - 1]) == multiset(s) - multiset{s[|s| - 1]}
  {
    assert s == s[..|s| - 1] + [s[|s| - 1]];
  }

  lemma {:induction false} InsertKeepsMembers(s: seq<string>, x: string)
    ensures multiset(Insert(s, x)) == multiset(s) + multiset{x}
    ensures forall y | y in Insert(s, x) :: y in s || y == x
  {
    if s != [] {
      var front, last := s[..|s| - 1], s[|s| - 1];
      assert s == front + [last];
      InsertKeepsMembers(front, x);
    }
  }

  lemma {:induction false} InsertKeepsOrder(s: seq<string>, x: string)
    requires Sorted(s)
    ensures Sorted(Insert(s, x))
  {
    if s != [] {
      var front, last := s[..|s| - 1], s[|s| - 1];
      SortedFront(s);
      LessTotal(last, x);
      if Less(x, last) {
        InsertKeepsOrder(front, x);
        InsertKeepsMembers(front, x);
        SortedSnoc(Insert(front, x), last);
      } else {
        forall y | y in s ensures !Less(x, y) {
          if y in front {
            NotBelow(y, last, x);
          }
        }
        SortedSnoc(s, x);
      }
    }
  }

  lemma {:induction false} SortSorts(s: seq<string>)
    ensures Sorted(Sort(s)) && multiset(Sort(s)) == multiset(s)
  {
    if s != [] {
      var front, last := s[..|s| - 1], s[|s| - 1];
      assert s == front + [last];
      SortSorts(front);
      InsertKeepsOrder(Sort(front), last);
      InsertKeepsMembers(Sort(front), last);
    }
  }

  lemma LastIsGreatest(a: seq<string>, b: seq<string>)
    requires a != [] && b != [] && Sorted(a) && Sorted(b) && multiset(a) == multiset(b)
    ensures a[|a| - 1] == b[|b| - 1]
  {
    var x, y := a[|a| - 1], b[|b| - 1];
    assert x in multiset(b) && y in multiset(a);
    var i :| 0 <= i < |b| && b[i] == x;
    var j :| 0 <= j < |a| && a[j] == y;
    LessTotal(x, y);
  }

  lemma SameLength(a: seq<string>, b: seq<string>)
    requires multiset(a) == multiset(b)
    ensures |a| == |b|
  {
    assert |a| == |multiset(a)| && |b| == |multiset(b)|;
  }

  /** Only one sorted sequence has given members. */
  lemma {:induction false} SortedUnique(a: seq<string>, b: seq<string>)
    requires Sorted(a) && Sorted(b) && multiset(a) == multiset(b)
    ensures a == b
  {
    SameLength(a, b);
    if a != [] {
      LastIsGreatest(a, b);
      SortedFront(a);
      SortedFront(b);
      SortedUnique(a[..|a| - 1], b[..|b| - 1]);
      assert a == a[..|a| - 1] + [a[|a| - 1]] && b == b[..|b| - 1] + [b[|b| - 1]];
    }
  }

  /** The inner loop: the element at i sinks into the sorted part before it. */
  method Sink(a: array<string>, i: nat)
    requires i < a.Length
    modifies a
    ensures a[..i + 1] == Insert(old(a[..i]), old(a[i])) && a[i + 1..] == old(a[i + 1..])
  {
    var j := i;
    ghost var sorted, x, rest := a[..i], a[i], a[i + 1..];
    assert a[i + 1..i + 1] == [] && Insert(sorted, x) == Insert(sorted, x) + [];
    while j > 0 && Less(a[j], a[j - 1])
      invariant 0 <= j <= i && a[j] == x && a[i + 1..] == rest
      invariant Insert(sorted, x) == Insert(a[..j], x) + a[j + 1..i + 1]
    {
      ghost var below, above := a[..j], a[j + 1..i + 1];
      InsertBelow(below, x, above);
      a[j], a[j - 1] := a[j - 1], a[j];
      assert a[..j - 1] == below[..j - 1];
      assert a[j..i + 1] == [below[j - 1]] + above;
      j := j - 1;
    }
    InsertHere(a[..j], x);
    assert a[..i + 1] == (a[..j] + [x]) + a[j + 1..i + 1];
  }

  lemma InsertHere(s: seq<string>, x: string)
    requires s == [] || !Less(x, s[|s| - 1])
    ensures Insert(s, x) == s + [x]
  {
  }

  lemma SortNext(s: seq<string>, i: nat)
    requires i < |s|
    ensures Sort(s[..i + 1]) == Insert(Sort(s[..i]), s[i])
  {
    assert s[..i + 1][..i] == s[..i];
  }

  /** The in-place insertion sort of the verifying server. */
  method SortStrings(a: array<string>)
    modifies a
    ensures a[..] == Sort(old(a[..]))
  {
    ghost var was := a[..];
    for i := 0 to a.Length
      invariant a[..i] == Sort(was[..i]) && a[i..] == was[i..]
    {
      SortNext(was, i);
      assert a[i] == a[i..][0] == was[i];
      assert a[i + 1..] == a[i..][1..] && was[i + 1..] == was[i..][1..];
      Sink(a, i);
    }
    assert a[..a.Length] == a[..] && was[..a.Length] == was;
  }

  lemma InsertBelow(s: seq<string>, x: string, rest: seq<string>)
    requires s != [] && Less(x, s[|s| - 1])
    ensures Insert(s, x) + rest == Insert(s[..|s| - 1], x) + ([s[|s| - 1]] + rest)
  {
  }

  // ---------------------------------------------------------------- the signed text

  /** A list of the names in an order of its own: a map is walked in any order. */
  predicate Enumerates(order: seq<string>, names: set<string>) {
    multiset(order) == multiset(names)
  }

  lemma EnumeratesAll(order: seq<string>, names: set<string>)
    requires Enumerates(order, names)
    ensures forall n :: n in order <==> n in names
    ensures Distinct(order)
  {
    forall n ensures n in order <==> n in names {
      assert n in multiset(order) <==> n in multiset(names);
    }
    forall i, j | 0 <= i < j < |order| ensures order[i] != order[j] {
      if order[i] == order[j] {
        TwiceCounts(order, i, j);
      }
    }
  }

  predicate Distinct(s: seq<string>) {
    forall i, j | 0 <= i < j < |s| :: s[i] != s[j]
  }

  lemma TwiceCounts(s: seq<string>, i: nat, j: nat)
    requires i < j < |s| && s[i] == s[j]
    ensures multiset(s)[s[i]] > 1
  {
    assert s == s[..j] + [s[j]] + s[j + 1..];
    assert s[..j][i] == s[i] && s[i] in multiset(s[..j]);
  }

  /** The sorted names do not depend on the order in which they were listed. */
  lemma SortIgnoresOrder(order: seq<string>, other: seq<string>, names: set<string>)
    requires Enumerates(order, names) && Enumerates(other, names)
    ensures Sort(order) == Sort(other) && Enumerates(Sort(order), names)
  {
    SortSorts(order);
    SortSorts(other);
    SortedUnique(Sort(order), Sort(other));
  }

  predicate Covers(names: seq<string>, params: map<string, string>) {
    forall n | n in names :: n in params
  }

  function Pairs(names: seq<string>, params: map<string, string>): (s: seq<string>)
    requires Covers(names, params)
    ensures |s| == |names|
  {
    seq(|names|, i requires 0 <= i < |names| => PairOf(names[i], Encode(params[names[i]])))
  }

  /** name=value pairs in the given order. */
  function Canonical(names: seq<string>, params: map<string, string>): string
    requires Covers(names, params)
  {
    Join(Pairs(names, params), "&")
  }

  /** What is signed: the pairs in sorted order. */
  function SignedText(params: map<string, string>, order: seq<string>): string
    requires Enumerates(order, params.Keys)
  {
    SortCovers(params, order);
    Canonical(Sort(order), params)
  }

  lemma SortCovers(params: map<string, string>, order: seq<string>)
    requires Enumerates(order, params.Keys)
    ensures Covers(Sort(order), params)
  {
    SortIgnoresOrder(order, order, params.Keys);
    EnumeratesAll(Sort(order), params.Keys);
  }

  // ---------------------------------------------------------------- reading it back

  function Singles(params: map<string, string>): Values {
    map n | n in params :: [params[n]]
  }

  function Restrict(params: map<string, string>, names: seq<string>): map<string, string> {
    map n | n in params && n in names :: params[n]
  }

  predicate Sendable(params: map<string, string>) {
    forall n | n in params :: Safe(n) && Bytes(params[n])
  }

  lemma PairParses(params: map<string, string>, name: string)
    requires Sendable(params) && name in params
    ensures var part := PairOf(name, Encode(params[name]));
      ParsePart(part) == Some(Setting(name, params[name])) && '&' !in part
  {
    UnescapeEncode(params[name]);
    ParsePair(name, Encode(params[name]), params[name]);
  }

  lemma OneMorePart(parts: seq<string>, part: string, name: string, value: string)
    requires ParsePart(part) == Some(Setting(name, value))
    ensures ParseParts(parts + [part]) == Add(ParseParts(parts), name, value)
  {
    assert (parts + [part])[..|parts|] == parts;
  }

  lemma OneMorePair(front: seq<string>, last: string, params: map<string, string>)
    requires Covers(front + [last], params) && Covers(front, params) && last in params
    ensures Pairs(front + [last], params) == Pairs(front, params) + [PairOf(last, Encode(params[last]))]
  {
  }

  lemma {:induction false} PairsParse(names: seq<string>, params: map<string, string>)
    requires Covers(names, params) && Distinct(names) && Sendable(params)
    ensures ParseParts(Pairs(names, params)) == Singles(Restrict(params, names))
  {
    if names != [] {
      var front, last := names[..|names| - 1], names[|names| - 1];
      var part := PairOf(last, Encode(params[last]));
      PairsParse(front, params);
      PairParses(params, last);
      assert names == front + [last];
      OneMorePair(front, last, params);
      OneMorePart(Pairs(front, params), part, last, params[last]);
      AddFresh(params, front, last);
    }
  }

  lemma AddFresh(params: map<string, string>, front: seq<string>, last: string)
    requires last in params && last !in front
    ensures Add(Singles(Restrict(params, front)), last, params[last]) == Singles(Restrict(params, front + [last]))
  {
    assert [] + [params[last]] == [params[last]];
  }

  lemma NoAmpersand(names: seq<string>, params: map<string, string>)
    requires Covers(names, params) && Sendable(params)
    ensures forall i | 0 <= i < |names| :: '&' !in Pairs(names, params)[i]
  {
    forall i | 0 <= i < |names| ensures '&' !in Pairs(names, params)[i] {
      PairParses(params, names[i]);
    }
  }

  /** Parsing the signed text gives every parameter back, once. */
  lemma SignedTextParses(params: map<string, string>, order: seq<string>)
    requires Enumerates(order, params.Keys) && Sendable(params)
    ensures ParseQuery(SignedText(params, order)) == Singles(params)
  {
    var names := Sort(order);
    SortCovers(params, order);
    SortIgnoresOrder(order, order, params.Keys);
    EnumeratesAll(names, params.Keys);
    if names == [] {
      assert ParseParts([""]) == AddPart(ParseParts([""][..0]), "");
    } else {
      NoAmpersand(names, params);
      SplitJoin(Pairs(names, params), '&');
      PairsParse(names, params);
      assert Restrict(params, names) == params;
    }
  }

  /** Different parameters never share a signed text. */
  lemma SignedTextInjective(p: map<string, string>, q: map<string, string>, order: seq<string>, other: seq<string>)
    requires Enumerates(order, p.Keys) && Enumerates(other, q.Keys) && Sendable(p) && Sendable(q)
    requires SignedText(p, order) == SignedText(q, other)
    ensures p == q
  {
    SignedTextParses(p, order);
    SignedTextParses(q, other);
    forall n | n in p ensures n in q && q[n] == p[n] {
      assert n in Singles(p) && Singles(p)[n] == Singles(q)[n];
      assert [p[n]][0] == [q[n]][0];
    }
    forall n | n in q ensures n in p {
      assert n in Singles(q);
    }
  }

  // ---------------------------------------------------------------- building the URL

  datatype ApplyUrlOpts = ApplyUrlOpts(
    urlAsyncUX: string,
    providerId: string,
    serviceId: string,
    domain: string,
    host: string,
    params: map<string, string>,
    keyHost: string,
    redirectUri: string,
    state: string)

  /** Signing with the private key; None when it fails. */
  type Signer = string -> Option<string>

  datatype Built = Url(url: string) | Required(field: string) | SignFailed

  function SetIf(params: map<string, string>, name: string, value: string): map<string, string> {
    if value == "" then params else params[name := value]
  }

  function Implicit(opts: ApplyUrlOpts): map<string, string> {
    var given := SetIf(map["domain" := opts.domain], "host", opts.host);
    SetIf(SetIf(given, "redirect_uri", opts.redirectUri), "state", opts.state)
  }

  /** Everything that is signed; a template variable wins over a field of the same name. */
  function Assembled(opts: ApplyUrlOpts): map<string, string> {
    Implicit(opts) + opts.params
  }

  function FullQuery(signed: string, keyHost: string, sig: string): string {
    signed + "&key=" + QueryEscape(keyHost) + "&sig=" + QueryEscape(sig)
  }

  function ApplyPath(opts: ApplyUrlOpts): string {
    opts.urlAsyncUX + ("/v2/domainTemplates/providers/" + opts.providerId + "/services/" + opts.serviceId + "/apply")
  }

  function UrlFor(opts: ApplyUrlOpts, signed: string, sig: Option<string>): Built {
    if sig.None? then SignFailed else Url(ApplyPath(opts) + "?" + FullQuery(signed, opts.keyHost, sig.value))
  }

  method SortNames(order: seq<string>) returns (names: seq<string>)
    ensures names == Sort(order)
  {
    var a := new string[|order|](i requires 0 <= i < |order| => order[i]);
    assert a[..] == order;
    SortStrings(a);
    names := a[..];
  }

  /** The pairs, written one after the other. */
  method WritePairs(names: seq<string>, params: map<string, string>) returns (b: string)
    requires Covers(names, params)
    ensures b == Canonical(names, params)
  {
    b := "";
    var pairs := Pairs(names, params);
    for i := 0 to |names|
      invariant b == Join(pairs[..i], "&")
    {
      if i > 0 {
        b := b + "&";
      }
      b := b + names[i];
      b := b + "=";
      b := b + Encode(params[names[i]]);
      JoinNext(pairs, i);
      assert pairs[i] == names[i] + "=" + Encode(params[names[i]]);
    }
    assert pairs[..|names|] == pairs;
  }

  lemma JoinNext(parts: seq<string>, i: nat)
    requires i < |parts|
    ensures Join(parts[..i + 1], "&") == Join(parts[..i], "&") + (if i > 0 then "&" else "") + parts[i]
  {
    assert parts[..i + 1] == parts[..i] + [parts[i]];
    if i > 0 {
      JoinAppend(parts[..i], [parts[i]], "&");
    }
  }

  method SortAndSignParams(params: map<string, string>, order: seq<string>, sign: Signer)
      returns (sortedQuery: string, sig: Option<string>)
    requires Enumerates(order, params.Keys)
    ensures sortedQuery == SignedText(params, order) && sig == sign(sortedQuery)
  {
    SortCovers(params, order);
    var names := SortNames(order);
    sortedQuery := WritePairs(names, params);
    sig := sign(sortedQuery);
  }

  method BuildApplyURL(opts: ApplyUrlOpts, key: Option<Signer>, order: seq<string>, names: seq<string>)
      returns (built: Built)
    requires Enumerates(names, opts.params.Keys) && Enumerates(order, Assembled(opts).Keys)
    ensures built.Required? <==>
      opts.urlAsyncUX == "" || opts.providerId == "" || opts.serviceId == "" || opts.domain == "" || key.None?
    ensures built.Required? ==>
      built.field == (
        if opts.urlAsyncUX == "" then "URLAsyncUX"
        else if opts.providerId == "" then "ProviderID"
        else if opts.serviceId == "" then "ServiceID"
        else if opts.domain == "" then "Domain"
        else "PrivateKey")
    ensures !built.Required? ==>
      built == UrlFor(opts, SignedText(Assembled(opts), order), key.value(SignedText(Assembled(opts), order)))
  {
    if opts.urlAsyncUX == "" {
      return Required("URLAsyncUX");
    }
    if opts.providerId == "" {
      return Required("ProviderID");
    }
    if opts.serviceId == "" {
      return Required("ServiceID");
    }
    if opts.domain == "" {
      return Required("Domain");
    }
    if key.None? {
      return Required("PrivateKey");
    }
    var v := SetImplicit(opts);
    v := SetAll(v, opts.params, names);
    var sortedQuery, sig := SortAndSignParams(v, order, key.value);
    built := UrlFor(opts, sortedQuery, sig);
  }

  method SetImplicit(opts: ApplyUrlOpts) returns (v: map<string, string>)
    ensures v == Implicit(opts)
  {
    v := map["domain" := opts.domain];
    if opts.host != "" {
      v := v["host" := opts.host];
    }
    if opts.redirectUri != "" {
      v := v["redirect_uri" := opts.redirectUri];
    }
    if opts.state != "" {
      v := v["state" := opts.state];
    }
  }

  lemma RestrictNext(v: map<string, string>, params: map<string, string>, names: seq<string>, i: nat)
    requires i < |names| && names[i] in params
    ensures (v + Restrict(params, names[..i]))[names[i] := params[names[i]]] == v + Restrict(params, names[..i + 1])
  {
    assert names[..i + 1] == names[..i] + [names[i]];
  }

  lemma RestrictAll(params: map<string, string>, names: seq<string>)
    requires Enumerates(names, params.Keys)
    ensures Restrict(params, names) == params
  {
    EnumeratesAll(names, params.Keys);
  }

  method SetAll(v: map<string, string>, params: map<string, string>, names: seq<string>)
      returns (r: map<string, string>)
    requires Enumerates(names, params.Keys)
    ensures r == v + params
  {
    EnumeratesAll(names, params.Keys);
    RestrictAll(params, names);
    r := v;
    for i := 0 to |names|
      invariant r == v + Restrict(params, names[..i])
    {
      assert names[i] in names;
      RestrictNext(v, params, names, i);
      r := r[names[i] := params[names[i]]];
    }
    assert names[..|names|] == names;
  }

  // ---------------------------------------------------------------- verifying

  /** What a query holds besides the key and the signature. */
  function Remaining(q: Values): Values {
    map n | n in q && n != "key" && n != "sig" && q[n] != [] :: q[n]
  }

  function Firsts(q: Values): map<string, string> {
    map n | n in q :: Get(q, n)
  }

  /** The part of what remains that has one of the names. */
  function RemainingOf(q: Values, names: seq<string>): Values {
    map n | n in Remaining(q) && n in names :: q[n]
  }

  function SetList(q: Values, name: string, vs: seq<string>): Values {
    if vs == [] then q else q[name := vs]
  }

  method AddAll(rest: Values, name: string, vs: seq<string>) returns (r: Values)
    requires name !in rest
    ensures r == SetList(rest, name, vs)
  {
    r := rest;
    for j := 0 to |vs|
      invariant r == SetList(rest, name, vs[..j])
    {
      assert vs[..j + 1] == vs[..j] + [vs[j]];
      assert [] + [vs[j]] == [vs[j]];
      r := Add(r, name, vs[j]);
    }
    assert vs[..|vs|] == vs;
  }

  lemma RemainingNext(q: Values, names: seq<string>, i: nat)
    requires i < |names| && names[i] in q && names[i] !in names[..i]
    ensures names[i] !in RemainingOf(q, names[..i])
    ensures RemainingOf(q, names[..i + 1]) ==
      if names[i] in {"key", "sig"} then RemainingOf(q, names[..i])
      else SetList(RemainingOf(q, names[..i]), names[i], q[names[i]])
  {
    assert names[..i + 1] == names[..i] + [names[i]];
  }

  lemma RemainingAll(q: Values, names: seq<string>)
    requires Enumerates(names, q.Keys)
    ensures RemainingOf(q, names) == Remaining(q)
  {
    EnumeratesAll(names, q.Keys);
  }

  method CopyRest(q: Values, order: seq<string>) returns (rest: Values)
    requires Enumerates(order, q.Keys)
    ensures rest == Remaining(q)
  {
    EnumeratesAll(order, q.Keys);
    RemainingAll(q, order);
    rest := map[];
    for i := 0 to |order|
      invariant rest == RemainingOf(q, order[..i])
    {
      assert order[i] in order;
      RemainingNext(q, order, i);
      if order[i] == "key" || order[i] == "sig" {
        continue;
      }
      rest := AddAll(rest, order[i], q[order[i]]);
    }
    assert order[..|order|] == order;
  }

  method VerifySignature(q: Values, order: seq<string>, names: seq<string>, check: (string, string) -> bool)
      returns (valid: bool)
    requires Enumerates(order, q.Keys) && Enumerates(names, Remaining(q).Keys)
    ensures Firsts(Remaining(q)).Keys == Remaining(q).Keys
    ensures valid <==> Get(q, "sig") != "" && check(SignedText(Firsts(Remaining(q)), names), Get(q, "sig"))
  {
    var sig := Get(q, "sig");
    assert Firsts(Remaining(q)).Keys == Remaining(q).Keys;
    if sig == "" {
      return false;
    }
    var signed := CopyRest(q, order);
    var sorted := SortNames(names);
    SortCovers(Firsts(signed), names);
    var b := WritePairs(sorted, Firsts(signed));
    valid := check(b, sig);
  }

  // ---------------------------------------------------------------- the round trip

  /** The signed text parses beside the key and the signature. */
  lemma FullQueryParses(params: map<string, string>, order: seq<string>, keyHost: string, sig: string)
    requires Enumerates(order, params.Keys) && Sendable(params) && Bytes(keyHost) && Bytes(sig)
    requires "key" !in params && "sig" !in params
    ensures ParseQuery(FullQuery(SignedText(params, order), keyHost, sig)) ==
      Singles(params)["key" := [keyHost]]["sig" := [sig]]
  {
    var signed := SignedText(params, order);
    var key, end := PairOf("key", QueryEscape(keyHost)), PairOf("sig", QueryEscape(sig));
    EscapedParses("key", keyHost);
    EscapedParses("sig", sig);
    SignedTextParses(params, order);
    FullQuerySplits(signed, keyHost, sig);
    TwoMoreParts(Split(signed, '&'), key, "key", keyHost, end, "sig", sig);
    AddTwo(Singles(params), "key", keyHost, "sig", sig);
  }

  lemma TwoMoreParts(parts: seq<string>, a: string, name: string, value: string, b: string, other: string, text: string)
    requires ParsePart(a) == Some(Setting(name, value)) && ParsePart(b) == Some(Setting(other, text))
    ensures ParseParts(parts + [a] + [b]) == Add(Add(ParseParts(parts), name, value), other, text)
  {
    OneMorePart(parts, a, name, value);
    OneMorePart(parts + [a], b, other, text);
  }

  lemma AddTwo(q: Values, name: string, value: string, other: string, text: string)
    requires name !in q && other !in q && name != other
    ensures Add(Add(q, name, value), other, text) == q[name := [value]][other := [text]]
  {
    assert [] + [value] == [value] && [] + [text] == [text];
  }

  lemma EscapedParses(name: string, value: string)
    requires Safe(name) && Bytes(value)
    ensures var part := PairOf(name, QueryEscape(value)); ParsePart(part) == Some(Setting(name, value)) && '&' !in part
  {
    UnescapeEscape(value);
    EscapeSeparators(value);
    ParsePair(name, QueryEscape(value), value);
  }

  lemma FullQuerySplits(signed: string, keyHost: string, sig: string)
    ensures Split(FullQuery(signed, keyHost, sig), '&') ==
      Split(signed, '&') + [PairOf("key", QueryEscape(keyHost))] + [PairOf("sig", QueryEscape(sig))]
  {
    var key, end := PairOf("key", QueryEscape(keyHost)), PairOf("sig", QueryEscape(sig));
    EscapeSeparators(keyHost);
    EscapeSeparators(sig);
    SplitWhole(key, '&');
    SplitWhole(end, '&');
    SplitAppend(key, '&', end);
    SplitAppend(signed, '&', key + ['&'] + end);
    FullQueryForm(signed, keyHost, sig);
  }

  lemma FullQueryForm(signed: string, keyHost: string, sig: string)
    ensures FullQuery(signed, keyHost, sig) ==
      signed + ['&'] + (PairOf("key", QueryEscape(keyHost)) + ['&'] + PairOf("sig", QueryEscape(sig)))
  {
  }

  /** What the server reconstructs from the URL is byte for byte what was signed. */
  lemma ServerSeesSignedText(params: map<string, string>, order: seq<string>, keyHost: string, sig: string,
      names: seq<string>)
    requires Enumerates(order, params.Keys) && Sendable(params) && Bytes(keyHost) && Bytes(sig)
    requires "key" !in params && "sig" !in params && Enumerates(names, params.Keys)
    ensures var q := ParseQuery(FullQuery(SignedText(params, order), keyHost, sig));
      && Get(q, "sig") == sig && Get(q, "key") == keyHost
      && Firsts(Remaining(q)) == params
      && SignedText(Firsts(Remaining(q)), names) == SignedText(params, order)
  {
    FullQueryParses(params, order, keyHost, sig);
    var q := ParseQuery(FullQuery(SignedText(params, order), keyHost, sig));
    ServerGets(params, keyHost, sig, q);
    ServerKeeps(params, keyHost, sig, q);
    SameSignedText(params, order, names);
  }

  lemma ServerGets(params: map<string, string>, keyHost: string, sig: string, q: Values)
    requires q == Singles(params)["key" := [keyHost]]["sig" := [sig]]
    ensures Get(q, "sig") == sig && Get(q, "key") == keyHost
  {
  }

  lemma ServerKeeps(params: map<string, string>, keyHost: string, sig: string, q: Values)
    requires "key" !in params && "sig" !in params
    requires q == Singles(params)["key" := [keyHost]]["sig" := [sig]]
    ensures Firsts(Remaining(q)) == params
  {
    assert Remaining(q) == Singles(params);
    assert Firsts(Singles(params)) == params;
  }

  lemma SameSignedText(params: map<string, string>, order: seq<string>, names: seq<string>)
    requires Enumerates(order, params.Keys) && Enumerates(names, params.Keys)
    ensures SignedText(params, names) == SignedText(params, order)
  {
    SortIgnoresOrder(order, names, params.Keys);
  }

  // ---------------------------------------------------------------- the URL, spelled out

  /** What is signed: the domain, the other fields that are given, and the template variables, which win. */
  lemma AssembledAre(opts: ApplyUrlOpts, name: string)
    ensures name in Assembled(opts) <==>
      name in opts.params || name == "domain" || (name == "host" && opts.host != "") ||
      (name == "redirect_uri" && opts.redirectUri != "") || (name == "state" && opts.state != "")
    ensures name in Assembled(opts) ==>
      Assembled(opts)[name] ==
        if name in opts.params then opts.params[name]
        else if name == "domain" then opts.domain
        else if name == "host" then opts.host
        else if name == "state" then opts.state
        else opts.redirectUri
  {
  }

  /** Where the parts go. */
  lemma UrlIs(opts: ApplyUrlOpts, signed: string, sig: string)
    ensures UrlFor(opts, signed, Some(sig)) == Url(
      opts.urlAsyncUX + "/v2/domainTemplates/providers/" + opts.providerId + "/services/" + opts.serviceId +
      "/apply?" + signed + "&key=" + QueryEscape(opts.keyHost) + "&sig=" + QueryEscape(sig))
    ensures UrlFor(opts, signed, None) == SignFailed
  {
    var path := "/v2/domainTemplates/providers/" + opts.providerId + "/services/" + opts.serviceId;
    assert opts.urlAsyncUX + (path + "/apply") + "?" == opts.urlAsyncUX + path + "/apply?";
    assert opts.urlAsyncUX + path ==
      opts.urlAsyncUX + "/v2/domainTemplates/providers/" + opts.providerId + "/services/" + opts.serviceId;
  }

  /** The first different byte of the two, at i, is less in a. */
  predicate DiffersAt(a: string, b: string, i: nat) {
    i < |a| && i < |b| && a[..i] == b[..i] && a[i] < b[i]
  }

  lemma DiffersLater(a: string, b: string, i: nat)
    requires a != "" && b != "" && a[0] == b[0]
    ensures DiffersAt(a, b, i + 1) <==> DiffersAt(a[1..], b[1..], i)
  {
    if i + 1 <= |a| && i + 1 <= |b| {
      assert a[..i + 1] == [a[0]] + a[1..][..i] && b[..i + 1] == [b[0]] + b[1..][..i];
      assert a[1..][..i] == a[..i + 1][1..] && b[1..][..i] == b[..i + 1][1..];
    }
  }

  lemma PrefixLater(a: string, b: string)
    requires a != "" && b != "" && a[0] == b[0]
    ensures a != b && HasPrefix(b, a) <==> a[1..] != b[1..] && HasPrefix(b[1..], a[1..])
  {
    assert a == [a[0]] + a[1..] && b == [b[0]] + b[1..];
  }

  /** Names are ordered by their first different byte, and a name before its extensions. */
  lemma {:induction false} LessIff(a: string, b: string)
    ensures Less(a, b) <==> (a != b && HasPrefix(b, a)) || exists i: nat :: DiffersAt(a, b, i)
  {
    if a != "" && b != "" {
      if a[0] == b[0] {
        LessIff(a[1..], b[1..]);
        PrefixLater(a, b);
        if i: nat :| DiffersAt(a[1..], b[1..], i) {
          DiffersLater(a, b, i);
        }
        if i: nat :| DiffersAt(a, b, i) {
          assert i > 0;
          DiffersLater(a, b, i - 1);
        }
      } else {
        assert DiffersAt(a, b, 0) <==> a[0] < b[0];
        if i: nat :| DiffersAt(a, b, i) {
          assert i > 0 ==> a[..i][0] == b[..i][0];
        }
      }
    }
  }
}
