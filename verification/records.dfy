/** DNS records, their identity, and the name comparisons of the zone-apply engine. */
module Records {
  import opened Text

  /** The Domain Connect metadata of a record; a missing or non-string entry reads as "". */
  datatype Meta = Meta(id: string, providerId: string, serviceId: string, host: string, essential: string)

  datatype Record = Record(
    typ: string,
    name: string,
    content: string,
    ttl: int,
    priority: int,
    weight: int,
    port: int,
    service: string,
    protocol: string,
    dc: Option<Meta>)

  /** The identity of a record: what recordKey prints, as a tuple. */
  datatype Key = Key(
    typ: string,
    name: string,
    content: string,
    ttl: int,
    priority: int,
    weight: int,
    port: int,
    service: string,
    protocol: string)

  function KeyOf(r: Record): Key {
    Key(ToUpper(r.typ), ToLower(r.name), r.content, r.ttl, r.priority, r.weight, r.port, r.service, r.protocol)
  }

  // ---------------------------------------------------------------- the printed key

  function Digits(n: nat): (s: string)
    ensures s != ""
  {
    if n < 10 then [(n + '0' as int) as char] else Digits(n / 10) + [(n % 10 + '0' as int) as char]
  }

  function Decimal(n: int): string {
    if n < 0 then "-" + Digits(-n) else Digits(n)
  }

  function HeadFields(r: Record): seq<string> {
    [ToUpper(r.typ), ToLower(r.name)]
  }

  function TailFields(r: Record): seq<string> {
    [Decimal(r.ttl), Decimal(r.priority), Decimal(r.weight), Decimal(r.port), r.service, r.protocol]
  }

  /** The string that the program uses as a map key: nine fields joined with bars. */
  function RecordKey(r: Record): string {
    Join(HeadFields(r) + ([r.content] + TailFields(r)), "|")
  }

  /** No separator in the fields around the content; the content itself may hold one. */
  predicate Barless(r: Record) {
    '|' !in r.typ && '|' !in r.name && '|' !in r.service && '|' !in r.protocol
  }

  /** Two records have one identity exactly when they agree in nine fields, type and name up to case. */
  lemma SameIdentityIff(r: Record, s: Record)
    ensures KeyOf(r) == KeyOf(s) <==>
      && ToUpper(r.typ) == ToUpper(s.typ) && ToLower(r.name) == ToLower(s.name) && r.content == s.content
      && r.ttl == s.ttl && r.priority == s.priority && r.weight == s.weight && r.port == s.port
      && r.service == s.service && r.protocol == s.protocol
  {
  }

  /** The nine fields of the printed key, in order. */
  lemma RecordKeyPrints(r: Record)
    ensures RecordKey(r) == Join([ToUpper(r.typ), ToLower(r.name), r.content, Decimal(r.ttl), Decimal(r.priority),
      Decimal(r.weight), Decimal(r.port), r.service, r.protocol], "|")
  {
    assert HeadFields(r) + ([r.content] + TailFields(r)) == [ToUpper(r.typ), ToLower(r.name), r.content,
      Decimal(r.ttl), Decimal(r.priority), Decimal(r.weight), Decimal(r.port), r.service, r.protocol];
  }

  lemma {:induction false} DigitsInjective(m: nat, n: nat)
    requires Digits(m) == Digits(n)
    ensures m == n
    decreases m
  {
    assert Digits(m)[|Digits(m)| - 1] == Digits(n)[|Digits(n)| - 1];
    if m >= 10 && n >= 10 {
      assert Digits(m / 10) == Digits(m)[..|Digits(m)| - 1] == Digits(n / 10);
      DigitsInjective(m / 10, n / 10);
    }
  }

  lemma {:induction false} DigitsChars(n: nat)
    ensures Digits(n) != "" && '|' !in Digits(n) && '-' !in Digits(n)
    decreases n
  {
    if n >= 10 {
      DigitsChars(n / 10);
    }
  }

  lemma DecimalBarless(n: int)
    ensures '|' !in Decimal(n)
  {
    DigitsChars(if n < 0 then -n else n);
  }

  lemma DecimalInjective(m: int, n: int)
    requires Decimal(m) == Decimal(n)
    ensures m == n
  {
    DigitsChars(if m < 0 then -m else m);
    DigitsChars(if n < 0 then -n else n);
    assert (m < 0) == (Decimal(m)[0] == '-');
    assert (n < 0) == (Decimal(n)[0] == '-');
    if m < 0 {
      assert Decimal(m)[1..] == Digits(-m) && Decimal(n)[1..] == Digits(-n);
      DigitsInjective(-m, -n);
    } else {
      DigitsInjective(m, n);
    }
  }

  lemma RecordKeyParts(r: Record)
    requires Barless(r)
    ensures Split(RecordKey(r), '|') == HeadFields(r) + (Split(r.content, '|') + TailFields(r))
  {
    var head, tail := HeadFields(r), TailFields(r);
    DecimalBarless(r.ttl);
    DecimalBarless(r.priority);
    DecimalBarless(r.weight);
    DecimalBarless(r.port);
    JoinAppend([r.content], tail, "|");
    JoinAppend(head, [r.content] + tail, "|");
    SplitJoin(head, '|');
    SplitJoin(tail, '|');
    SplitAppend(r.content, '|', Join(tail, "|"));
    SplitAppend(Join(head, "|"), '|', Join([r.content] + tail, "|"));
  }

  /** The printed key identifies a record exactly as the tuple does, whatever the content holds. */
  lemma RecordKeyIdentifies(r: Record, s: Record)
    requires Barless(r) && Barless(s)
    ensures RecordKey(r) == RecordKey(s) <==> KeyOf(r) == KeyOf(s)
  {
    if RecordKey(r) == RecordKey(s) {
      RecordKeyParts(r);
      RecordKeyParts(s);
      SplitFieldsAgree(HeadFields(r), Split(r.content, '|'), TailFields(r),
                       HeadFields(s), Split(s.content, '|'), TailFields(s));
      JoinSplit(r.content, '|');
      JoinSplit(s.content, '|');
      TailFieldsInjective(r, s);
      assert HeadFields(r)[0] == HeadFields(s)[0] && HeadFields(r)[1] == HeadFields(s)[1];
    }
  }

  lemma SplitFieldsAgree(h: seq<string>, c: seq<string>, t: seq<string>, h': seq<string>, c': seq<string>,
      t': seq<string>)
    requires |h| == |h'| && |t| == |t'| && h + (c + t) == h' + (c' + t')
    ensures h == h' && c == c' && t == t'
  {
    var all := h + (c + t);
    assert h == all[..|h|] && h' == all[..|h|];
    assert c + t == all[|h|..] && c' + t' == all[|h|..];
    assert c == (c + t)[..|c|] && c' == (c' + t')[..|c|];
    assert t == (c + t)[|c|..] && t' == (c' + t')[|c|..];
  }

  lemma TailFieldsInjective(r: Record, s: Record)
    requires TailFields(r) == TailFields(s)
    ensures r.ttl == s.ttl && r.priority == s.priority && r.weight == s.weight && r.port == s.port
    ensures r.service == s.service && r.protocol == s.protocol
  {
    var t, u := TailFields(r), TailFields(s);
    assert t[0] == u[0] && t[1] == u[1] && t[2] == u[2] && t[3] == u[3] && t[4] == u[4] && t[5] == u[5];
    DecimalInjective(r.ttl, s.ttl);
    DecimalInjective(r.priority, s.priority);
    DecimalInjective(r.weight, s.weight);
    DecimalInjective(r.port, s.port);
  }

  // ---------------------------------------------------------------- names

  function CanonicalName(s: string): string {
    var low := ToLower(s);
    if low == "@" || low == "" then "@" else low
  }

  /** Zone names are compared without case, and "" and "@" both mean the apex. */
  predicate NameEq(a: string, b: string) {
    CanonicalName(a) == CanonicalName(b)
  }

  /** Names are the same up to case, or both spell the apex. */
  lemma ApexSpellings(a: string, b: string)
    ensures NameEq(a, b) <==> ToLower(a) == ToLower(b) || (a == "" && b == "@") || (a == "@" && b == "")
  {
    LowersToApex(a);
    LowersToApex(b);
  }

  lemma LowersToApex(s: string)
    ensures ToLower(s) == "@" <==> s == "@"
    ensures ToLower(s) == "" <==> s == ""
  {
    if ToLower(s) == "@" {
      assert |s| == 1 && LowerChar(s[0]) == ToLower(s)[0] == '@';
      assert s == [s[0]];
    }
    if s == "@" {
      assert ToLower(s)[0] == '@';
      assert ToLower(s) == "@";
    }
  }

  predicate IsChildOf(child: string, parent: string) {
    var c := ToLower(child);
    var p := ToLower(parent);
    if p == "@" || p == "" then c != "@" && c != "" && c != p
    else HasSuffix(c, "." + p)
  }

  /** The labels of a zone name; the apex has none. */
  function Labels(name: string): seq<string> {
    if CanonicalName(name) == "@" then [] else Split(ToLower(name), '.')
  }

  predicate ProperSuffix(xs: seq<string>, ys: seq<string>) {
    |xs| < |ys| && ys[|ys| - |xs|..] == xs
  }

  lemma DottedSuffixSplits(c: string, p: string)
    requires HasSuffix(c, "." + p)
    ensures ProperSuffix(Split(p, '.'), Split(c, '.'))
  {
    var front := c[..|c| - |p| - 1];
    assert c == front + ("." + p);
    assert front + ("." + p) == front + ['.'] + p;
    SplitAppend(front, '.', p);
  }

  lemma JoinSuffixIsDotted(front: seq<string>, low: seq<string>)
    requires front != [] && low != []
    ensures HasSuffix(Join(front + low, "."), "." + Join(low, "."))
  {
    JoinAppend(front, low, ".");
  }

  lemma SplitSuffixIsDotted(c: string, p: string)
    requires ProperSuffix(Split(p, '.'), Split(c, '.'))
    ensures HasSuffix(c, "." + p)
  {
    JoinSplit(c, '.');
    JoinSplit(p, '.');
    var all, low := Split(c, '.'), Split(p, '.');
    var front := all[..|all| - |low|];
    assert all == front + low;
    JoinSuffixIsDotted(front, low);
  }

  /** The textual test decides exactly "strictly below" on labels, for all strings. */
  lemma IsChildOfByLabels(child: string, parent: string)
    ensures IsChildOf(child, parent) <==> ProperSuffix(Labels(parent), Labels(child))
  {
    var c, p := ToLower(child), ToLower(parent);
    if p != "@" && p != "" {
      if HasSuffix(c, "." + p) {
        DottedSuffixSplits(c, p);
      }
      if ProperSuffix(Labels(parent), Labels(child)) {
        SplitSuffixIsDotted(c, p);
      }
    }
  }

  lemma SuffixOfSuffix(xs: seq<string>, ys: seq<string>, zs: seq<string>)
    requires ProperSuffix(xs, ys) && ProperSuffix(ys, zs)
    ensures ProperSuffix(xs, zs)
  {
    assert zs[|zs| - |xs|..] == zs[|zs| - |ys|..][|ys| - |xs|..];
  }

  lemma ChildOfChild(a: string, b: string, c: string)
    requires IsChildOf(a, b) && IsChildOf(b, c)
    ensures IsChildOf(a, c)
  {
    IsChildOfByLabels(a, b);
    IsChildOfByLabels(b, c);
    IsChildOfByLabels(a, c);
    SuffixOfSuffix(Labels(c), Labels(b), Labels(a));
  }

  lemma SameLabels(a: string, b: string)
    requires NameEq(a, b)
    ensures Labels(a) == Labels(b)
  {
  }

  /** Names that are the same have the same parents and the same children. */
  lemma SameBelow(a: string, b: string, c: string)
    requires NameEq(a, b)
    ensures IsChildOf(a, c) == IsChildOf(b, c) && IsChildOf(c, a) == IsChildOf(c, b)
  {
    SameLabels(a, b);
    IsChildOfByLabels(a, c);
    IsChildOfByLabels(b, c);
    IsChildOfByLabels(c, a);
    IsChildOfByLabels(c, b);
  }

  /** "Strictly below" is a strict order on names, and depends only on the canonical names. */
  lemma IsChildOfStrictOrder(a: string, b: string, c: string)
    ensures !IsChildOf(a, a)
    ensures IsChildOf(a, b) && IsChildOf(b, c) ==> IsChildOf(a, c)
    ensures NameEq(a, b) && IsChildOf(b, c) ==> IsChildOf(a, c)
    ensures NameEq(a, b) && IsChildOf(c, b) ==> IsChildOf(c, a)
  {
    IsChildOfByLabels(a, a);
    if IsChildOf(a, b) && IsChildOf(b, c) {
      ChildOfChild(a, b, c);
    }
    if NameEq(a, b) {
      SameBelow(a, b, c);
    }
  }

  // ---------------------------------------------------------------- kinds of record types

  /** The cases the engine's switches distinguish on an upper-case type string. */
  datatype Kind = KA | KAAAA | KCNAME | KTXT | KMX | KNS | KSRV | KSPFM | KREDIR | KAPEXCNAME | KCustom

  function KindOf(typ: string): Kind {
    if typ == "A" then KA
    else if typ == "AAAA" then KAAAA
    else if typ == "CNAME" then KCNAME
    else if typ == "TXT" then KTXT
    else if typ == "MX" then KMX
    else if typ == "NS" then KNS
    else if typ == "SRV" then KSRV
    else if typ == "SPFM" then KSPFM
    else if typ == "REDIR301" || typ == "REDIR302" then KREDIR
    else if typ == "APEXCNAME" then KAPEXCNAME
    else KCustom
  }

  function NormalizeRecord(r: Record): Record {
    var typ := ToUpper(r.typ);
    var name := if r.name != "@" then ToLower(r.name) else r.name;
    var content := match KindOf(typ)
      case KA | KAAAA | KCNAME | KMX | KNS | KSRV => ToLower(r.content)
      case _ => r.content;
    r.(typ := typ, name := name, content := content, protocol := ToLower(r.protocol))
  }

  const HOST_TYPES := ["A", "AAAA", "CNAME", "MX", "NS", "SRV"]

  /** What normalising changes: case, of the content for the types whose content is a host or an address only. */
  lemma NormalizeChanges(r: Record)
    ensures var n := NormalizeRecord(r);
      && n.typ == ToUpper(r.typ) && n.name == ToLower(r.name) && n.protocol == ToLower(r.protocol)
      && n.content == (if ToUpper(r.typ) in HOST_TYPES then ToLower(r.content) else r.content)
      && n.ttl == r.ttl && n.priority == r.priority && n.weight == r.weight && n.port == r.port
      && n.service == r.service && n.dc == r.dc
  {
  }

  /** What the zone loop relies on: the type is in upper case. */
  predicate Normal(r: Record) {
    ToUpper(r.typ) == r.typ
  }

  /** Normalising is idempotent, and keeps the canonical name. */
  lemma NormalizeTwice(r: Record)
    ensures Normal(NormalizeRecord(r))
    ensures NormalizeRecord(NormalizeRecord(r)) == NormalizeRecord(r)
    ensures NameEq(NormalizeRecord(r).name, r.name)
  {
    ToUpperTwice(r.typ);
    ToLowerTwice(r.name);
    ToLowerTwice(r.content);
    ToLowerTwice(r.protocol);
  }
}
