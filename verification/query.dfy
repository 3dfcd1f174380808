/** Query strings: percent-encoding (section 2.1 of RFC 3986) and form-style parsing. A character stands
    for one byte. */
module Query {
  import opened Text

  predicate Bytes(s: string) {
    forall i | 0 <= i < |s| :: s[i] as int < 256
  }

  // ---------------------------------------------------------------- percent-encoding

  predicate Unreserved(c: char) {
    'a' <= c <= 'z' || 'A' <= c <= 'Z' || '0' <= c <= '9' || c == '-' || c == '_' || c == '.' || c == '~'
  }

  function HexDigit(n: nat): char
    requires n < 16
  {
    if n < 10 then ('0' as int + n) as char else ('A' as int + n - 10) as char
  }

  function HexValue(c: char): Option<nat> {
    if '0' <= c <= '9' then Some(c as int - '0' as int)
    else if 'A' <= c <= 'F' then Some(c as int - 'A' as int + 10)
    else if 'a' <= c <= 'f' then Some(c as int - 'a' as int + 10)
    else None
  }

  function Percent(c: char): string {
    ['%', HexDigit((c as int / 16) % 16), HexDigit(c as int % 16)]
  }

  /** How form-encoding writes a byte: a blank becomes a plus. */
  function FormChar(c: char): string {
    if Unreserved(c) then [c] else if c == ' ' then "+" else Percent(c)
  }

  function QueryEscape(s: string): string {
    if s == "" then "" else FormChar(s[0]) + QueryEscape(s[1..])
  }

  function ReplaceAll(s: string, c: char, with: string): string {
    if s == "" then "" else (if s[0] == c then with else [s[0]]) + ReplaceAll(s[1..], c, with)
  }

  /** The encoding that is signed: blanks as %20. */
  function Encode(s: string): string {
    ReplaceAll(QueryEscape(s), '+', "%20")
  }

  function Prepend(c: char, rest: Option<string>): Option<string> {
    if rest.None? then None else Some([c] + rest.value)
  }

  function QueryUnescape(s: string): Option<string> {
    if s == "" then Some("")
    else if s[0] == '%' then
      if |s| < 3 || HexValue(s[1]).None? || HexValue(s[2]).None? then None
      else Prepend((16 * HexValue(s[1]).value + HexValue(s[2]).value) as char, QueryUnescape(s[3..]))
    else Prepend(if s[0] == '+' then ' ' else s[0], QueryUnescape(s[1..]))
  }

  lemma HexRoundTrip(n: nat)
    requires n < 16
    ensures HexValue(HexDigit(n)) == Some(n) && HexDigit(n) !in "+&=;%"
  {
  }

  lemma UnescapePercent(c: char, rest: string)
    requires c as int < 256
    ensures QueryUnescape(Percent(c) + rest) == Prepend(c, QueryUnescape(rest))
  {
    var n := c as int;
    HexRoundTrip(n / 16 % 16);
    HexRoundTrip(n % 16);
    assert n / 16 % 16 == n / 16 && 16 * (n / 16) + n % 16 == n;
    assert (Percent(c) + rest)[3..] == rest;
  }

  lemma UnescapePlain(c: char, rest: string)
    requires c != '%'
    ensures QueryUnescape([c] + rest) == Prepend(if c == '+' then ' ' else c, QueryUnescape(rest))
  {
    assert ([c] + rest)[1..] == rest;
  }

  lemma UnescapeForm(c: char, rest: string)
    requires c as int < 256
    ensures QueryUnescape(FormChar(c) + rest) == Prepend(c, QueryUnescape(rest))
  {
    if Unreserved(c) {
      UnescapePlain(c, rest);
    } else if c == ' ' {
      UnescapePlain('+', rest);
    } else {
      UnescapePercent(c, rest);
    }
  }

  /** Form-encoding loses nothing. */
  lemma {:induction false} UnescapeEscape(s: string)
    requires Bytes(s)
    ensures QueryUnescape(QueryEscape(s)) == Some(s)
  {
    if s != "" {
      assert s == [s[0]] + s[1..];
      UnescapeEscape(s[1..]);
      UnescapeForm(s[0], QueryEscape(s[1..]));
    }
  }

  lemma {:induction false} ReplaceAllAppend(a: string, b: string, c: char, with: string)
    ensures ReplaceAll(a + b, c, with) == ReplaceAll(a, c, with) + ReplaceAll(b, c, with)
  {
    if a == "" {
      assert a + b == b;
    } else {
      assert (a + b)[1..] == a[1..] + b;
      ReplaceAllAppend(a[1..], b, c, with);
    }
  }

  lemma {:induction false} ReplaceAllAbsent(s: string, c: char, with: string)
    requires c !in s
    ensures ReplaceAll(s, c, with) == s
  {
    if s != "" {
      ReplaceAllAbsent(s[1..], c, with);
    }
  }

  function EncodeChar(c: char): string {
    if Unreserved(c) then [c] else Percent(c)
  }

  lemma EncodeOne(c: char)
    ensures ReplaceAll(FormChar(c), '+', "%20") == EncodeChar(c)
    ensures forall x | x in EncodeChar(c) :: x !in "+&=;"
  {
    HexRoundTrip((c as int / 16) % 16);
    HexRoundTrip(c as int % 16);
    if c == ' ' {
      assert "+"[1..] == "" && Percent(' ') == "%20";
      assert ReplaceAll("+", '+', "%20") == "%20" + ReplaceAll("", '+', "%20");
    } else {
      ReplaceAllAbsent(FormChar(c), '+', "%20");
    }
  }

  lemma EncodeStep(s: string)
    requires s != ""
    ensures Encode(s) == EncodeChar(s[0]) + Encode(s[1..])
  {
    ReplaceAllAppend(FormChar(s[0]), QueryEscape(s[1..]), '+', "%20");
    EncodeOne(s[0]);
  }

  /** The signed encoding loses nothing either, and holds no separator. */
  lemma {:induction false} UnescapeEncode(s: string)
    requires Bytes(s)
    ensures QueryUnescape(Encode(s)) == Some(s)
    ensures forall x | x in Encode(s) :: x !in "+&=;"
  {
    if s != "" {
      assert s == [s[0]] + s[1..];
      UnescapeEncode(s[1..]);
      EncodeStep(s);
      EncodeOne(s[0]);
      if Unreserved(s[0]) {
        UnescapePlain(s[0], Encode(s[1..]));
      } else {
        UnescapePercent(s[0], Encode(s[1..]));
      }
    }
  }

  lemma {:induction false} EscapeSeparators(s: string)
    ensures forall x | x in QueryEscape(s) :: x !in "&=;"
  {
    if s != "" {
      EscapeSeparators(s[1..]);
      HexRoundTrip((s[0] as int / 16) % 16);
      HexRoundTrip(s[0] as int % 16);
    }
  }

  // ---------------------------------------------------------------- names

  /** A name that survives being written without encoding. */
  predicate Safe(name: string) {
    forall i | 0 <= i < |name| :: name[i] !in "+&=;%"
  }

  lemma {:induction false} UnescapeSafe(name: string)
    requires forall i | 0 <= i < |name| :: name[i] !in "+%"
    ensures QueryUnescape(name) == Some(name)
  {
    if name != "" {
      UnescapeSafe(name[1..]);
      UnescapePlain(name[0], name[1..]);
      assert name == [name[0]] + name[1..];
    }
  }

  /** Decoding shortens, and a name with an escape or a plus does not decode to itself. */
  lemma {:induction false} UnescapeShortens(s: string)
    ensures var t := QueryUnescape(s); t.Some? ==> |t.value| <= |s| && (t.value == s ==> '%' !in s && '+' !in s)
    ensures var t := QueryUnescape(s); t.Some? && '%' in s ==> |t.value| < |s|
  {
    if s != "" {
      if s[0] == '%' {
        if |s| >= 3 {
          UnescapeShortens(s[3..]);
        }
      } else {
        UnescapeShortens(s[1..]);
        assert s == [s[0]] + s[1..];
      }
    }
  }

  // ---------------------------------------------------------------- parsing

  type Values = map<string, seq<string>>

  function Get(q: Values, name: string): string {
    if name in q && q[name] != [] then q[name][0] else ""
  }

  function Add(q: Values, name: string, value: string): Values {
    q[name := (if name in q then q[name] else []) + [value]]
  }

  /** The text before the first c, and the text after it. */
  function Cut(s: string, c: char): (string, string) {
    if s == "" then ("", "")
    else if s[0] == c then ("", s[1..])
    else
      var rest := Cut(s[1..], c);
      ([s[0]] + rest.0, rest.1)
  }

  datatype Setting = Setting(name: string, value: string)

  /** What one part of a query sets; None when it is skipped. */
  function ParsePart(part: string): Option<Setting> {
    if ';' in part || part == "" then None
    else
      var cut := Cut(part, '=');
      var name, value := QueryUnescape(cut.0), QueryUnescape(cut.1);
      if name.None? || value.None? then None else Some(Setting(name.value, value.value))
  }

  function AddPart(q: Values, part: string): Values {
    var s := ParsePart(part);
    if s.None? then q else Add(q, s.value.name, s.value.value)
  }

  function ParseParts(parts: seq<string>): Values {
    if parts == [] then map[] else AddPart(ParseParts(parts[..|parts| - 1]), parts[|parts| - 1])
  }

  function ParseQuery(query: string): Values {
    ParseParts(Split(query, '&'))
  }

  lemma {:induction false} CutPair(a: string, c: char, b: string)
    requires c !in a
    ensures Cut(a + [c] + b, c) == (a, b)
  {
    var s := a + [c] + b;
    if a == "" {
      assert s[1..] == b;
    } else {
      assert s[1..] == a[1..] + [c] + b;
      CutPair(a[1..], c, b);
      assert [a[0]] + a[1..] == a;
    }
  }

  function PairOf(name: string, value: string): string {
    name + "=" + value
  }

  /** A part with a safe name and any encoding of the value. */
  lemma ParsePair(name: string, encoded: string, value: string)
    requires Safe(name) && ';' !in encoded && QueryUnescape(encoded) == Some(value)
    ensures ParsePart(PairOf(name, encoded)) == Some(Setting(name, value))
  {
    CutPair(name, '=', encoded);
    UnescapeSafe(name);
    assert PairOf(name, encoded) == name + ['='] + encoded;
  }

  // ---------------------------------------------------------------- which names survive

  /** Some part of the query has the name. */
  lemma {:induction false} NameFromPart(parts: seq<string>, name: string) returns (i: nat)
    requires name in ParseParts(parts)
    ensures i < |parts| && ParsePart(parts[i]).Some? && ParsePart(parts[i]).value.name == name
  {
    var front, last := parts[..|parts| - 1], parts[|parts| - 1];
    if name in ParseParts(front) {
      i := NameFromPart(front, name);
    } else {
      i := |parts| - 1;
    }
  }

  lemma {:induction false} CutShortens(s: string, c: char)
    ensures |Cut(s, c).0| <= |s|
    ensures forall k | 0 <= k < |s| && s[k] == c :: |Cut(s, c).0| <= k
  {
    if s != "" && s[0] != c {
      CutShortens(s[1..], c);
      forall k | 0 <= k < |s| && s[k] == c ensures |Cut(s, c).0| <= k {
        assert s[1..][k - 1] == c;
      }
    }
  }

  /** Splitting at the last separator: the parts before are short, and the rest ends the text. */
  lemma {:induction false} LastSeparator(a: string, c: char, b: string)
    requires c in a && c !in b
    ensures var parts := Split(a + b, c);
      && |parts| > 1
      && (forall i | 0 <= i < |parts| - 1 :: |parts[i]| < |a|)
      && exists k | 0 <= k < |a| :: a[k] == c && parts[|parts| - 1] == a[k + 1..] + b
  {
    var rest, parts := Split(a[1..] + b, c), Split(a + b, c);
    assert (a + b)[1..] == a[1..] + b;
    if c in a[1..] {
      LastSeparator(a[1..], c, b);
      var k :| 0 <= k < |a| - 1 && a[1..][k] == c && rest[|rest| - 1] == a[1..][k + 1..] + b;
      assert a[k + 1] == c && a[k + 2..] == a[1..][k + 1..];
      assert parts[|parts| - 1] == rest[|rest| - 1];
    } else {
      assert a[0] == c;
      SplitWhole(a[1..] + b, c);
      assert parts == [""] + [a[1..] + b];
    }
  }

  lemma NameOfPart(part: string, limit: nat)
    requires exists k | 0 <= k < |part| && k < limit :: part[k] == '='
    ensures ParsePart(part).Some? ==> |ParsePart(part).value.name| < limit
  {
    CutShortens(part, '=');
    UnescapeShortens(Cut(part, '=').0);
  }

  lemma NameOfShort(part: string)
    ensures ParsePart(part).Some? ==> |ParsePart(part).value.name| <= |part|
  {
    CutShortens(part, '=');
    UnescapeShortens(Cut(part, '=').0);
  }

  /** A name with an ampersand comes back as shorter names only. */
  lemma AmpersandLost(name: string, encoded: string)
    requires '&' in name && '&' !in encoded
    ensures name !in ParseQuery(PairOf(name, encoded))
  {
    if name in ParseQuery(PairOf(name, encoded)) {
      var tail := "=" + encoded;
      assert PairOf(name, encoded) == name + tail;
      var parts := Split(name + tail, '&');
      LastSeparator(name, '&', tail);
      var i := NameFromPart(parts, name);
      if i < |parts| - 1 {
        NameOfShort(parts[i]);
      } else {
        var k :| 0 <= k < |name| && name[k] == '&' && parts[i] == name[k + 1..] + tail;
        assert parts[i][|name| - k - 1] == '=';
        NameOfPart(parts[i], |name|);
      }
    }
  }

  lemma UnsafePart(name: string, encoded: string)
    requires !Safe(name) && '&' !in name
    ensures var s := ParsePart(PairOf(name, encoded)); s.Some? ==> s.value.name != name
  {
    var part := PairOf(name, encoded);
    assert part == name + ['='] + encoded;
    if '=' in name {
      var k :| 0 <= k < |name| && name[k] == '=';
      assert part[k] == '=';
      NameOfPart(part, |name|);
    } else {
      CutPair(name, '=', encoded);
      UnescapeShortens(name);
      if ';' in name {
        var k :| 0 <= k < |name| && name[k] == ';';
        assert part[k] == ';';
      }
    }
  }

  /** A name without an ampersand that is not safe does not come back. */
  lemma UnsafeLost(name: string, encoded: string)
    requires !Safe(name) && '&' !in name && '&' !in encoded
    ensures name !in ParseQuery(PairOf(name, encoded))
  {
    var part := PairOf(name, encoded);
    SplitWhole(part, '&');
    UnsafePart(name, encoded);
    if name in ParseParts([part]) {
      var _ := NameFromPart([part], name);
    }
  }

  lemma SingleSetting(part: string, name: string, value: string)
    requires ParsePart(part) == Some(Setting(name, value))
    ensures ParseParts([part]) == map[name := [value]]
  {
    assert [part][..0] == [];
    assert ParseParts([part]) == AddPart(map[], part);
    assert [] + [value] == [value];
  }

  /** Names are written as they are, so exactly the safe ones come back from a query. */
  lemma NameSurvivesIff(name: string, value: string)
    requires Bytes(value)
    ensures ParseQuery(PairOf(name, Encode(value))) == map[name := [value]] <==> Safe(name)
  {
    UnescapeEncode(value);
    var part := PairOf(name, Encode(value));
    if Safe(name) {
      SplitWhole(part, '&');
      ParsePair(name, Encode(value), value);
      SingleSetting(part, name, value);
    } else if '&' in name {
      AmpersandLost(name, Encode(value));
    } else {
      UnsafeLost(name, Encode(value));
    }
  }

  // ---------------------------------------------------------------- the encoding, character by character

  const DIGITS := "0123456789"
  const HEX := "0123456789ABCDEF"

  predicate Plain(c: char) {
    c in CAPITALS || c in SMALL || c in DIGITS || c in "-_.~"
  }

  lemma CapitalsOnly(c: char)
    requires c in CAPITALS
    ensures 'A' <= c <= 'Z'
  {
    var i :| 0 <= i < 26 && CAPITALS[i] == c;
    AlphabetAt(i);
  }

  lemma SmallOnly(c: char)
    requires c in SMALL
    ensures 'a' <= c <= 'z'
  {
    var i :| 0 <= i < 26 && SMALL[i] == c;
    AlphabetAt(i);
  }

  lemma DigitsAre(c: char)
    ensures c in DIGITS <==> '0' <= c <= '9'
  {
    if '0' <= c <= '9' {
      assert DIGITS[c as int - 48] == c;
    }
  }

  lemma MarksAre(c: char)
    ensures c in "-_.~" <==> c == '-' || c == '_' || c == '.' || c == '~'
  {
  }

  lemma PlainIff(c: char)
    ensures Unreserved(c) <==> Plain(c)
  {
    CapitalsComplete(c);
    SmallComplete(c);
    DigitsAre(c);
    MarksAre(c);
    if c in CAPITALS {
      CapitalsOnly(c);
    }
    if c in SMALL {
      SmallOnly(c);
    }
  }

  lemma HexAt(n: nat)
    requires n < 16
    ensures HexDigit(n) == HEX[n]
  {
  }

  /** Letters, digits and four marks stay, a blank becomes a plus, any other byte its two upper-case hex digits. */
  lemma EscapesTo(c: char)
    requires c as int < 256
    ensures FormChar(c) ==
      if Plain(c) then [c] else if c == ' ' then "+" else ['%', HEX[c as int / 16], HEX[c as int % 16]]
  {
    PlainIff(c);
    HexAt(c as int / 16);
    HexAt(c as int % 16);
  }

  /** Of the values of a name the first one set is the one that is read. */
  lemma FirstValueIsRead(q: Values, name: string, value: string)
    ensures Get(Add(q, name, value), name) == if name in q && q[name] != [] then Get(q, name) else value
    ensures forall other | other != name :: Get(Add(q, name, value), other) == Get(q, other)
  {
  }
}
