/** The string operations of Go's standard library that the modelled code relies on,
    over ASCII: case mapping and white space outside ASCII are not modelled. */
module Text {

  datatype Option<+T> = None | Some(value: T)

  function LowerChar(c: char): char {
    if 'A' <= c <= 'Z' then (c as int + 32) as char else c
  }

  function UpperChar(c: char): char {
    if 'a' <= c <= 'z' then (c as int - 32) as char else c
  }

  function ToLower(s: string): string {
    seq(|s|, i requires 0 <= i < |s| => LowerChar(s[i]))
  }

  function ToUpper(s: string): string {
    seq(|s|, i requires 0 <= i < |s| => UpperChar(s[i]))
  }

  const CAPITALS := "ABCDEFGHIJKLMNOPQRSTUVWXYZ"
  const SMALL := "abcdefghijklmnopqrstuvwxyz"

  lemma CapitalsComplete(c: char)
    ensures 'A' <= c <= 'Z' ==> c in CAPITALS
  {
    if 'A' <= c <= 'Z' {
      assert CAPITALS[c as int - 65] == c;
    }
  }

  lemma SmallComplete(c: char)
    ensures 'a' <= c <= 'z' ==> c in SMALL
  {
    if 'a' <= c <= 'z' {
      assert SMALL[c as int - 97] == c;
    }
  }

  lemma AlphabetAt(j: nat)
    requires j < 26
    ensures CAPITALS[j] as int == 65 + j && SMALL[j] as int == 97 + j
  {
  }

  /** Lower case is the other alphabet, letter by letter, and touches nothing else. */
  lemma LowerByAlphabet(s: string, i: nat, j: nat)
    requires i < |s| && j < 26
    ensures |ToLower(s)| == |s|
    ensures s[i] == CAPITALS[j] ==> ToLower(s)[i] == SMALL[j]
    ensures s[i] !in CAPITALS ==> ToLower(s)[i] == s[i]
  {
    CapitalsComplete(s[i]);
    AlphabetAt(j);
  }

  lemma UpperByAlphabet(s: string, i: nat, j: nat)
    requires i < |s| && j < 26
    ensures |ToUpper(s)| == |s|
    ensures s[i] == SMALL[j] ==> ToUpper(s)[i] == CAPITALS[j]
    ensures s[i] !in SMALL ==> ToUpper(s)[i] == s[i]
  {
    SmallComplete(s[i]);
    AlphabetAt(j);
  }

  lemma ToLowerTwice(s: string)
    ensures ToLower(ToLower(s)) == ToLower(s)
  {
  }

  lemma ToUpperTwice(s: string)
    ensures ToUpper(ToUpper(s)) == ToUpper(s)
  {
  }

  lemma ToLowerAppend(a: string, b: string)
    ensures ToLower(a + b) == ToLower(a) + ToLower(b)
  {
  }

  predicate HasPrefix(s: string, p: string) {
    p <= s
  }

  predicate HasSuffix(s: string, p: string) {
    |p| <= |s| && s[|s| - |p|..] == p
  }

  function TrimPrefix(s: string, p: string): string {
    if HasPrefix(s, p) then s[|p|..] else s
  }

  function TrimSuffix(s: string, p: string): string {
    if HasSuffix(s, p) then s[..|s| - |p|] else s
  }

  /** The tests and cuts at either end undo concatenation. */
  lemma Ends(a: string, b: string)
    ensures HasPrefix(a + b, a) && TrimPrefix(a + b, a) == b
    ensures HasSuffix(a + b, b) && TrimSuffix(a + b, b) == a
  {
    assert (a + b)[..|a|] == a && (a + b)[|a|..] == b;
  }

  lemma EndsOnly(s: string, p: string)
    ensures HasPrefix(s, p) ==> s == p + TrimPrefix(s, p)
    ensures HasSuffix(s, p) ==> s == TrimSuffix(s, p) + p
    ensures !HasPrefix(s, p) ==> TrimPrefix(s, p) == s && forall b :: s != p + b
    ensures !HasSuffix(s, p) ==> TrimSuffix(s, p) == s && forall a :: s != a + p
  {
    if !HasPrefix(s, p) {
      forall b ensures s != p + b {
        Ends(p, b);
      }
    }
    if !HasSuffix(s, p) {
      forall a ensures s != a + p {
        Ends(a, p);
      }
    }
  }

  function TrimDot(s: string): string {
    TrimSuffix(s, ".")
  }

  predicate Dotted(s: string) {
    s != "" && s[|s| - 1] == '.'
  }

  /** One final dot is cut off, no more. */
  lemma Undotted(s: string, h: string)
    ensures TrimDot(s) == h <==> s == h + "." || (s == h && !Dotted(h))
  {
    if Dotted(s) {
      assert s == s[..|s| - 1] + ".";
    }
    Ends(h, ".");
  }

  // ---------------------------------------------------------------- substrings

  predicate MatchAt(s: string, sub: string, i: nat) {
    i + |sub| <= |s| && s[i..i + |sub|] == sub
  }

  predicate Contains(s: string, sub: string) {
    exists i | 0 <= i <= |s| :: MatchAt(s, sub, i)
  }

  /** The first position at or after `from` at which `sub` occurs; -1 when there is none. */
  function IndexFrom(s: string, sub: string, from: nat): (i: int)
    requires from <= |s|
    ensures i == -1 || (from <= i <= |s| && MatchAt(s, sub, i))
    ensures forall j | from <= j <= |s| && (i == -1 || j < i) :: !MatchAt(s, sub, j)
    decreases |s| - from
  {
    if MatchAt(s, sub, from) then from
    else if from == |s| then -1
    else IndexFrom(s, sub, from + 1)
  }

  function Index(s: string, sub: string): int {
    IndexFrom(s, sub, 0)
  }

  lemma ContainsMiddle(a: string, sub: string, b: string)
    ensures Contains(a + sub + b, sub)
  {
    assert MatchAt(a + sub + b, sub, |a|);
  }

  /** Containing a text is having it somewhere in between. */
  lemma ContainsIff(s: string, sub: string)
    ensures Contains(s, sub) <==> exists a, b :: s == a + sub + b
  {
    if Contains(s, sub) {
      var i :| 0 <= i <= |s| && MatchAt(s, sub, i);
      assert s == s[..i] + sub + s[i + |sub|..];
    }
    if a, b :| s == a + sub + b {
      ContainsMiddle(a, sub, b);
    }
  }

  lemma ContainsWider(a: string, s: string, b: string, sub: string)
    requires Contains(s, sub)
    ensures Contains(a + s + b, sub)
  {
    var i :| 0 <= i <= |s| && MatchAt(s, sub, i);
    assert (a + s + b)[|a| + i..|a| + i + |sub|] == s[i..i + |sub|];
    assert MatchAt(a + s + b, sub, |a| + i);
  }

  // ---------------------------------------------------------------- splitting at a separator

  function Split(s: string, c: char): (parts: seq<string>)
    ensures parts != []
  {
    if s == "" then [""]
    else
      var rest := Split(s[1..], c);
      if s[0] == c then [""] + rest else [[s[0]] + rest[0]] + rest[1..]
  }

  function Join(parts: seq<string>, sep: string): string {
    if parts == [] then ""
    else if |parts| == 1 then parts[0]
    else parts[0] + sep + Join(parts[1..], sep)
  }

  lemma {:induction false} SplitAppend(a: string, c: char, b: string)
    ensures Split(a + [c] + b, c) == Split(a, c) + Split(b, c)
  {
    if a == "" {
      assert a + [c] + b == [c] + b;
      assert ([c] + b)[1..] == b;
    } else {
      assert (a + [c] + b)[1..] == a[1..] + [c] + b;
      SplitAppend(a[1..], c, b);
    }
  }

  lemma {:induction false} SplitWhole(a: string, c: char)
    requires c !in a
    ensures Split(a, c) == [a]
  {
    if a != "" {
      SplitWhole(a[1..], c);
      assert [a[0]] + a[1..] == a;
    }
  }

  lemma {:induction false} SplitJoin(words: seq<string>, c: char)
    requires words != [] && forall i | 0 <= i < |words| :: c !in words[i]
    ensures Split(Join(words, [c]), c) == words
  {
    SplitWhole(words[0], c);
    if |words| > 1 {
      SplitAppend(words[0], c, Join(words[1..], [c]));
      SplitJoin(words[1..], c);
    }
  }

  lemma {:induction false} JoinSplit(s: string, c: char)
    ensures Join(Split(s, c), [c]) == s
  {
    if s != "" {
      JoinSplit(s[1..], c);
      var rest := Split(s[1..], c);
      if s[0] == c {
        assert ([""] + rest)[1..] == rest;
      } else {
        assert ([[s[0]] + rest[0]] + rest[1..])[1..] == rest[1..];
      }
    }
  }

  lemma {:induction false} JoinAppend(xs: seq<string>, ys: seq<string>, sep: string)
    requires xs != [] && ys != []
    ensures Join(xs + ys, sep) == Join(xs, sep) + sep + Join(ys, sep)
  {
    if |xs| == 1 {
      assert (xs + ys)[1..] == ys;
    } else {
      assert (xs + ys)[1..] == xs[1..] + ys;
      JoinAppend(xs[1..], ys, sep);
    }
  }

  // ---------------------------------------------------------------- white space

  predicate IsSpace(c: char) {
    c == ' ' || c == '\t' || c == '\n' || c == '\r' || c as int == 11 || c as int == 12
  }

  predicate NoSpace(s: string) {
    forall i | 0 <= i < |s| :: !IsSpace(s[i])
  }

  function TrimLeft(s: string): (t: string)
    ensures |t| <= |s| && t == s[|s| - |t|..]
    ensures t == "" || !IsSpace(t[0])
  {
    if s != "" && IsSpace(s[0]) then TrimLeft(s[1..]) else s
  }

  function TrimRight(s: string): (t: string)
    ensures t <= s
    ensures t == "" || !IsSpace(t[|t| - 1])
  {
    if s != "" && IsSpace(s[|s| - 1]) then TrimRight(s[..|s| - 1]) else s
  }

  function TrimSpace(s: string): (t: string)
    ensures |t| <= |s|
    ensures t == "" || (!IsSpace(t[0]) && !IsSpace(t[|t| - 1]))
  {
    TrimRight(TrimLeft(s))
  }

  lemma TrimSpaceFixed(s: string)
    requires s == "" || (!IsSpace(s[0]) && !IsSpace(s[|s| - 1]))
    ensures TrimSpace(s) == s
  {
  }

  const BLANKS := " \t\n\r\U{0B}\U{0C}"

  predicate Blank(s: string) {
    forall i | 0 <= i < |s| :: s[i] in BLANKS
  }

  lemma BlankBoth(a: string, b: string)
    requires Blank(a) && Blank(b)
    ensures Blank(a + b)
  {
  }

  lemma BlankOne(c: char)
    requires IsSpace(c)
    ensures Blank([c])
  {
    SpaceIsBlank(c);
  }

  /** The length of what is trimmed on the left. */
  function LeftCut(s: string): nat {
    |s| - |TrimLeft(s)|
  }

  lemma {:induction false} LeftIsBlank(s: string)
    ensures Blank(s[..LeftCut(s)])
  {
    if s != "" && IsSpace(s[0]) {
      LeftIsBlank(s[1..]);
      BlankOne(s[0]);
      BlankBoth([s[0]], s[1..][..LeftCut(s[1..])]);
      assert s[..LeftCut(s)] == [s[0]] + s[1..][..LeftCut(s[1..])];
    }
  }

  lemma {:induction false} RightIsBlank(s: string)
    ensures Blank(s[|TrimRight(s)|..])
  {
    if s != "" && IsSpace(s[|s| - 1]) {
      var front := s[..|s| - 1];
      RightIsBlank(front);
      BlankOne(s[|s| - 1]);
      BlankBoth(front[|TrimRight(front)|..], [s[|s| - 1]]);
      assert s[|TrimRight(s)|..] == front[|TrimRight(front)|..] + [s[|s| - 1]];
    }
  }

  lemma SpaceIsBlank(c: char)
    ensures IsSpace(c) <==> c in BLANKS
  {
    assert BLANKS[0] == ' ' && BLANKS[1] == '\t' && BLANKS[2] == '\n' && BLANKS[3] == '\r';
    assert BLANKS[4] as int == 11 && BLANKS[5] as int == 12;
  }

  lemma TrimmedEnds(s: string)
    ensures var t := TrimSpace(s); t == "" || (t[0] !in BLANKS && t[|t| - 1] !in BLANKS)
  {
    var t := TrimSpace(s);
    if t != "" {
      SpaceIsBlank(t[0]);
      SpaceIsBlank(t[|t| - 1]);
    }
  }

  /** Trimming takes off blanks at both ends, and leaves none there. */
  lemma TrimSpaceMeans(s: string) returns (i: nat, j: nat)
    ensures i <= j <= |s| && TrimSpace(s) == s[i..j] && Blank(s[..i]) && Blank(s[j..])
  {
    var left := TrimLeft(s);
    var n := |TrimRight(left)|;
    i, j := LeftCut(s), LeftCut(s) + n;
    LeftIsBlank(s);
    RightIsBlank(left);
    SliceTwice(s, i, n);
  }

  lemma SliceTwice(s: string, i: nat, n: nat)
    requires i + n <= |s|
    ensures s[i..][..n] == s[i..i + n] && s[i..][n..] == s[i + n..]
  {
  }

  function Word(w: string): seq<string> {
    if w == "" then [] else [w]
  }

  /** The tokens of `w + s`, where `w` is the part of a token read so far. */
  function FieldsFrom(w: string, s: string): seq<string>
    decreases |s|
  {
    if s == "" then Word(w)
    else if IsSpace(s[0]) then Word(w) + FieldsFrom("", s[1..])
    else FieldsFrom(w + [s[0]], s[1..])
  }

  function Fields(s: string): seq<string> {
    FieldsFrom("", s)
  }

  lemma {:induction false} FieldsFromAppend(w: string, a: string, c: char, b: string)
    requires IsSpace(c)
    ensures FieldsFrom(w, a + [c] + b) == FieldsFrom(w, a) + Fields(b)
    decreases |a|
  {
    if a == "" {
      assert a + [c] + b == [c] + b;
      assert ([c] + b)[1..] == b;
    } else {
      assert (a + [c] + b)[1..] == a[1..] + [c] + b;
      FieldsFromAppend(if IsSpace(a[0]) then "" else w + [a[0]], a[1..], c, b);
    }
  }

  /** A blank separates tokens: tokenising distributes over it. */
  lemma FieldsAppend(a: string, c: char, b: string)
    requires IsSpace(c)
    ensures Fields(a + [c] + b) == Fields(a) + Fields(b)
  {
    FieldsFromAppend("", a, c, b);
  }

  lemma {:induction false} FieldsFromWord(w: string, s: string)
    requires NoSpace(s)
    ensures FieldsFrom(w, s) == Word(w + s)
    decreases |s|
  {
    if s == "" {
      assert w + s == w;
    } else {
      assert w + s == (w + [s[0]]) + s[1..];
      FieldsFromWord(w + [s[0]], s[1..]);
    }
  }

  lemma FieldsWord(s: string)
    requires NoSpace(s)
    ensures Fields(s) == Word(s)
  {
    FieldsFromWord("", s);
    assert "" + s == s;
  }

  lemma {:induction false} FieldsJoin(words: seq<string>)
    requires forall i | 0 <= i < |words| :: words[i] != "" && NoSpace(words[i])
    ensures Fields(Join(words, " ")) == words
  {
    if |words| == 1 {
      FieldsWord(words[0]);
    } else if |words| > 1 {
      FieldsAppend(words[0], ' ', Join(words[1..], " "));
      FieldsWord(words[0]);
      FieldsJoin(words[1..]);
    }
  }
}
