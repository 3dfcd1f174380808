/** For which includes an insertion cannot make up again what it tears. */
module MergeSeams {
  import opened Text
  import opened MergeSpf
  import opened MergeTheorems

  const SEAM := " include:"

  /** Holds no include token inside, and does not end in a beginning of one. */
  predicate Flat(inc: string) {
    !Contains(inc, "include:") && forall m | 1 <= m <= 8 :: !HasSuffix(inc, SEAM[..m])
  }

  // ---------------------------------------------------------------- the inserted block

  function Blocks(adds: seq<string>): string {
    if adds == [] then "" else " " + adds[0] + Blocks(adds[1..])
  }

  lemma {:induction false} BlocksJoin(adds: seq<string>)
    requires adds != []
    ensures " " + Join(adds, " ") == Blocks(adds)
  {
    if |adds| == 1 {
      assert Blocks(adds[1..]) == "";
    } else {
      BlocksJoin(adds[1..]);
      assert " " + (adds[0] + " " + Join(adds[1..], " ")) == " " + adds[0] + (" " + Join(adds[1..], " "));
    }
  }

  predicate PlainToken(tok: string) {
    HasPrefix(tok, "include:") && NoSpace(tok) && !Contains(tok[8..], "include:")
  }

  predicate PlainTokens(adds: seq<string>) {
    forall j | 0 <= j < |adds| :: PlainToken(adds[j])
  }

  /** The word at x. */
  predicate WordAt(s: string, x: nat, word: string) {
    MatchAt(s, word, x) && (x + |word| == |s| || s[x + |word|] == ' ')
  }

  lemma IncludeOnceInToken(tok: string, rest: string, o: nat)
    requires PlainToken(tok) && (rest == "" || rest[0] == ' ') && o < |tok| && MatchAt(tok + rest, "include:", o)
    ensures o == 0
  {
    var s := tok + rest;
    if o + 8 > |tok| {
      CharOfMatch(s, "include:", o, |tok|);
      assert false;
    } else if 8 <= o {
      assert s[o..o + 8] == tok[8..][o - 8..o];
      assert MatchAt(tok[8..], "include:", o - 8);
      assert false;
    } else if 0 < o {
      assert s[o] == tok[..8][o];
      CharOfMatch(s, "include:", o, o);
      assert false;
    }
  }

  lemma MatchInTail(a: string, s: string, sub: string, x: nat)
    requires |a| <= x && MatchAt(a + s, sub, x)
    ensures MatchAt(s, sub, x - |a|)
  {
    assert a + s + "" == a + s;
    MatchShifted(a, s, "", sub, x);
  }

  lemma WordInTail(a: string, s: string, word: string, x: nat)
    requires WordAt(s, x, word)
    ensures WordAt(a + s, |a| + x, word)
  {
    assert a + s + "" == a + s;
    MatchShifted(a, s, "", word, |a| + x);
  }

  lemma BlankStart(adds: seq<string>, tail: string)
    requires tail == "" || tail[0] == ' '
    ensures var s := Blocks(adds) + tail; s == "" || s[0] == ' '
  {
  }

  /** Behind the first token of the block the search goes on. */
  lemma BehindToken(all: string, tok: string, rest: string, x: nat)
    requires all == " " + (tok + rest) && |tok| < x && MatchAt(all, "include:", x)
    ensures MatchAt(rest, "include:", x - 1 - |tok|)
  {
    MatchInTail(" ", tok + rest, "include:", x);
    MatchInTail(tok, rest, "include:", x - 1);
  }

  lemma WordBehind(all: string, tok: string, rest: string, x: nat, word: string)
    requires all == " " + (tok + rest) && |tok| < x && WordAt(rest, x - 1 - |tok|, word)
    ensures WordAt(all, x, word)
  {
    WordInTail(tok, rest, word, x - 1 - |tok|);
    WordInTail(" ", tok + rest, word, x - 1);
  }

  lemma FirstToken(all: string, tok: string, rest: string, x: nat)
    requires all == " " + (tok + rest) && x <= |tok| && MatchAt(all, "include:", x)
    requires PlainToken(tok) && (rest == "" || rest[0] == ' ')
    ensures WordAt(all, x, tok)
  {
    if x == 0 {
      CharOfMatch(all, "include:", 0, 0);
      assert false;
    } else {
      MatchInTail(" ", tok + rest, "include:", x);
      IncludeOnceInToken(tok, rest, x - 1);
      assert WordAt(tok + rest, 0, tok);
      WordInTail(" ", tok + rest, tok, 0);
    }
  }

  /** Wherever an include begins in the block, one of the added tokens stands. */
  lemma {:induction false} TokenAt(adds: seq<string>, block: string, tail: string, x: nat) returns (j: nat)
    requires PlainTokens(adds) && (tail == "" || tail[0] == ' ') && block == Blocks(adds)
    requires x < |block| && MatchAt(block + tail, "include:", x)
    ensures j < |adds| && WordAt(block + tail, x, adds[j])
    decreases |adds|
  {
    var tok, more := adds[0], Blocks(adds[1..]);
    BlankStart(adds[1..], tail);
    assert block + tail == " " + (tok + (more + tail));
    if x <= |tok| {
      FirstToken(block + tail, tok, more + tail, x);
      j := 0;
    } else {
      BehindToken(block + tail, tok, more + tail, x);
      var k := TokenAt(adds[1..], more, tail, x - 1 - |tok|);
      WordBehind(block + tail, tok, more + tail, x, adds[1..][k]);
      j := k + 1;
    }
  }

  // ---------------------------------------------------------------- nothing torn is made up

  /** From k on the token reads like the beginning of a block, as far as both go. */
  predicate ReadsSeam(tok: string, k: nat) {
    forall m | 0 <= m < 9 && k + m < |tok| :: tok[k + m] == SEAM[m]
  }

  lemma SeamInside(inc: string, o: nat)
    requires o + 9 <= |inc| && ReadsSeam(inc, o)
    ensures Contains(inc, "include:")
  {
    var part := inc[o + 1..o + 9];
    forall m | 0 <= m < 8 ensures part[m] == "include:"[m] {
      assert part[m] == inc[o + (m + 1)] == SEAM[m + 1];
    }
    assert part == "include:";
    assert MatchAt(inc, "include:", o + 1);
  }

  lemma SeamAtEnd(inc: string, m: nat)
    requires 1 <= m <= 8 && m <= |inc| && ReadsSeam(inc, |inc| - m)
    ensures HasSuffix(inc, SEAM[..m])
  {
    assert inc[|inc| - m..] == SEAM[..m];
  }

  lemma SeamShifted(head: string, inc: string, k: nat)
    requires |head| <= k && ReadsSeam(head + inc, k)
    ensures ReadsSeam(inc, k - |head|)
  {
    var tok, o := head + inc, k - |head|;
    forall m | 0 <= m < 9 && o + m < |inc| ensures inc[o + m] == SEAM[m] {
      assert tok[k + m] == inc[o + m];
    }
  }

  lemma ReadsIntoBlock(pre: string, block: string, tail: string, tok: string, i: nat)
    requires HasPrefix(block, SEAM) && MatchAt(pre + block + tail, tok, i) && i <= |pre|
    ensures ReadsSeam(tok, |pre| - i)
  {
    var all, k := pre + block + tail, |pre| - i;
    forall m | 0 <= m < 9 && k + m < |tok| ensures tok[k + m] == SEAM[m] {
      CharOfMatch(all, tok, i, i + k + m);
      assert all[|pre| + m] == block[m] == block[..9][m];
    }
  }

  lemma NoBlankInHead(inc: string, k: nat)
    requires k < |IncludeToken(inc)| && IncludeToken(inc)[k] == ' '
    ensures 8 <= k
  {
  }

  /** An occurrence that begins in front of the block. */
  lemma FrontNotFlat(pre: string, block: string, tail: string, inc: string, i: nat)
    requires HasPrefix(block, SEAM) && MatchAt(pre + block + tail, IncludeToken(inc), i)
    requires i < |pre| < i + |IncludeToken(inc)|
    ensures !Flat(inc)
  {
    var head, k := "include:", |pre| - i;
    ReadsIntoBlock(pre, block, tail, head + inc, i);
    assert (head + inc)[k + 0] == SEAM[0];
    NoBlankInHead(inc, k);
    SeamShifted(head, inc, k);
    if k + 1 <= |inc| {
      SeamInside(inc, k - 8);
    } else {
      SeamAtEnd(inc, |inc| + 8 - k);
    }
  }

  /** A word without blanks at the place of a text with one is the beginning of the text. */
  lemma WordBegins(all: string, x: nat, tok: string, word: string)
    requires MatchAt(all, tok, x) && !NoSpace(tok) && MatchAt(all, word, x) && NoSpace(word)
    ensures |word| <= |tok| && tok == word + tok[|word|..]
  {
    var b :| 0 <= b < |tok| && IsSpace(tok[b]);
    CharOfMatch(all, tok, x, x + b);
    if b < |word| {
      CharOfMatch(all, word, x, x + b);
      assert false;
    }
    assert all[x..x + |word|] == all[x..x + |tok|][..|word|];
  }

  lemma MatchBegins(all: string, x: nat, tok: string, start: string)
    requires MatchAt(all, tok, x) && HasPrefix(tok, start)
    ensures MatchAt(all, start, x)
  {
    assert all[x..x + |start|] == all[x..x + |tok|][..|start|];
  }

  /** An occurrence that begins in the block starts with an added token. */
  lemma BlockNotNew(record: string, adds: seq<string>, block: string, tail: string, tok: string, x: nat)
    requires PlainTokens(adds) && (tail == "" || tail[0] == ' ') && block == Blocks(adds) && x < |block|
    requires MatchAt(block + tail, tok, x) && !NoSpace(tok) && HasPrefix(tok, "include:")
    requires Contains(record, tok)
    ensures exists j | 0 <= j < |adds| :: Contains(record, adds[j])
  {
    MatchBegins(block + tail, x, tok, "include:");
    var j := TokenAt(adds, block, tail, x);
    WordBegins(block + tail, x, tok, adds[j]);
    HeldPrefix(record, adds[j], tok[|adds[j]|..], tok);
  }

  lemma HeldPrefix(record: string, word: string, rest: string, tok: string)
    requires tok == word + rest && Contains(record, tok)
    ensures Contains(record, word)
  {
    var i :| 0 <= i <= |record| && MatchAt(record, tok, i);
    assert record[i..i + |word|] == record[i..i + |tok|][..|word|] == word;
    assert MatchAt(record, word, i);
  }

  lemma {:induction false} AdditionsAreNew(record: string, includes: seq<string>)
    requires forall inc | inc in includes && !Contains(record, IncludeToken(inc)) ::
      NoSpace(inc) && !Contains(inc, "include:")
    ensures PlainTokens(Additions(record, includes))
    ensures forall tok | tok in Additions(record, includes) :: !Contains(record, tok)
  {
    if includes != [] {
      AdditionsAreNew(record, includes[1..]);
      var tok := IncludeToken(includes[0]);
      if !Contains(record, tok) {
        IncludeTokenNoSpace(includes[0]);
        assert tok[8..] == includes[0] && tok[..8] == "include:";
        assert PlainToken(tok);
      }
    }
  }

  lemma BlockStart(adds: seq<string>)
    requires adds != [] && PlainTokens(adds)
    ensures HasPrefix(Blocks(adds), SEAM)
  {
    var rest := Blocks(adds[1..]);
    assert Blocks(adds)[..9] == " " + adds[0][..8];
  }

  lemma TornNotAt(record: string, adds: seq<string>, pre: string, block: string, tail: string, inc: string, i: nat)
    requires PlainTokens(adds) && adds != [] && block == Blocks(adds) && (tail == "" || tail[0] == ' ')
    requires (forall a | a in adds :: !Contains(record, a)) && Flat(inc)
    requires Contains(record, IncludeToken(inc)) && !NoSpace(IncludeToken(inc))
    requires i < |pre| + |block| && |pre| < i + |IncludeToken(inc)|
    ensures !MatchAt(pre + block + tail, IncludeToken(inc), i)
  {
    var tok := IncludeToken(inc);
    if MatchAt(pre + block + tail, tok, i) {
      BlockStart(adds);
      if i < |pre| {
        FrontNotFlat(pre, block, tail, inc, i);
      } else {
        assert pre + block + tail == pre + (block + tail);
        MatchInTail(pre, block + tail, tok, i);
        assert tok[..8] == "include:";
        BlockNotNew(record, adds, block, tail, tok, i - |pre|);
      }
    }
  }

  lemma TornNotRecreated(record: string, includes: seq<string>, inc: string)
    requires forall a | a in includes && !Contains(record, IncludeToken(a)) :: NoSpace(a) && !Contains(a, "include:")
    requires Additions(record, includes) != [] && Flat(inc) && Contains(record, IncludeToken(inc))
    requires !Whole(CutOf(record), IncludeToken(inc))
    ensures !Recreated(CutOf(record), Block(record, includes), IncludeToken(inc))
  {
    var c, adds, tok := CutOf(record), Additions(record, includes), IncludeToken(inc);
    var block, tail := Block(record, includes), c.post + c.extra;
    AdditionsAreNew(record, includes);
    BlocksJoin(adds);
    InsertAtCut(record, []);
    if NoSpace(tok) {
      UnbrokenIsWhole(record, tok);
    }
    forall i | 0 <= i < |c.pre| + |block| && |c.pre| < i + |tok| ensures !MatchAt(c.pre + block + tail, tok, i) {
      TornNotAt(record, adds, c.pre, block, tail, inc, i);
    }
  }

  /** For includes that hold no include token inside or at their end, and of which only those already in the
      record may have blanks, merging again changes nothing exactly when none of the held ones lies across
      the place of the insertion. */
  lemma MergeIdempotentIffWhole(current: string, includes: seq<string>) returns (value: string)
    requires forall inc | inc in includes ::
      Flat(inc) && (Contains(TrimSpace(current), IncludeToken(inc)) || NoSpace(inc))
    ensures value == Merged(current, includes).value
    ensures var record := TrimSpace(current);
      Merged(value, includes) == Merge(value, false, false) <==>
        (InPlace(record, includes) ==> forall inc | inc in includes && Contains(record, IncludeToken(inc)) ::
          Whole(CutOf(record), IncludeToken(inc)))
  {
    var record := TrimSpace(current);
    value := MergeIdempotentIff(current, includes);
    if InPlace(record, includes) {
      forall inc | inc in includes && Contains(record, IncludeToken(inc)) && !Whole(CutOf(record), IncludeToken(inc))
        ensures !Recreated(CutOf(record), Block(record, includes), IncludeToken(inc))
      {
        TornNotRecreated(record, includes, inc);
      }
    }
  }
}
