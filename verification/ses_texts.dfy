/** What the records of a chain say, letter by letter, and what the search for amazonses.com makes of it. */
module SesTexts {
  import opened Text
  import opened SesWalk

  const QUALIFIERS := ["", "+", "-", "~", "?"]

  predicate Qualified(s: string) {
    s != "" && s[0] in "+-~?"
  }

  /** The token is an include or a redirect of the host: a qualifier may come before the host of an include, and one
      final dot after either. */
  ghost predicate Points(tok: string, h: string) {
    exists q, dot | q in QUALIFIERS && dot in ["", "."] :: PointsBy(tok, h, q, dot)
  }

  predicate PointsBy(tok: string, h: string, q: string, dot: string) {
    && (dot == "" ==> !Dotted(h))
    && ((tok == "include:" + (q + h + dot) && (q == "" ==> !Qualified(h + dot)))
        || (q == "" && tok == "redirect=" + (h + dot)))
  }

  lemma Unqualified(s: string, x: string)
    ensures StripQualifier(s) == x <==> (s == x && !Qualified(x)) || exists q | q in QUALIFIERS && q != "" :: s == q + x
  {
    if Qualified(s) {
      assert s == [s[0]] + s[1..];
      assert [s[0]] in QUALIFIERS by {
        assert QUALIFIERS[1] == "+" && QUALIFIERS[2] == "-" && QUALIFIERS[3] == "~" && QUALIFIERS[4] == "?";
      }
    }
    forall q | q in QUALIFIERS && q != "" && s == q + x ensures StripQualifier(s) == x {
      assert q[0] in "+-~?" && |q| == 1 && s[0] == q[0] && s[1..] == x;
    }
  }

  lemma IncludePoints(s: string, h: string, q: string, dot: string)
    requires q in QUALIFIERS && dot in ["", "."] && s == q + (h + dot)
    requires (dot == "" ==> !Dotted(h)) && (q == "" ==> !Qualified(h + dot))
    ensures TrimSuffix(StripQualifier(s), ".") == h
  {
    Unqualified(s, h + dot);
    Undotted(h + dot, h);
    if q == "" {
      assert s == h + dot;
    }
    assert h + "" == h;
  }

  lemma PointsOfInclude(s: string, h: string) returns (q: string, dot: string)
    requires TrimSuffix(StripQualifier(s), ".") == h
    ensures q in QUALIFIERS && dot in ["", "."] && s == q + (h + dot)
    ensures (dot == "" ==> !Dotted(h)) && (q == "" ==> !Qualified(h + dot))
  {
    Undotted(StripQualifier(s), h);
    dot := if StripQualifier(s) == h + "." then "." else "";
    assert StripQualifier(s) == h + dot;
    Unqualified(s, h + dot);
    if s == h + dot && !Qualified(h + dot) {
      q := QUALIFIERS[0];
    } else {
      q :| q in QUALIFIERS && q != "" && s == q + (h + dot);
    }
  }

  lemma IncludeIff(tok: string, h: string)
    requires HasPrefix(tok, "include:")
    ensures Target(tok) == Some(h) <==> Points(tok, h)
  {
    var s := TrimPrefix(tok, "include:");
    EndsOnly(tok, "include:");
    assert tok == "include:" + s && tok[0] == 'i';
    forall q, dot | q in QUALIFIERS && dot in ["", "."] && PointsBy(tok, h, q, dot) ensures Target(tok) == Some(h) {
      IncludeBy(tok, s, h, q, dot);
      IncludePoints(s, h, q, dot);
    }
    if Target(tok) == Some(h) {
      var q, dot := PointsOfInclude(s, h);
      assert q + h + dot == s;
      assert PointsBy(tok, h, q, dot);
    }
  }

  lemma IncludeBy(tok: string, s: string, h: string, q: string, dot: string)
    requires tok == "include:" + s && PointsBy(tok, h, q, dot)
    ensures s == q + (h + dot) && (q == "" ==> !Qualified(h + dot))
  {
    assert tok[0] == 'i' && ("redirect=" + (h + dot))[0] == 'r';
    Ends("include:", q + h + dot);
    Ends("include:", s);
    assert q + h + dot == q + (h + dot);
  }

  lemma RedirectIff(tok: string, h: string)
    requires HasPrefix(tok, "redirect=")
    ensures Target(tok) == Some(h) <==> Points(tok, h)
  {
    var s := TrimPrefix(tok, "redirect=");
    EndsOnly(tok, "redirect=");
    assert tok == "redirect=" + s && tok[0] == 'r';
    Undotted(s, h);
    forall q, dot | q in QUALIFIERS && dot in ["", "."] && PointsBy(tok, h, q, dot) ensures Target(tok) == Some(h) {
      assert tok != "include:" + (q + h + dot);
      Ends("redirect=", h + dot);
      assert s == h + dot;
    }
    if Target(tok) == Some(h) {
      var dot := if s == h + "." then "." else "";
      assert QUALIFIERS[0] == "" && s == h + dot;
      assert PointsBy(tok, h, "", dot);
    }
  }

  /** The host a token points to, told from what is written. */
  lemma TargetIff(tok: string, h: string)
    ensures Target(tok) == Some(h) <==> Points(tok, h)
  {
    if HasPrefix(tok, "include:") {
      IncludeIff(tok, h);
    } else if HasPrefix(tok, "redirect=") {
      RedirectIff(tok, h);
    } else {
      forall q, dot | q in QUALIFIERS && dot in ["", "."] ensures !PointsBy(tok, h, q, dot) {
        Ends("include:", q + h + dot);
        Ends("redirect=", h + dot);
      }
    }
  }

  /** The text is an SPF record with a token that points to the host. */
  ghost predicate Says(txt: string, h: string) {
    var low := ToLower(TrimSpace(txt));
    HasPrefix(low, "v=spf1") && exists tok | tok in Fields(low) :: Points(tok, h)
  }

  ghost predicate Refers(r: Resolver, a: string, h: string) {
    a != "" && r(a).Some? && exists txt | txt in r(a).value :: Says(txt, h)
  }

  lemma {:induction false} TargetsIff(toks: seq<string>, h: string)
    ensures h in Targets(toks) <==> exists tok | tok in toks :: Points(tok, h)
  {
    if toks != [] {
      TargetsIff(toks[1..], h);
      TargetIff(toks[0], h);
      HeadOrTail(toks);
    }
  }

  lemma SaysIff(txt: string, h: string)
    ensures h in TextTargets(txt) <==> Says(txt, h)
  {
    TargetsIff(Fields(ToLower(TrimSpace(txt))), h);
  }

  lemma {:induction false} AllTargetsIff(txts: seq<string>, h: string)
    ensures h in AllTargets(txts) <==> exists txt | txt in txts :: Says(txt, h)
  {
    if txts != [] {
      AllTargetsIff(txts[1..], h);
      SaysIff(txts[0], h);
      HeadOrTail(txts);
    }
  }

  lemma HeadOrTail(txts: seq<string>)
    requires txts != []
    ensures forall txt :: txt in txts <==> txt == txts[0] || txt in txts[1..]
  {
  }

  /** The edges of the walk are exactly what the records say. */
  lemma EdgesIff(r: Resolver, a: string, h: string)
    ensures h in Edges(r, a) <==> Refers(r, a, h)
  {
    if a != "" && r(a).Some? {
      AllTargetsIff(r(a).value, h);
    }
  }

  /** A chain of hosts in which each refers to the next. */
  ghost predicate Chain(r: Resolver, hosts: seq<string>) {
    hosts != [] && forall i | 0 < i < |hosts| :: Refers(r, hosts[i - 1], hosts[i])
  }

  /** The search finds amazonses.com exactly when the records lead there, as long as simple include paths from the
      target have at most 11 hosts. */
  lemma FoundIffSaid(r: Resolver, target: string)
    requires ShortPaths(r, CleanHost(target), 11)
    ensures CleanHost(target) == "amazonses.com" || WalkHost(r, CleanHost(target), 0, {}).found <==>
      exists hosts :: Chain(r, hosts) && hosts[0] == CleanHost(target) && hosts[|hosts| - 1] == "amazonses.com"
  {
    var host := CleanHost(target);
    WalkIsExact(r, host);
    if Reaches(r, host, SES) {
      var path :| IsPath(r, path, host, SES);
      forall i | 0 < i < |path| ensures Refers(r, path[i - 1], path[i]) {
        assert Linked(EdgesOf(r), path, i);
        EdgesIff(r, path[i - 1], path[i]);
      }
      assert Chain(r, path);
    }
    if hosts :| Chain(r, hosts) && hosts[0] == host && hosts[|hosts| - 1] == "amazonses.com" {
      forall i ensures Linked(EdgesOf(r), hosts, i) {
        if 0 < i < |hosts| {
          EdgesIff(r, hosts[i - 1], hosts[i]);
        }
      }
      assert IsPath(r, hosts, host, SES);
    }
  }

  /** The target is taken without blanks around it, in lower case and without a final dot. */
  lemma CleanHostIs(target: string, h: string)
    requires ToLower(TrimSpace(target)) in [h, h + "."] && !Dotted(h)
    ensures CleanHost(target) == h
  {
    Undotted(ToLower(TrimSpace(target)), h);
  }
}
