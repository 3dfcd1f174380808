/** Resolving the host of a template record to a zone name. */
module HostNames {
  import opened Text

  predicate IsApex(host: string) {
    host == "@" || host == ""
  }

  /** None: a fully qualified host outside the zone. */
  function ResolveHostName(templateHost: string, callerHost: string, domain: string): Option<string> {
    if IsApex(templateHost) then Some(if IsApex(callerHost) then "@" else callerHost)
    else if HasSuffix(templateHost, ".") then
      var h := TrimDot(templateHost);
      var low, suffix := ToLower(h), "." + ToLower(domain);
      if low == ToLower(domain) then Some("@")
      else if HasSuffix(low, suffix) then Some(h[..|h| - |suffix|])
      else None
    else Some(if IsApex(callerHost) then templateHost else templateHost + "." + callerHost)
  }

  /** The hosts that resolve to the empty name are exactly the domain between two dots. */
  lemma ResolvesEmpty(templateHost: string, callerHost: string, domain: string)
    ensures ResolveHostName(templateHost, callerHost, domain) == Some("") <==>
      HasSuffix(templateHost, ".") && ToLower(TrimDot(templateHost)) == "." + ToLower(domain)
  {
    if IsApex(templateHost) {
      assert ResolveHostName(templateHost, callerHost, domain) != Some("");
    } else if HasSuffix(templateHost, ".") {
      CutIsEmpty(TrimDot(templateHost), domain);
    } else {
      assert |templateHost + "." + callerHost| > 0;
    }
  }

  lemma CutIsEmpty(h: string, domain: string)
    ensures ToLower(h) == "." + ToLower(domain) <==>
      HasSuffix(ToLower(h), "." + ToLower(domain)) && h[..|h| - |"." + ToLower(domain)|] == ""
  {
    var low, suffix := ToLower(h), "." + ToLower(domain);
    if HasSuffix(low, suffix) && |low| == |suffix| {
      assert low[0..] == low;
    }
  }

  lemma DottedDomainIsEmpty(domain: string)
    ensures ResolveHostName("." + domain + ".", "", domain) == Some("")
  {
    var host := "." + domain + ".";
    assert TrimDot(host) == "." + domain;
    ToLowerAppend(".", domain);
    assert ToLower(".") == ".";
    ResolvesEmpty(host, "", domain);
  }

  /** A host without a final dot is relative to the caller's host. */
  lemma RelativeHost(own: string, callerHost: string, domain: string)
    requires own !in ["", "@"] && own[|own| - 1] != '.'
    ensures ResolveHostName(own, callerHost, domain) ==
      Some(if callerHost in ["", "@"] then own else own + "." + callerHost)
  {
  }

  lemma ApexHost(own: string, callerHost: string, domain: string)
    requires own in ["", "@"]
    ensures ResolveHostName(own, callerHost, domain) == Some(if callerHost in ["", "@"] then "@" else callerHost)
  {
  }

  predicate Below(host: string, own: string, tail: string, domain: string) {
    host == own + "." + tail && ToLower(tail) == ToLower(domain)
  }

  /** A host with a final dot is absolute: the domain itself is the apex, what is below it loses the domain, up to
      case, and anything else is outside the zone. */
  lemma AbsoluteHost(host: string, callerHost: string, domain: string)
    requires host != ""
    ensures ToLower(host) == ToLower(domain) ==> ResolveHostName(host + ".", callerHost, domain) == Some("@")
    ensures forall own, tail | Below(host, own, tail, domain) ::
      ResolveHostName(host + ".", callerHost, domain) == Some(own)
    ensures ResolveHostName(host + ".", callerHost, domain).None? <==>
      ToLower(host) != ToLower(domain) && forall own, tail :: !Below(host, own, tail, domain)
  {
    Ends(host, ".");
    var low, suffix := ToLower(host), "." + ToLower(domain);
    forall own, tail | Below(host, own, tail, domain)
      ensures HasSuffix(low, suffix) && host[..|host| - |suffix|] == own && low != ToLower(domain)
    {
      ToLowerAppend(own + ".", tail);
      ToLowerAppend(own, ".");
      assert low == ToLower(own) + suffix;
      Ends(ToLower(own), suffix);
    }
    if HasSuffix(low, suffix) {
      CutsAtDot(host, domain);
      assert Below(host, host[..|host| - |domain| - 1], host[|host| - |domain|..], domain);
    }
  }

  lemma CutsAtDot(host: string, domain: string)
    requires HasSuffix(ToLower(host), "." + ToLower(domain))
    ensures var n := |host| - |domain|;
      host == host[..n - 1] + "." + host[n..] && ToLower(host[n..]) == ToLower(domain)
  {
    var n, low := |host| - |domain|, ToLower(host);
    var end := low[n - 1..];
    assert end == "." + ToLower(domain);
    DotAt(host, n - 1);
    assert host == host[..n - 1] + [host[n - 1]] + host[n..];
    assert low[n..] == end[1..];
    LowerRest(host, n);
  }

  lemma DotAt(host: string, i: nat)
    requires i < |host| && ToLower(host)[i] == '.'
    ensures host[i] == '.'
  {
  }

  lemma LowerRest(host: string, n: nat)
    requires n <= |host|
    ensures ToLower(host[n..]) == ToLower(host)[n..]
  {
  }
}
