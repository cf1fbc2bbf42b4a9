/** Which base addresses the firmware accepts: an HTTPS origin, or plain HTTP to the board's own host. */
module ApiOrigin {

  /** `url.rstrip("/")` */
  function StripSlashes(url: string): (s: string)
    ensures s <= url
    ensures s != "" ==> s[|s| - 1] != '/'
    ensures forall i :: |s| <= i < |url| ==> url[i] == '/'
  {
    if |url| > 0 && url[|url| - 1] == '/' then StripSlashes(url[..|url| - 1]) else url
  }

  const SEPARATOR := "://"

  predicate SeparatorAt(s: string, i: nat) {
    i + 3 <= |s| && s[i..i + 3] == SEPARATOR
  }

  /** The text after the first separator, or all of it without one. */
  function AfterSeparator(s: string, i: nat): string
    requires i <= |s|
    decreases |s| - i
  {
    if SeparatorAt(s, i) then s[i + 3..] else if i == |s| then s else AfterSeparator(s, i + 1)
  }

  predicate Plain(authority: string) {
    authority != "" && '/' !in authority && '?' !in authority && '#' !in authority
  }

  predicate OriginAccepted(url: string) {
    var normalized := StripSlashes(url);
    var isHttps := "https://" <= normalized;
    var isLocal := normalized == "http://localhost" || "http://localhost:" <= normalized;
    (isHttps || isLocal) && Plain(AfterSeparator(normalized, 0))
  }

  predicate IsOrigin(s: string, host: string) {
    && Plain(host)
    && (s == "https://" + host || (s == "http://" + host && (host == "localhost" || "localhost:" <= host)))
  }

  /** Behind a scheme without a colon the first separator is the scheme's own. */
  lemma {:induction false} SchemeEnds(scheme: string, host: string, i: nat)
    requires ':' !in scheme && i <= |scheme|
    ensures AfterSeparator(scheme + SEPARATOR + host, i) == host
    decreases |scheme| - i
  {
    var s := scheme + SEPARATOR + host;
    if i == |scheme| {
      assert s[i..i + 3] == SEPARATOR && s[i + 3..] == host;
    } else {
      assert s[i] == scheme[i] && scheme[i] in scheme;
      assert i + 3 <= |s| ==> s[i..i + 3][0] != SEPARATOR[0];
      SchemeEnds(scheme, host, i + 1);
    }
  }

  /** The two ways an address can start, with what follows the scheme. */
  lemma HttpsHost(s: string)
    requires "https://" <= s
    ensures s == "https://" + s[8..] && AfterSeparator(s, 0) == s[8..]
  {
    assert s == "https" + SEPARATOR + s[8..];
    SchemeEnds("https", s[8..], 0);
  }

  lemma HttpHost(s: string)
    requires "http://" <= s
    ensures s == "http://" + s[7..] && AfterSeparator(s, 0) == s[7..]
  {
    assert s == "http" + SEPARATOR + s[7..];
    SchemeEnds("http", s[7..], 0);
  }

  /** Plain HTTP to the board's own host, with or without a port. */
  lemma LocalHost(s: string)
    ensures s == "http://localhost" <==> "http://" <= s && s[7..] == "localhost"
    ensures "http://localhost:" <= s <==> "http://" <= s && "localhost:" <= s[7..]
  {
    assert "http://localhost"[..7] == "http://" && "http://localhost"[7..] == "localhost";
    assert "http://localhost:"[..7] == "http://" && "http://localhost:"[7..] == "localhost:";
    if "http://" <= s {
      assert s == "http://" + s[7..];
      if "localhost:" <= s[7..] {
        assert s[7..] == "localhost:" + s[17..];
      }
    }
    if "http://localhost:" <= s {
      assert s == "http://localhost:" + s[17..];
      assert s[7..] == "localhost:" + s[17..];
    }
  }

  lemma AcceptedIsOrigin(url: string) returns (host: string)
    requires OriginAccepted(url)
    ensures IsOrigin(StripSlashes(url), host)
  {
    var s := StripSlashes(url);
    if "https://" <= s {
      HttpsHost(s);
      host := s[8..];
    } else {
      LocalHost(s);
      HttpHost(s);
      host := s[7..];
    }
  }

  lemma OriginIsAccepted(url: string, host: string)
    requires IsOrigin(StripSlashes(url), host)
    ensures OriginAccepted(url)
  {
    var s := StripSlashes(url);
    if s == "https://" + host {
      HttpsHost(s);
      assert s[8..] == host;
    } else {
      LocalHost(s);
      HttpHost(s);
      assert s[7..] == host;
    }
  }

  /** Exactly the HTTPS origins, and plain HTTP to localhost, trailing slashes aside. */
  lemma OriginAcceptedExactly(url: string)
    ensures OriginAccepted(url) ==> exists host :: IsOrigin(StripSlashes(url), host)
    ensures (exists host :: IsOrigin(StripSlashes(url), host)) ==> OriginAccepted(url)
  {
    if OriginAccepted(url) {
      var host := AcceptedIsOrigin(url);
    }
    forall host | IsOrigin(StripSlashes(url), host) ensures OriginAccepted(url) {
      OriginIsAccepted(url, host);
    }
  }
}
