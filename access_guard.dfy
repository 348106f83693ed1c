/**
 * The origin/referer policy that gates every request: which origins are on
 * the allow-list, whether the request is authorised, and which value the
 * `Access-Control-Allow-Origin` header gets.
 */
module AccessGuard {
  import opened JsStrings
  import JsValues

  /** The development origins always on the allow-list. */
  const DevOrigins: seq<string> := [
    "http://localhost:3000",
    "http://localhost:8000",
    "http://127.0.0.1:3000",
    "http://127.0.0.1:8000"
  ]

  /** The domain list as shipped: empty, so only local requests pass. */
  const ShippedDomains: seq<string> := []

  /** For every configured domain, in order, `https://<d>` then `https://www.<d>`. */
  function DomainOrigins(domains: seq<string>): (r: seq<string>)
    ensures |r| == 2 * |domains|
    ensures forall i :: 0 <= i < |domains| ==>
      r[2 * i] == "https://" + domains[i] && r[2 * i + 1] == "https://www." + domains[i]
  {
    if domains == [] then
      []
    else
      var rest := DomainOrigins(domains[1..]);
      var r := ["https://" + domains[0], "https://www." + domains[0]] + rest;
      assert forall i :: 1 <= i < |domains| ==>
        r[2 * i] == "https://" + domains[i] && r[2 * i + 1] == "https://www." + domains[i] by {
        forall i | 1 <= i < |domains|
          ensures r[2 * i] == "https://" + domains[i] && r[2 * i + 1] == "https://www." + domains[i]
        {
          var j := i - 1;
          assert 2 * i == 2 * j + 2;
          assert domains[1..][j] == domains[i];
        }
      }
      r
  }

  /** The full allow-list: the origins of every domain, then the development origins. */
  function AllowedOrigins(domains: seq<string>): seq<string>
  {
    DomainOrigins(domains) + DevOrigins
  }

  /** `isAllowedOrigin`: the origin equals an allow-list entry, ignoring case. */
  predicate IsAllowedOrigin(domains: seq<string>, origin: string)
    ensures IsAllowedOrigin(domains, origin) <==>
      exists e :: e in AllowedOrigins(domains) && ToLower(e) == ToLower(origin)
  {
    JsValues.Some(AllowedOrigins(domains), (allowed: string) => ToLower(origin) == ToLower(allowed))
  }

  /** One configured domain appears in the lower-cased referer or origin as `://d`, `://www.d` or `.d`. */
  predicate DomainMatches(domain: string, origin: string, referer: string)
  {
    var d := ToLower(domain);
    var r := ToLower(referer);
    var o := ToLower(origin);
    || Includes(r, "://" + d) || Includes(r, "://www." + d) || Includes(r, "." + d)
    || Includes(o, "://" + d) || Includes(o, "://www." + d) || Includes(o, "." + d)
  }

  /** `isFromAllowedDomain`: some configured domain matches. */
  predicate IsFromAllowedDomain(domains: seq<string>, origin: string, referer: string)
  {
    JsValues.Some(domains, (d: string) => DomainMatches(d, origin, referer))
  }

  /** `isFromLocalhost`: origin or referer contains `localhost` or `127.0.0.1`, case-sensitively. */
  predicate IsFromLocalhost(origin: string, referer: string)
  {
    || Includes(origin, "localhost") || Includes(origin, "127.0.0.1")
    || Includes(referer, "localhost") || Includes(referer, "127.0.0.1")
  }

  /** `isAuthorized`. */
  predicate Authorized(domains: seq<string>, origin: string, referer: string)
  {
    IsFromAllowedDomain(domains, origin, referer) || IsFromLocalhost(origin, referer)
  }

  /**
   * The `Access-Control-Allow-Origin` value for an authorised request: the
   * request origin verbatim when it is on the allow-list or local, otherwise
   * `https://` and the first configured domain (`undefined` when there is
   * none, as the template literal renders it).
   */
  function CorsOrigin(domains: seq<string>, origin: string, referer: string): (r: string)
    ensures r == origin || r == "https://" + (if domains == [] then "undefined" else domains[0])
    ensures ((exists e :: e in AllowedOrigins(domains) && ToLower(e) == ToLower(origin)) ||
      IsFromLocalhost(origin, referer)) ==> r == origin
    ensures Authorized(domains, origin, referer) ==>
      r == origin || (domains != [] && r == "https://" + domains[0])
    ensures !(IsAllowedOrigin(domains, origin) || IsFromLocalhost(origin, referer)) ==>
      r == "https://" + (if domains == [] then "undefined" else domains[0])
  {
    if IsAllowedOrigin(domains, origin) || IsFromLocalhost(origin, referer) then
      origin
    else
      "https://" + (if domains == [] then "undefined" else domains[0])
  }

  /**
   * A request is authorised exactly when some configured domain `d` occurs as
   * `://d`, `://www.d` or `.d` in the lower-cased referer or origin, or the raw
   * origin or referer contains `localhost` or `127.0.0.1`.
   */
  lemma AuthorizedIff(domains: seq<string>, origin: string, referer: string)
    ensures Authorized(domains, origin, referer) <==>
      (exists i :: 0 <= i < |domains| && DomainMatches(domains[i], origin, referer))
      || IsFromLocalhost(origin, referer)
  {
  }

  /**
   * With no configured domain only local requests are authorised, and every
   * authorised request echoes its own origin: the `https://undefined`
   * fallback is unreachable.
   */
  lemma NoDomainsOnlyLocalhost(origin: string, referer: string)
    ensures Authorized([], origin, referer) <==> IsFromLocalhost(origin, referer)
    ensures Authorized([], origin, referer) ==> CorsOrigin([], origin, referer) == origin
  {
  }

  /** The allow-list holds exactly the domain origins and the development origins. */
  lemma AllowedOriginsMembers(domains: seq<string>, entry: string)
    ensures entry in AllowedOrigins(domains) <==>
      entry in DevOrigins ||
      exists i :: 0 <= i < |domains| && (entry == "https://" + domains[i] || entry == "https://www." + domains[i])
  {
    var r := DomainOrigins(domains);
    if entry in r {
      var k :| 0 <= k < |r| && r[k] == entry;
      assert r[2 * (k / 2)] == entry || r[2 * (k / 2) + 1] == entry;
    }
  }

  /**
   * An origin that matches `https://d` or `https://www.d`, ignoring case, is
   * authorised by the domain test and echoed back verbatim.
   */
  lemma DomainOriginAuthorized(domains: seq<string>, i: nat, origin: string, referer: string)
    requires i < |domains|
    requires ToLower(origin) == ToLower("https://" + domains[i]) ||
             ToLower(origin) == ToLower("https://www." + domains[i])
    ensures Authorized(domains, origin, referer)
    ensures CorsOrigin(domains, origin, referer) == origin
  {
    var d := ToLower(domains[i]);
    ToLowerAppend("https://", domains[i]);
    ToLowerAppend("https://www.", domains[i]);
    assert ToLower("https://") == "https://";
    assert ToLower("https://www.") == "https://www.";
    var o := ToLower(origin);
    if o == "https://" + d {
      assert o[5..5 + |"://" + d|] == "://" + d;
      assert OccursAt(o, "://" + d, 5);
    } else {
      assert o == "https://www." + d;
      assert o[5..5 + |"://www." + d|] == "://www." + d;
      assert OccursAt(o, "://www." + d, 5);
    }
    assert DomainMatches(domains[i], origin, referer);
    var k := if o == "https://" + d then 2 * i else 2 * i + 1;
    assert AllowedOrigins(domains)[k] == DomainOrigins(domains)[k];
    assert ToLower(origin) == ToLower(AllowedOrigins(domains)[k]);
  }

  /**
   * The allow-list is compared ignoring case but the localhost test is
   * case-sensitive: an upper-cased `localhost` development origin is on the
   * list yet refused when nothing else mentions a local host.
   */
  lemma UpperCaseLocalhostOriginRefused(origin: string)
    requires ToLower(origin) in DevOrigins[..2]
    requires !Includes(origin, "localhost")
    ensures IsAllowedOrigin([], origin)
    ensures !Authorized([], origin, "")
  {
    var dev := ToLower(origin);
    assert dev in AllowedOrigins([]) && '1' !in dev by {
      assert dev == DevOrigins[0] || dev == DevOrigins[1];
    }
    ToLowerIdempotent(origin);
    assert '1' !in origin by {
      forall k | 0 <= k < |origin| ensures origin[k] != '1' {
        assert dev[k] == LowerChar(origin[k]);
      }
    }
    NotIncludes(origin, "127.0.0.1");
  }

  /**
   * An upper-cased loopback-address development origin still contains
   * `127.0.0.1`, so it is accepted and echoed.
   */
  lemma UpperCaseLoopbackOriginAccepted(origin: string)
    requires ToLower(origin) in DevOrigins[2..]
    ensures Authorized([], origin, "")
    ensures CorsOrigin([], origin, "") == origin
  {
    var dev, host := ToLower(origin), "127.0.0.1";
    assert |dev| >= 16 && dev[7..16] == host by {
      assert dev == DevOrigins[2] || dev == DevOrigins[3];
    }
    assert forall j :: 0 <= j < |host| ==> !('a' <= host[j] <= 'z');
    forall k | 7 <= k < 16 ensures origin[k] == host[k - 7] {
      assert dev[k] == host[k - 7];
      LowerKeepsNonLetter(origin, k);
    }
    assert origin[7..16] == host;
    assert OccursAt(origin, host, 7);
  }

  /** A character that lower-cases to something other than a lower-case letter was already that character. */
  lemma LowerKeepsNonLetter(s: string, k: int)
    requires 0 <= k < |s|
    requires !('a' <= ToLower(s)[k] <= 'z')
    ensures s[k] == ToLower(s)[k]
  {
    assert ToLower(s)[k] == LowerChar(s[k]);
  }

  /** `t` does not occur in `s` when `s` lacks the first character of `t`. */
  lemma NotIncludes(s: string, t: string)
    requires t != [] && t[0] !in s
    ensures !Includes(s, t)
  {
  }

  /**
   * The domain test is a substring test, not a host comparison: a referer
   * on any host whose path merely mentions `.<domain>` passes.
   */
  lemma PathMentionAuthorizes(host: string, domain: string, origin: string)
    ensures Authorized([domain], origin, "https://" + host + "/." + domain)
  {
    var referer := "https://" + host + "/." + domain;
    var prefix := "https://" + host + "/";
    var r, t := ToLower(referer), "." + ToLower(domain);
    assert r == ToLower(prefix) + t by {
      assert referer == prefix + ("." + domain);
      ToLowerAppend(prefix, "." + domain);
      ToLowerAppend(".", domain);
      assert ToLower(".") == ".";
    }
    assert Includes(r, t) by {
      assert r[|prefix|..|prefix| + |t|] == t;
      assert OccursAt(r, t, |prefix|);
    }
    assert DomainMatches(domain, origin, referer);
    assert [domain][0] == domain;
  }
}
