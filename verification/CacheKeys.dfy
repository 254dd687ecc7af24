// The strings that the web client builds for its cache: when two requests get the same one.

module CacheKeys {
  /** requestIdentity */
  function RequestIdentity(authorization: string, tenant: string): string {
    "auth:" + authorization + "|tenant:" + tenant
  }

  function CacheKey(url: string, identity: string): string {
    url + "|" + identity
  }

  const AUTH := "|auth:"
  const TENANT := "|tenant:"

  /** What stands in a cache key and in a scope: the address, then the authorization, then the tenant. */
  lemma KeyTexts(url: string, resource: string, authorization: string, tenant: string)
    ensures CacheKey(url, RequestIdentity(authorization, tenant)) ==
            url + "|auth:" + authorization + "|tenant:" + tenant
    ensures ScopeKey(url, resource, RequestIdentity(authorization, tenant)) ==
            url + "|" + resource + "|auth:" + authorization + "|tenant:" + tenant
  {
    assert "|" + "auth:" == "|auth:";
  }

  /** A text whose first character does not come again. */
  predicate IsMarker(m: string) {
    m != [] && m[0] !in m[1..]
  }

  /** Overlapping occurrences of a text repeat its first character inside it. */
  lemma OverlapRepeats(u: string, x: string, v: string, y: string, m: string)
    requires u + m + x == v + m + y && |u| < |v| < |u| + |m|
    ensures m[0] in m[1..]
  {
    var k := |v| - |u|;
    assert (u + m + x)[|v|] == m[k] && (v + m + y)[|v|] == m[0];
    assert m[k] == m[1..][k - 1];
  }

  lemma SameLengthSamePrefix(u: string, x: string, v: string, y: string)
    requires u + x == v + y
    ensures |u| == |v| ==> u == v && x == y
  {
    if |u| == |v| {
      assert u == (u + x)[..|u|] && v == (v + y)[..|v|];
      assert x == (u + x)[|u|..] && y == (v + y)[|v|..];
    }
  }

  /** If two texts are continued by the same marker and become equal, the longer one contains the
      shorter one and the whole marker. */
  lemma MarkedTextsCollide(u: string, x: string, v: string, y: string, m: string)
    requires IsMarker(m) && u + m + x == v + m + y && |u| < |v|
    ensures u + m <= v
  {
    if |v| < |u| + |m| { OverlapRepeats(u, x, v, y, m); }
    assert u + m == (u + m + x)[..|u| + |m|];
    assert v == (v + m + y)[..|v|];
  }

  lemma KeyShape(url: string, authorization: string, tenant: string)
    ensures CacheKey(url, RequestIdentity(authorization, tenant)) == url + AUTH + (authorization + TENANT + tenant)
    ensures RequestIdentity(authorization, tenant) == "auth:" + (authorization + TENANT + tenant)
  {
    assert "|" + "auth:" == AUTH;
  }

  ghost predicate CanCollide(u: string, v: string) {
    exists a, t, b, s :: CacheKey(u, RequestIdentity(a, t)) == CacheKey(v, RequestIdentity(b, s))
  }

  /** Requests for two URLs can get the same cache key exactly when one URL goes on from the other
      with the text that introduces an identity. */
  lemma UrlsCollideExactly(u: string, v: string)
    requires u != v
    ensures CanCollide(u, v) <==> u + AUTH <= v || v + AUTH <= u
  {
    if CanCollide(u, v) {
      var a, t, b, s :| CacheKey(u, RequestIdentity(a, t)) == CacheKey(v, RequestIdentity(b, s));
      CollidingUrls(u, a, t, v, b, s);
    }
    if u + AUTH <= v { CollisionOf(u, v); }
    if v + AUTH <= u { CollisionOf(v, u); }
  }

  lemma CollidingUrls(u: string, a: string, t: string, v: string, b: string, s: string)
    requires u != v && CacheKey(u, RequestIdentity(a, t)) == CacheKey(v, RequestIdentity(b, s))
    ensures u + AUTH <= v || v + AUTH <= u
  {
    KeyShape(u, a, t);
    KeyShape(v, b, s);
    var x, y := a + TENANT + t, b + TENANT + s;
    assert u + AUTH + x == v + AUTH + y;
    assert u + AUTH + x == u + (AUTH + x) && v + AUTH + y == v + (AUTH + y);
    SameLengthSamePrefix(u, AUTH + x, v, AUTH + y);
    if |u| < |v| {
      MarkedTextsCollide(u, x, v, y, AUTH);
    } else {
      MarkedTextsCollide(v, y, u, x, AUTH);
    }
  }

  /** The collision: the identity of the shorter URL holds the rest of the longer one. */
  lemma CollisionOf(u: string, v: string)
    requires u + AUTH <= v
    ensures CanCollide(u, v) && CanCollide(v, u)
  {
    var rest := v[|u + AUTH|..];
    var a := rest + AUTH;
    KeyShape(u, a, "t");
    KeyShape(v, "", "t");
    assert v == u + AUTH + rest;
    assert u + AUTH + (a + TENANT + "t") == v + AUTH + ("" + TENANT + "t");
    assert CacheKey(u, RequestIdentity(a, "t")) == CacheKey(v, RequestIdentity("", "t"));
  }

  ghost predicate CanShareIdentity(a: string, b: string) {
    exists t, s :: RequestIdentity(a, t) == RequestIdentity(b, s)
  }

  /** Two authorization headers can belong to one identity exactly when one goes on from the other
      with the text that introduces a tenant. */
  lemma IdentitiesCollideExactly(a: string, b: string)
    requires a != b
    ensures CanShareIdentity(a, b) <==> a + TENANT <= b || b + TENANT <= a
  {
    if CanShareIdentity(a, b) {
      var t, s :| RequestIdentity(a, t) == RequestIdentity(b, s);
      CollidingIdentities(a, t, b, s);
    }
    if a + TENANT <= b { SharedIdentityOf(a, b); }
    if b + TENANT <= a { SharedIdentityOf(b, a); }
  }

  lemma CollidingIdentities(a: string, t: string, b: string, s: string)
    requires a != b && RequestIdentity(a, t) == RequestIdentity(b, s)
    ensures a + TENANT <= b || b + TENANT <= a
  {
    KeyShape("", a, t);
    KeyShape("", b, s);
    assert a + TENANT + t == RequestIdentity(a, t)[|"auth:"|..] == b + TENANT + s;
    assert a + TENANT + t == a + (TENANT + t) && b + TENANT + s == b + (TENANT + s);
    SameLengthSamePrefix(a, TENANT + t, b, TENANT + s);
    if |a| < |b| {
      MarkedTextsCollide(a, t, b, s, TENANT);
    } else {
      MarkedTextsCollide(b, s, a, t, TENANT);
    }
  }

  lemma SharedIdentityOf(a: string, b: string)
    requires a + TENANT <= b
    ensures CanShareIdentity(a, b) && CanShareIdentity(b, a)
  {
    var rest := b[|a + TENANT|..];
    assert b == a + TENANT + rest;
    KeyShape("", a, rest + TENANT);
    KeyShape("", b, "");
    assert a + TENANT + (rest + TENANT) == b + TENANT + "";
    assert RequestIdentity(a, rest + TENANT) == RequestIdentity(b, "");
  }

  /** scopeKey; resource is resourceKey of the path. */
  function ScopeKey(baseUrl: string, resource: string, identity: string): string {
    baseUrl + "|" + resource + "|" + identity
  }

  /** Short of such collisions a cache key names one path, one authorization header and one tenant,
      and so one scope: nothing that is cached is served to another identity. */
  lemma KeyNamesRequest(baseUrl: string, p: string, a: string, t: string, q: string, b: string, s: string,
        resourceKey: string -> string)
    requires CacheKey(baseUrl + p, RequestIdentity(a, t)) == CacheKey(baseUrl + q, RequestIdentity(b, s))
    requires !(baseUrl + p + AUTH <= baseUrl + q) && !(baseUrl + q + AUTH <= baseUrl + p)
    requires !(a + TENANT <= b) && !(b + TENANT <= a)
    ensures p == q && a == b && t == s
    ensures ScopeKey(baseUrl, resourceKey(p), RequestIdentity(a, t)) ==
              ScopeKey(baseUrl, resourceKey(q), RequestIdentity(b, s))
  {
    var u, v := baseUrl + p, baseUrl + q;
    if u != v { CollidingUrls(u, a, t, v, b, s); }
    assert p == u[|baseUrl|..] && q == v[|baseUrl|..];
    KeyShape(u, a, t);
    KeyShape(v, b, s);
    var key := CacheKey(u, RequestIdentity(a, t));
    assert RequestIdentity(a, t) == key[|u| + 1..] == RequestIdentity(b, s);
    if a != b { CollidingIdentities(a, t, b, s); }
    assert t == RequestIdentity(a, t)[|"auth:"| + |a| + |TENANT|..];
    assert s == RequestIdentity(b, s)[|"auth:"| + |b| + |TENANT|..];
  }
}
