/** `normalizeUrl` of the background script. */
module Urls {
  import opened Basics

  /**
   * What `new URL(s)` yields, as far as normalisation is concerned: the
   * scheme (with its colon); the credentials as the serialiser writes them
   * (`""`, or ending in '@'); whether the URL has a host (`mailto:x` and
   * `foo:/x` have none); the host name; whether the path is opaque
   * (`mailto:x`); everything between host and query as the serialiser
   * writes it (port and path); the query (`""` or starting with '?') and the
   * fragment (`""` or starting with '#').
   */
  datatype UrlParts = UrlParts(scheme: string, userinfo: string, hasHost: bool, hostname: string,
                               opaquePath: bool, rest: string, search: string, hash: string)

  /** `url.toString()`: "//", credentials and host are written only when there is a host. */
  function Href(u: UrlParts): string {
    u.scheme + (if u.hasHost then "//" + u.userinfo + u.hostname else "") + u.rest + u.search + u.hash
  }

  /** A parsed URL never has '?' or '#' before its query. */
  predicate WellFormed(u: UrlParts) {
    '?' !in u.scheme && '#' !in u.scheme
    && '?' !in u.userinfo && '#' !in u.userinfo
    && '?' !in u.hostname && '#' !in u.hostname
    && '?' !in u.rest && '#' !in u.rest
  }

  /** `hostname.replace(/^www\./, "")`: one leading "www." at most is removed. */
  function StripWww(h: string): string {
    if StartsWith(h, "www.") then h[4..] else h
  }

  /**
   * The `hostname` setter ignores an empty host for the schemes that need one
   * (every special scheme except "file:"), for a URL with credentials, and
   * for a URL with a port (`rest` then starts with ':').
   */
  predicate HostSetterRefuses(u: UrlParts, h: string) {
    h == "" && (u.scheme in ["http:", "https:", "ftp:", "ws:", "wss:"] || u.userinfo != "" || StartsWith(u.rest, ":"))
  }

  /**
   * `url.hostname = h` (section 6.1 of the WHATWG URL Standard, with the
   * host and file-host states of its basic URL parser): nothing happens for
   * an opaque path; a "file:" URL takes the host, "localhost" becoming the
   * empty host; any other URL takes it unless the setter refuses it, and then
   * has a host even if it had none.
   */
  function SetHostname(u: UrlParts, h: string): UrlParts {
    if u.opaquePath then u
    else if u.scheme == "file:" then u.(hasHost := true, hostname := if h == "localhost" then "" else h)
    else if HostSetterRefuses(u, h) then u
    else u.(hasHost := true, hostname := h)
  }

  /** The parse path: drop one leading "www." from the host, clear query and fragment. */
  function Canonical(u: UrlParts): (c: UrlParts)
    ensures c.search == "" && c.hash == ""
    ensures c.scheme == u.scheme && c.userinfo == u.userinfo && c.opaquePath == u.opaquePath && c.rest == u.rest
    ensures u.opaquePath ==> c == u.(search := "", hash := "")
    ensures u.hasHost ==> c.hasHost
    ensures (!u.opaquePath && u.scheme != "file:" && StartsWith(u.hostname, "www.")
             && !HostSetterRefuses(u, u.hostname[4..])) ==> c.hasHost && u.hostname == "www." + c.hostname
    ensures u.scheme != "file:" && (!StartsWith(u.hostname, "www.") || HostSetterRefuses(u, u.hostname[4..])) ==>
      c.hostname == u.hostname
    ensures !u.opaquePath && u.scheme == "file:" ==>
      c.hasHost && c.hostname == if StripWww(u.hostname) == "localhost" then "" else StripWww(u.hostname)
  {
    SetHostname(u, StripWww(u.hostname)).(search := "", hash := "")
  }

  /** "https://www./x" keeps its host: stripping "www." would leave the host empty. */
  lemma BareWwwHostKept(u: UrlParts)
    requires u.scheme == "https:" && u.hasHost && u.userinfo == "" && u.hostname == "www." && !u.opaquePath
    ensures Canonical(u).hostname == "www."
    ensures Href(Canonical(u)) == "https://www." + u.rest
  {
    assert StartsWith(u.hostname, "www.");
    assert HostSetterRefuses(u, u.hostname[4..]);
  }

  /** A URL with an opaque path, such as "mailto:x", comes back as it was, less query and fragment. */
  lemma OpaqueUrlKept(u: UrlParts)
    requires u.scheme == "mailto:" && !u.hasHost && u.hostname == "" && u.opaquePath
    requires u.rest == "x" && u.search == "" && u.hash == ""
    ensures NormalizeUrl("mailto:x", Some(u)) == "mailto:x"
  {
  }

  /**
   * A non-special URL without a host, such as "foo:/x", is given the empty
   * host by the setter, so it serialises with "//" as "foo:///x".
   */
  lemma HostlessUrlGainsEmptyHost(u: UrlParts)
    requires u.scheme == "foo:" && !u.hasHost && u.userinfo == "" && u.hostname == "" && !u.opaquePath
    requires u.rest == "/x" && u.search == "" && u.hash == ""
    ensures NormalizeUrl("foo:/x", Some(u)) == "foo:///x"
  {
    assert !StartsWith(u.hostname, "www.");
    assert u.rest[..1] == "/" && u.scheme !in ["http:", "https:", "ftp:", "ws:", "wss:"];
    assert !HostSetterRefuses(u, "");
  }

  /** "file://localhost/x" written with "www." in front ends with the empty host. */
  lemma FileLocalhostBecomesEmpty(u: UrlParts)
    requires u.scheme == "file:" && u.hostname == "www.localhost" && !u.opaquePath && u.userinfo == ""
    requires u.rest == "/x"
    ensures Href(Canonical(u)) == "file:///x"
  {
    assert StartsWith(u.hostname, "www.") && u.hostname[4..] == "localhost";
  }

  /** The fallback for strings that do not parse: `s.split("?")[0].split("#")[0]`. */
  function Fallback(s: string): string {
    BeforeFirst(BeforeFirst(s, '?'), '#')
  }

  /**
   * `normalizeUrl(s)`. `parsed` is what `new URL(s)` returns, or `None`
   * when the constructor throws.
   */
  function NormalizeUrl(s: string, parsed: Option<UrlParts>): (r: string)
    ensures parsed.Some? ==> r == Href(Canonical(parsed.value))
    ensures parsed.None? ==> StartsWith(s, r)
    ensures parsed.None? || WellFormed(parsed.value) ==> '?' !in r && '#' !in r
  {
    match parsed
    case Some(u) => (NoQueryOrFragment(Canonical(u)); Href(Canonical(u)))
    case None => (FallbackIsCleanPrefix(s); Fallback(s))
  }

  lemma NoQueryOrFragment(u: UrlParts)
    requires u.search == "" && u.hash == ""
    ensures WellFormed(u) ==> '?' !in Href(u) && '#' !in Href(u)
  {
    if u.hasHost {
      assert Href(u) == u.scheme + "//" + u.userinfo + u.hostname + u.rest;
    } else {
      assert Href(u) == u.scheme + u.rest;
    }
  }

  /** The fallback keeps a prefix of its input that has neither '?' nor '#'. */
  lemma FallbackIsCleanPrefix(s: string)
    ensures StartsWith(s, Fallback(s))
    ensures '?' !in Fallback(s) && '#' !in Fallback(s)
  {
    var a := BeforeFirst(s, '?');
    var b := BeforeFirst(a, '#');
    assert s[..|b|] == a[..|b|];
    assert forall i :: 0 <= i < |b| ==> b[i] == a[i];
  }

  /** A string without '?' and '#' is its own fallback form. */
  lemma FallbackKeepsCleanString(s: string)
    requires '?' !in s && '#' !in s
    ensures Fallback(s) == s
  {
  }

  /** Applying the fallback twice gives the same string as applying it once. */
  lemma FallbackIdempotent(s: string)
    ensures Fallback(Fallback(s)) == Fallback(s)
  {
    FallbackIsCleanPrefix(s);
    FallbackKeepsCleanString(Fallback(s));
  }

  /** The parse path is not idempotent: "www.www.x" loses only its first "www.". */
  lemma StripWwwOnlyOnce()
    ensures StripWww("www.www.x") == "www.x"
    ensures StripWww(StripWww("www.www.x")) == "x"
  {
    assert StartsWith("www.www.x", "www.");
    assert StartsWith("www.x", "www.");
  }

  /** Canonicalising a parsed URL twice differs from once when its host starts "www.www.". */
  lemma CanonicalNotIdempotent(u: UrlParts)
    requires u.hostname == "www.www.x" && !u.opaquePath
    ensures Canonical(Canonical(u)) != Canonical(u)
  {
    StripWwwOnlyOnce();
  }
}
