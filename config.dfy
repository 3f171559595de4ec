/** The start-up resolution of `API_BASE_URL` in js/config.js. */
module Config {
  import opened Js

  /** The parts of `location` the rule reads. */
  datatype Location = Location(hostname: string, port: string, protocol: string)

  /** The local Flask backend used from a development server. */
  const LocalBackend := "http://127.0.0.1:5000"

  predicate IsLoopbackHost(loc: Location)
  {
    loc.hostname == "127.0.0.1" || loc.hostname == "localhost"
  }

  /** The page is served from the loopback host by the live-reload server (port 5500) or as a file. */
  predicate IsLocalDevPage(loc: Location)
  {
    IsLoopbackHost(loc) && (loc.port == "5500" || loc.protocol == "file:")
  }

  /** `s.replace(/\/$/, "")`: removes one trailing slash, if there is one. */
  function StripTrailingSlash(s: string): (r: string)
    ensures |s| > 0 && s[|s| - 1] == '/' ==> r == s[..|s| - 1]
    ensures (|s| == 0 || s[|s| - 1] != '/') ==> r == s
    ensures |r| + 1 >= |s| && r == s[..|r|]
  {
    if |s| > 0 && s[|s| - 1] == '/' then s[..|s| - 1] else s
  }

  /** Exactly one slash is removed: `x + "/"` becomes `x`, whatever `x` ends with. */
  lemma StripOneSlash(x: string)
    ensures StripTrailingSlash(x + "/") == x
  {
    assert (x + "/")[..|x|] == x;
  }

  /** The resolution sequence: same-origin "" by default, the local backend
      for a local development page, and a non-empty `api` query parameter
      (the first one, already URL-decoded) over both; "?api=" is ignored. */
  method ResolveApiBaseUrl(loc: Location, api: Option<string>) returns (base: string)
    ensures Truthy(api) ==> base == StripTrailingSlash(api.value)
    ensures !Truthy(api) && IsLocalDevPage(loc) ==> base == LocalBackend
    ensures !Truthy(api) && !IsLocalDevPage(loc) ==> base == ""
    ensures base == LocalBackend && !Truthy(api) ==> IsLoopbackHost(loc)
  {
    base := "";
    if loc.hostname == "127.0.0.1" || loc.hostname == "localhost" {
      if loc.port == "5500" || loc.protocol == "file:" {
        base := LocalBackend;
      }
    }
    if api.Some? && api.value != "" {
      base := StripTrailingSlash(api.value);
    }
  }
}
