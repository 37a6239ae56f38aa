/** Path-prefix routing helpers: a backend service's prefix match and the public path list. */
module Routes {
  import opened JavaLang
  import opened Strings

  /** A backend service behind the gateway; all fields are final. */
  datatype BackendService = BackendService(serviceId: string, url: string, pathPrefix: string, displayName: string)
  {
    /** `matchesPath(path)`: a present path that starts with the prefix. */
    predicate MatchesPath(path: Option<string>)
    {
      path.Some? && StartsWith(path.value, pathPrefix)
    }
  }

  /**
   * A missing path never matches; a present one matches exactly when it is the prefix followed
   * by anything, with no regard for segment boundaries, so an empty prefix matches every path.
   */
  lemma MatchesPathCases(service: BackendService, path: string, suffix: string)
    ensures !service.MatchesPath(None)
    ensures service.MatchesPath(Some(service.pathPrefix + suffix))
    ensures service.MatchesPath(Some(path)) ==> path == service.pathPrefix + path[|service.pathPrefix|..]
    ensures service.pathPrefix == [] ==> service.MatchesPath(Some(path))
  {
    assert (service.pathPrefix + suffix)[..|service.pathPrefix|] == service.pathPrefix;
  }

  /** `/api/servicex` matches the prefix `/api/service`. */
  lemma NoSegmentBoundary(serviceId: string, url: string, displayName: string)
    ensures BackendService(serviceId, url, "/api/service", displayName).MatchesPath(Some("/api/servicex"))
  {
    MatchesPathCases(BackendService(serviceId, url, "/api/service", displayName), "", "x");
  }

  const REGISTER_PATH: string := "/api/auth/register"
  const LOGIN_PATH: string := "/api/auth/login"
  const PUBLIC_PATHS: seq<string> := [REGISTER_PATH, LOGIN_PATH]

  /** `prefixes.stream().anyMatch(path::startsWith)`. */
  function AnyPrefix(prefixes: seq<string>, path: string): (b: bool)
    ensures b <==> exists i :: 0 <= i < |prefixes| && StartsWith(path, prefixes[i])
  {
    if prefixes == [] then false
    else StartsWith(path, prefixes[0]) || AnyPrefix(prefixes[1..], path)
  }

  /** `isPublicPath(path)`: some public path is a prefix of `path`. */
  function IsPublicPath(path: string): (b: bool)
    ensures b <==> StartsWith(path, REGISTER_PATH) || StartsWith(path, LOGIN_PATH)
  {
    assert PUBLIC_PATHS[0] == REGISTER_PATH && PUBLIC_PATHS[1] == LOGIN_PATH;
    AnyPrefix(PUBLIC_PATHS, path)
  }

  /** The login and register paths are public; their parent and a sibling are not. */
  lemma PublicPathExamples()
    ensures IsPublicPath("/api/auth/login") && IsPublicPath("/api/auth/register")
    ensures !IsPublicPath("/api/auth") && !IsPublicPath("/api/auth/logout")
    ensures IsPublicPath("/api/auth/loginx")
  {
    assert "/api/auth/logout"[13] != LOGIN_PATH[13];
    assert "/api/auth/logout"[10] != REGISTER_PATH[10];
    assert "/api/auth/loginx"[..|LOGIN_PATH|] == LOGIN_PATH;
  }

  /** Extending a public path keeps it public. */
  lemma PublicPathMonotone(path: string, suffix: string)
    requires IsPublicPath(path)
    ensures IsPublicPath(path + suffix)
  {
    if StartsWith(path, REGISTER_PATH) {
      StartsWithExtend(path, REGISTER_PATH, suffix);
    } else {
      StartsWithExtend(path, LOGIN_PATH, suffix);
    }
  }
}
