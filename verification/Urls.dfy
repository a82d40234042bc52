/**
 `buildURL` and the base-path handling around it, with Go's `path.Clean`.
 */
module Urls {
  import opened Options
  import opened GoStrings
  import opened PathUtil

  const DEFAULT_API_BASE_PATH := "/api/v1"

  // ------------------------------------------------------------------ path.Clean

  /** What `path.Clean` does with one segment. */
  function CleanStep(stack: seq<string>, seg: string, rooted: bool): seq<string> {
    if seg == "" || seg == "." then stack
    else if seg == ".." then
      if stack != [] && stack[|stack| - 1] != ".." then stack[..|stack| - 1]
      else if rooted then stack
      else stack + [seg]
    else stack + [seg]
  }

  function CleanOnto(stack: seq<string>, segs: seq<string>, rooted: bool): seq<string>
    decreases |segs|
  {
    if segs == [] then stack
    else CleanOnto(CleanStep(stack, segs[0], rooted), segs[1..], rooted)
  }

  function Clean(path: string): string {
    if path == "" then "."
    else
      var rooted := path[0] == '/';
      var segs := CleanOnto([], Split(path, '/'), rooted);
      if rooted then "/" + Join(segs, '/')
      else if segs == [] then "." else Join(segs, '/')
  }

  /** `path.Join` of two elements. */
  function JoinPath(a: string, b: string): string {
    if a == "" && b == "" then ""
    else if a == "" then Clean(b)
    else if b == "" then Clean(a)
    else Clean(a + "/" + b)
  }

  lemma {:induction false} CleanConcat(stack: seq<string>, a: seq<string>, b: seq<string>, rooted: bool)
    ensures CleanOnto(stack, a + b, rooted) == CleanOnto(CleanOnto(stack, a, rooted), b, rooted)
    decreases |a|
  {
    if a == [] {
      assert a + b == b;
    } else {
      assert (a + b)[1..] == a[1..] + b;
      CleanConcat(CleanStep(stack, a[0], rooted), a[1..], b, rooted);
    }
  }

  lemma {:induction false} CleanPlain(stack: seq<string>, segs: seq<string>, rooted: bool)
    requires AllPlain(segs)
    ensures CleanOnto(stack, segs, rooted) == stack + segs
    decreases |segs|
  {
    if segs == [] {
    } else {
      CleanPlain(stack + [segs[0]], segs[1..], rooted);
      assert stack + [segs[0]] + segs[1..] == stack + segs;
    }
  }

  lemma {:induction false} RootedCleanIsPlain(stack: seq<string>, segs: seq<string>)
    requires AllPlain(stack) && forall i :: 0 <= i < |segs| ==> Lacks(segs[i], '/')
    ensures AllPlain(CleanOnto(stack, segs, true))
    decreases |segs|
  {
    if segs == [] {
    } else {
      RootedCleanIsPlain(CleanStep(stack, segs[0], true), segs[1..]);
    }
  }

  /** The segments of a rooted path after cleaning. */
  function CleanSegments(path: string): seq<string> {
    CleanOnto([], Split(path, '/'), true)
  }

  lemma CleanSegmentsArePlain(path: string)
    ensures AllPlain(CleanSegments(path))
  {
    SplitPartsLackSeparator(path, '/');
    RootedCleanIsPlain([], Split(path, '/'));
  }

  lemma {:induction false} SplitOfConcat(a: string, b: string)
    ensures Split(a + "/" + b, '/') == Split(a, '/') + Split(b, '/')
    decreases |a|
  {
    var s := a + "/" + b;
    if a == "" {
      assert s[1..] == b;
    } else {
      assert s[1..] == a[1..] + "/" + b;
      SplitOfConcat(a[1..], b);
      PrependToConcat(a[0], Split(a[1..], '/'), Split(b, '/'));
    }
  }

  lemma PrependToConcat(c: char, x: seq<string>, y: seq<string>)
    requires |x| >= 1
    ensures PrependByte(c, x + y, '/') == PrependByte(c, x, '/') + y
  {
    assert (x + y)[1..] == x[1..] + y;
  }

  /** Appending plain segments under a rooted base only cleans the base. */
  lemma JoinUnderBase(base: string, segs: seq<string>)
    requires HasPrefix(base, "/") && segs != [] && AllPlain(segs)
    ensures JoinPath(base, "/" + Join(segs, '/')) == "/" + Join(CleanSegments(base) + segs, '/')
  {
    var b := "/" + Join(segs, '/');
    SplitOfConcat(base, b);
    SplitOfRooted(segs);
    CleanConcat([], Split(base, '/'), [""] + segs, true);
    var stack := CleanSegments(base);
    assert ([""] + segs)[1..] == segs;
    CleanPlain(stack, segs, true);
    assert (base + "/" + b)[0] == '/';
  }

  // -------------------------------------------------------------------- buildURL

  datatype Config = Config(baseUrl: string, apiBasePath: string, basePath: string)

  /** `cleanBasePath`. */
  function CleanBasePath(v: string): string {
    var t := TrimSpace(v);
    if t == "" then DEFAULT_API_BASE_PATH
    else TrimRight(if HasPrefix(t, "/") then t else "/" + t, '/')
  }

  const ROOT_ROUTES: seq<string> := [
    "/health", "/ready", "/version", "/metrics", "/docs", "/.well-known", "/scim", "/oid4vci",
    "/oauth", "/auth/token", "/cli/device", "/dpop", "/pam"]

  predicate AtOrUnder(path: string, prefix: string) {
    path == prefix || HasPrefix(path, prefix + "/")
  }

  predicate IsRootRoute(path: string) {
    exists i :: 0 <= i < |ROOT_ROUTES| && AtOrUnder(path, ROOT_ROUTES[i])
  }

  function EffectiveBasePath(cfg: Config): string {
    var configured := if cfg.apiBasePath == "" then CleanBasePath(cfg.basePath) else cfg.apiBasePath;
    if configured == "" then DEFAULT_API_BASE_PATH else configured
  }

  /** The request path once trimmed and rooted; `None` for an absolute URL. */
  function RootedRequestPath(requestPath: string): Option<string> {
    var t := TrimSpace(requestPath);
    var p := if t == "" then "/" else t;
    if HasPrefix(p, "http://") || HasPrefix(p, "https://") then None
    else if HasPrefix(p, "/") then Some(p) else Some("/" + p)
  }

  function StripV1(p: string): string {
    if p == "/v1" then "/"
    else if HasPrefix(p, "/v1/") then p[3..]
    else p
  }

  /** The path part `buildURL` appends to the base URL. */
  function UrlPath(base: string, p: string): string {
    if AtOrUnder(p, base) || IsRootRoute(p) then p
    else JoinPath(base, StripV1(p))
  }

  function BuildUrl(cfg: Config, requestPath: string): Option<string> {
    match RootedRequestPath(requestPath)
    case None => None
    case Some(p) => Some(cfg.baseUrl + UrlPath(EffectiveBasePath(cfg), p))
  }

  /** Only an absolute URL is refused. */
  lemma AbsoluteIsRefused(cfg: Config, requestPath: string)
    ensures BuildUrl(cfg, requestPath).None?
       <==> HasPrefix(TrimSpace(requestPath), "http://") || HasPrefix(TrimSpace(requestPath), "https://")
  {
  }

  lemma RootRoutesNotUnderV1(p: string)
    requires AtOrUnder(p, "/v1")
    ensures !IsRootRoute(p)
  {
    assert p[1] == 'v' && p[2] == '1';
    forall i | 0 <= i < |ROOT_ROUTES| ensures !AtOrUnder(p, ROOT_ROUTES[i]) {
      assert ROOT_ROUTES[i][1] != 'v' || ROOT_ROUTES[i][2] != '1';
    }
  }

  /** A usable base path: rooted, with no trailing slash, as `cleanBasePath` leaves it. */
  predicate GoodBase(base: string) {
    HasPrefix(base, "/") && base != "/" && base[|base| - 1] != '/'
  }

  lemma NotAtBase(base: string, rest: string)
    requires GoodBase(base) && !AtOrUnder(base, "/v1") && HasPrefix(rest, "/")
    ensures !AtOrUnder("/v1" + rest, base)
  {
    var p := "/v1" + rest;
    assert p[..4] == "/v1/";
    assert |base| == 2 ==> (base + "/")[2] != p[2];
    assert |base| == 3 ==> base != p[..3];
    assert |base| > 3 ==> base[..4] != p[..4];
  }

  // ---------------------------------------------- KV endpoints come back unharmed

  predicate AllGraphic(s: string) {
    forall j :: 0 <= j < |s| ==> Graphic(s[j])
  }

  lemma {:induction false} JoinedIsGraphic(segs: seq<string>)
    requires segs != []
    requires forall i :: 0 <= i < |segs| ==> segs[i] != "" && AllGraphic(segs[i])
    ensures Join(segs, '/') != "" && AllGraphic(Join(segs, '/'))
  {
    assert AllGraphic(segs[0]);
    if |segs| > 1 {
      JoinedIsGraphic(segs[1..]);
    }
  }

  lemma KvListIsGraphic(engine: string, parts: seq<string>)
    requires AllGraphic(engine) && forall i :: 0 <= i < |parts| ==> AllGraphic(parts[i])
    ensures forall i :: 0 <= i < |KvList(engine, parts)| ==> AllGraphic(KvList(engine, parts)[i])
  {
  }

  lemma KvIsGraphic(engine: string, secretPath: string)
    requires IsBytes(engine) && IsBytes(secretPath) && KvDataEndpoint(engine, secretPath).Ok?
    ensures var j := Join(KvSegments(engine, secretPath), '/');
            j != "" && Graphic(j[|j| - 1])
  {
    var parts := SlashSegments(secretPath);
    KvSegmentsArePlain(engine, secretPath);
    EscapeIsGraphic(TrimSpace(engine));
    forall i | 0 <= i < |parts| ensures AllGraphic(EscapeAll(parts)[i]) {
      EscapeIsGraphic(parts[i]);
    }
    KvListIsGraphic(PathEscape(TrimSpace(engine)), EscapeAll(parts));
    JoinedIsGraphic(KvSegments(engine, secretPath));
  }

  lemma {:induction false} V1Joined(segs: seq<string>)
    requires segs != []
    ensures "/v1/" + Join(segs, '/') == "/" + Join(["v1"] + segs, '/')
  {
    assert (["v1"] + segs)[0] == "v1" && (["v1"] + segs)[1..] == segs;
    assert "/" + ("v1" + "/" + Join(segs, '/')) == "/v1/" + Join(segs, '/');
  }

  lemma {:induction false} V1Clean()
    ensures CleanSegments("/v1") == ["v1"]
  {
    SplitOfRooted(["v1"]);
    assert "/" + "v1" == "/v1" && [""] + ["v1"] == ["", "v1"];
    assert ["", "v1"][1..] == ["v1"] && ["v1"][1..] == [];
  }

  lemma {:induction false} V1Segments(segs: seq<string>)
    requires segs != []
    ensures CleanSegments("/v1") == ["v1"]
    ensures "/v1/" + Join(segs, '/') == "/" + Join(["v1"] + segs, '/')
  {
    V1Clean();
    V1Joined(segs);
  }

  lemma RootedKeeps(p: string)
    requires HasPrefix(p, "/") && TrimSpace(p) == p
    ensures RootedRequestPath(p) == Some(p)
  {
    assert p[0] == '/' && "http://"[0] == 'h' && "https://"[0] == 'h';
  }

  // ------------------------------------------------- the three spellings of a route

  lemma CleanRouteSegments(p: string)
    requires HasPrefix(p, "/") && p != "/" && Clean(p) == p
    ensures CleanSegments(p) != [] && AllPlain(CleanSegments(p))
    ensures p == "/" + Join(CleanSegments(p), '/')
  {
    CleanSegmentsArePlain(p);
    assert CleanSegments(p) == [] ==> Clean(p) == "/" + "" == "/";
  }

  lemma {:induction false} PlainJoinEnds(segs: seq<string>)
    requires segs != [] && AllPlain(segs)
    ensures var j := Join(segs, '/'); j != "" && j[0] != '/' && j[|j| - 1] != '/'
  {
    if |segs| > 1 {
      PlainJoinEnds(segs[1..]);
    }
  }

  lemma TrimKeepsSuffix(head: string, p: string)
    requires HasPrefix(head, "/") && HasPrefix(p, "/") && TrimSpace(p) == p
    ensures TrimSpace(head + p) == head + p
  {
    assert LeadingSpace(p) == 0;
    assert TrailingSpace(p) == 0;
    var s := head + p;
    assert s[0] == '/';
    assert LeadingSpace(s) == 0;
    assert |p| >= 1 && s[|head|] == '/';
    assert s[|s| - 1] == p[|p| - 1];
    assert |p| >= 2 ==> s[|s| - 2] == p[|p| - 2];
    assert |p| >= 3 ==> s[|s| - 3] == p[|p| - 3];
    assert TrailingSpace(s) == 0;
  }

  /** A route the three-spellings law is about. */
  predicate CleanRoute(base: string, p: string) {
    && HasPrefix(p, "/") && p != "/" && Clean(p) == p && TrimSpace(p) == p
    && !AtOrUnder(p, "/v1") && !AtOrUnder(p, base) && !IsRootRoute(p)
  }

  predicate CleanBase(base: string) {
    HasPrefix(base, "/") && base != "/" && Clean(base) == base && TrimSpace(base) == base && !AtOrUnder(base, "/v1")
  }

  lemma JoinCleanRoute(base: string, p: string)
    requires HasPrefix(base, "/") && base != "/" && Clean(base) == base
    requires HasPrefix(p, "/") && p != "/" && Clean(p) == p
    ensures JoinPath(base, p) == base + p && GoodBase(base)
  {
    CleanRouteSegments(base);
    CleanRouteSegments(p);
    var b, s := CleanSegments(base), CleanSegments(p);
    JoinUnderBase(base, s);
    JoinOfConcat(b, s, '/');
    assert "/" + (Join(b, '/') + "/" + Join(s, '/')) == base + p;
    PlainJoinEnds(b);
    assert base[|base| - 1] == Join(b, '/')[|Join(b, '/')| - 1];
  }

  lemma V1Spelling(base: string, p: string)
    requires GoodBase(base) && !AtOrUnder(base, "/v1") && HasPrefix(p, "/")
    ensures UrlPath(base, "/v1" + p) == JoinPath(base, p)
  {
    var v := "/v1" + p;
    assert p[..1] == "/";
    assert v[..4] == "/v1/" && v[3..] == p;
    NotAtBase(base, p);
    RootRoutesNotUnderV1(v);
  }

  lemma BaseSpelling(base: string, p: string)
    requires HasPrefix(p, "/")
    ensures UrlPath(base, base + p) == base + p
  {
    assert (base + p)[..|base| + 1] == base + "/";
  }

  lemma SpellingPaths(base: string, p: string)
    requires CleanBase(base) && CleanRoute(base, p)
    ensures UrlPath(base, p) == UrlPath(base, "/v1" + p) == UrlPath(base, base + p) == base + p
  {
    JoinCleanRoute(base, p);
    V1Spelling(base, p);
    BaseSpelling(base, p);
  }

  /** `p`, `/v1` + `p` and base path + `p` all name one URL, and that URL's path names itself. */
  lemma RouteSpellings(cfg: Config, p: string)
    requires CleanBase(EffectiveBasePath(cfg)) && CleanRoute(EffectiveBasePath(cfg), p)
    ensures var url := Some(cfg.baseUrl + (EffectiveBasePath(cfg) + p));
            && BuildUrl(cfg, p) == url
            && BuildUrl(cfg, "/v1" + p) == url
            && BuildUrl(cfg, EffectiveBasePath(cfg) + p) == url
  {
    var base := EffectiveBasePath(cfg);
    SpellingPaths(base, p);
    TrimKeepsSuffix("/v1", p);
    TrimKeepsSuffix(base, p);
    RootedKeeps(p);
    RootedKeeps("/v1" + p);
    RootedKeeps(base + p);
  }

  lemma DefaultBaseIsClean()
    ensures CleanBase(DEFAULT_API_BASE_PATH)
    ensures CleanSegments(DEFAULT_API_BASE_PATH) == ["api", "v1"]
  {
    var segs := ["api", "v1"];
    assert Join(["v1"], '/') == "v1";
    assert segs[1..] == ["v1"];
    assert "/" + Join(segs, '/') == DEFAULT_API_BASE_PATH;
    assert AllPlain(segs);
    RootedPlainIsClean(segs);
    TrimSpaceKeepsGraphic(DEFAULT_API_BASE_PATH);
    assert DEFAULT_API_BASE_PATH[1] == 'a';
  }

  lemma RootedPlainIsClean(segs: seq<string>)
    requires segs != [] && AllPlain(segs)
    ensures var p := "/" + Join(segs, '/'); CleanSegments(p) == segs && Clean(p) == p
  {
    SplitOfRooted(segs);
    assert ([""] + segs)[1..] == segs;
    CleanPlain([], segs, true);
  }

  // --------------------------------------------------------------- normalizeBase

  /** `normalizeBase` on the path part of the base URL. */
  function NormalizeBasePathOf(urlPath: string, base: string): string {
    var p := TrimRight(urlPath, '/');
    if HasSuffix(p, base) then TrimRight(p[..|p| - |base|], '/') else p
  }

  /**
   A base URL that already ends in the API path normalises like the one without it,
   exactly when the shorter one does not end in that path already.
   */
  lemma {:induction false} BaseUrlWithApiPath(urlPath: string, base: string)
    requires GoodBase(base)
    ensures NormalizeBasePathOf(urlPath + base, base) == NormalizeBasePathOf(urlPath, base)
       <==> !HasSuffix(TrimRight(urlPath, '/'), base)
  {
    ApiPathStripped(urlPath, base);
    var p := TrimRight(urlPath, '/');
    assert HasSuffix(p, base) ==> |TrimRight(p[..|p| - |base|], '/')| < |p|;
  }

  lemma {:induction false} ApiPathStripped(urlPath: string, base: string)
    requires GoodBase(base)
    ensures NormalizeBasePathOf(urlPath + base, base) == TrimRight(urlPath, '/')
  {
    var q := urlPath + base;
    assert q[|q| - 1] == base[|base| - 1] != '/';
    assert TrimRight(q, '/') == q;
    assert q[|q| - |base|..] == base && q[..|q| - |base|] == urlPath;
  }

  // -------------------------------------------------------------- a base under /v1

  lemma KvListConcat(e: string, p: seq<string>, q: seq<string>)
    ensures KvList(e, p + q) == KvList(e, p) + q
  {
  }

  lemma BaseSegments(segs: seq<string>)
    requires segs != [] && AllPlain(segs)
    ensures CleanSegments("/v1/" + Join(segs, '/')) == ["v1"] + segs
  {
    V1Segments(segs);
    RootedPlainIsClean(["v1"] + segs);
  }

  lemma LongPathVerbatim(k1: seq<string>, k2: seq<string>)
    requires k1 != [] && k2 != []
    ensures var base, long := "/v1/" + Join(k1, '/'), "/v1/" + Join(k1 + k2, '/');
            UrlPath(base, long) == "/" + Join(["v1"] + (k1 + k2), '/')
  {
    var base, long := "/v1/" + Join(k1, '/'), "/v1/" + Join(k1 + k2, '/');
    JoinOfConcat(k1, k2, '/');
    assert long == base + "/" + Join(k2, '/');
    V1Segments(k1 + k2);
  }

  lemma ShortPathAppended(base: string, k2: seq<string>)
    requires HasPrefix(base, "/") && k2 != [] && AllPlain(k2)
    requires !AtOrUnder("/v1/" + Join(k2, '/'), base)
    ensures UrlPath(base, "/v1/" + Join(k2, '/')) == "/" + Join(CleanSegments(base) + k2, '/')
  {
    var p, rest := "/v1/" + Join(k2, '/'), "/" + Join(k2, '/');
    assert p[..4] == "/v1/" && p[3..] == rest;
    RootRoutesNotUnderV1(p);
    JoinUnderBase(base, k2);
  }

  lemma CollidingPaths(k1: seq<string>, k2: seq<string>)
    requires k1 != [] && k2 != [] && AllPlain(k1) && AllPlain(k2)
    requires !AtOrUnder("/v1/" + Join(k2, '/'), "/v1/" + Join(k1, '/'))
    ensures var base := "/v1/" + Join(k1, '/');
            UrlPath(base, "/v1/" + Join(k1 + k2, '/')) == UrlPath(base, "/v1/" + Join(k2, '/'))
  {
    LongPathVerbatim(k1, k2);
    ShortPathUnderK1(k1, k2);
  }

  lemma BaseAndMore(k1: seq<string>, k2: seq<string>)
    requires k1 != [] && AllPlain(k1)
    ensures CleanSegments("/v1/" + Join(k1, '/')) + k2 == ["v1"] + (k1 + k2)
  {
    BaseSegments(k1);
  }

  lemma ShortPathUnderK1(k1: seq<string>, k2: seq<string>)
    requires k1 != [] && k2 != [] && AllPlain(k1) && AllPlain(k2)
    requires !AtOrUnder("/v1/" + Join(k2, '/'), "/v1/" + Join(k1, '/'))
    ensures UrlPath("/v1/" + Join(k1, '/'), "/v1/" + Join(k2, '/')) == "/" + Join(["v1"] + (k1 + k2), '/')
  {
    BaseAndMore(k1, k2);
    ShortPathAppended("/v1/" + Join(k1, '/'), k2);
  }

  // ----------------------------------------------------- what buildURL makes of any route

  /** The routes that live beside the API, not under it. */
  predicate BesideTheApi(p: string) {
    || AtOrUnder(p, "/health") || AtOrUnder(p, "/ready") || AtOrUnder(p, "/version") || AtOrUnder(p, "/metrics")
    || AtOrUnder(p, "/docs") || AtOrUnder(p, "/.well-known") || AtOrUnder(p, "/scim") || AtOrUnder(p, "/oid4vci")
    || AtOrUnder(p, "/oauth") || AtOrUnder(p, "/auth/token") || AtOrUnder(p, "/cli/device") || AtOrUnder(p, "/dpop")
    || AtOrUnder(p, "/pam")
  }

  lemma RootRoutesExactly(p: string)
    ensures IsRootRoute(p) <==> BesideTheApi(p)
  {
    assert ROOT_ROUTES[0] == "/health" && ROOT_ROUTES[1] == "/ready" && ROOT_ROUTES[2] == "/version";
    assert ROOT_ROUTES[3] == "/metrics" && ROOT_ROUTES[4] == "/docs" && ROOT_ROUTES[5] == "/.well-known";
    assert ROOT_ROUTES[6] == "/scim" && ROOT_ROUTES[7] == "/oid4vci" && ROOT_ROUTES[8] == "/oauth";
    assert ROOT_ROUTES[9] == "/auth/token" && ROOT_ROUTES[10] == "/cli/device" && ROOT_ROUTES[11] == "/dpop";
    assert ROOT_ROUTES[12] == "/pam" && |ROOT_ROUTES| == 13;
  }

  /** A route without the version it may begin with. */
  function WithoutV1(p: string): string {
    if AtOrUnder(p, "/v1") && |p| >= 3 then p[3..] else p
  }

  lemma {:induction false} StripV1Segments(stack: seq<string>, p: string)
    ensures CleanOnto(stack, Split(StripV1(p), '/'), true) == CleanOnto(stack, Split(WithoutV1(p), '/'), true)
  {
    if p == "/v1" {
      assert StripV1(p) == "/" && WithoutV1(p) == "";
      assert "/"[1..] == "" && Split("/", '/') == ["", ""] && Split("", '/') == [""];
      assert ["", ""][1..] == [""] && [""][1..] == [];
      assert CleanOnto(stack, [""], true) == CleanOnto(stack, [], true) == stack;
    }
  }

  lemma {:induction false} JoinCleans(base: string, q: string)
    requires HasPrefix(base, "/")
    ensures JoinPath(base, q) == "/" + Join(CleanOnto(CleanSegments(base), Split(q, '/'), true), '/')
  {
    if q == "" {
      assert Split("", '/') == [""] && [""][1..] == [];
      assert CleanOnto(CleanSegments(base), [""], true) == CleanSegments(base);
    } else {
      SplitOfConcat(base, q);
      CleanConcat([], Split(base, '/'), Split(q, '/'), true);
      assert (base + "/" + q)[0] == '/';
    }
  }

  lemma {:induction false} UrlPathExactly(base: string, p: string)
    requires HasPrefix(base, "/")
    ensures UrlPath(base, p)
         == if AtOrUnder(p, base) || BesideTheApi(p) then p
            else "/" + Join(CleanOnto(CleanSegments(base), Split(WithoutV1(p), '/'), true), '/')
  {
    RootRoutesExactly(p);
    if !AtOrUnder(p, base) && !BesideTheApi(p) {
      JoinCleans(base, StripV1(p));
      StripV1Segments(CleanSegments(base), p);
    }
  }

  /**
   Every rooted and trimmed route: one at or under the base path, or beside the API, goes to the base URL as it is;
   any other loses its version, and its segments are cleaned onto those of the base path.
   */
  lemma {:induction false} BuildUrlExactly(cfg: Config, p: string)
    requires HasPrefix(p, "/") && TrimSpace(p) == p && HasPrefix(EffectiveBasePath(cfg), "/")
    ensures var base := EffectiveBasePath(cfg);
            BuildUrl(cfg, p)
            == Some(cfg.baseUrl
                    + if AtOrUnder(p, base) || BesideTheApi(p) then p
                      else "/" + Join(CleanOnto(CleanSegments(base), Split(WithoutV1(p), '/'), true), '/'))
  {
    RootedKeeps(p);
    UrlPathExactly(EffectiveBasePath(cfg), p);
  }

  /** Cleaning drops empty segments and dots, lets two dots take the segment before them, and stops at the root. */
  lemma {:induction false} CleanCancels(stack: seq<string>, seg: string, rest: seq<string>)
    ensures CleanOnto(stack, ["."] + rest, true) == CleanOnto(stack, [""] + rest, true) == CleanOnto(stack, rest, true)
    ensures Plain(seg) ==> CleanOnto(stack, [seg, ".."] + rest, true) == CleanOnto(stack, rest, true)
    ensures CleanOnto([], [".."] + rest, true) == CleanOnto([], rest, true)
  {
    assert (["."] + rest)[1..] == rest && ([""] + rest)[1..] == rest && ([".."] + rest)[1..] == rest;
    if Plain(seg) {
      assert ([seg, ".."] + rest)[1..] == [".."] + rest;
      assert (stack + [seg])[..|stack|] == stack;
    }
  }

  lemma {:induction false} RootedIsTrimmed(t: string)
    requires LeadingSpace(t) == 0 && TrailingSpace(t) == 0
    ensures TrimSpace("/" + t) == "/" + t
  {
    var s := "/" + t;
    assert s[0] == '/' && LeadingSpace(s) == 0;
    assert |t| >= 1 ==> s[|s| - 1] == t[|t| - 1];
    assert |t| >= 2 ==> s[|s| - 2] == t[|t| - 2];
    assert |t| >= 3 ==> s[|s| - 3] == t[|t| - 3];
    assert TrailingSpace(s) == 0;
  }

  /** Space around a route and a missing slash before it do not matter. */
  lemma {:induction false} UrlOfSpelling(cfg: Config, requestPath: string)
    requires BuildUrl(cfg, requestPath).Some?
    ensures var t := TrimSpace(requestPath);
            var p := if HasPrefix(t, "/") then t else "/" + t;
            TrimSpace(p) == p && BuildUrl(cfg, requestPath) == BuildUrl(cfg, p)
  {
    var t := TrimSpace(requestPath);
    var p := if HasPrefix(t, "/") then t else "/" + t;
    TrimSpaceTrims(requestPath);
    if HasPrefix(t, "/") {
      assert TrimSpace(t) == t;
    } else {
      RootedIsTrimmed(t);
    }
    RootedKeeps(p);
    assert t == "" ==> p == "/";
  }

  /** A configured base path is taken as it is, but for slashes after it; without one it is the default. */
  lemma {:induction false} CleanBasePathExactly(base: string)
    requires GoodBase(base) && TrimSpace(base) == base
    ensures CleanBasePath(base) == base && CleanBasePath(base + "/") == base && CleanBasePath("") == "/api/v1"
  {
    var slashed := base + "/";
    assert slashed[..|base|] == base && slashed[|base|] == '/' && Graphic('/') && slashed[0] == '/';
    TrimSpaceKeepsGraphic(slashed);
    assert TrimRight(base, '/') == base;
    assert TrimRight(slashed, '/') == TrimRight(slashed[..|slashed| - 1], '/');
    assert TrimSpace("") == "";
  }

  /** The API base path is the one that counts; the older setting is a fallback, and the default the last one. */
  lemma BasePathChosen(cfg: Config)
    ensures cfg.apiBasePath != "" ==> EffectiveBasePath(cfg) == cfg.apiBasePath
    ensures cfg.apiBasePath == "" && CleanBasePath(cfg.basePath) != "" ==>
              EffectiveBasePath(cfg) == CleanBasePath(cfg.basePath)
    ensures cfg.apiBasePath == "" && CleanBasePath(cfg.basePath) == "" ==> EffectiveBasePath(cfg) == "/api/v1"
  {
  }
}
