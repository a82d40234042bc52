/**
 `pathutil.Segment`, `pathutil.SlashPath` and `kvDataEndpoint`: caller text percent-encoded
 into path segments (sections 2.1 and 3.3 of RFC 3986), with the decoder that undoes it.
 */
module PathUtil {
  import opened Options
  import opened GoStrings

  datatype PathResult = Ok(text: string) | Required | Invalid

  /** Every Go string is a sequence of bytes. */
  predicate IsBytes(s: string) {
    forall i :: 0 <= i < |s| ==> s[i] as int < 256
  }

  // ------------------------------------------------------------ percent-encoding

  /** The bytes `url.PathEscape` leaves alone. */
  predicate Unescaped(c: char) {
    || 'a' <= c <= 'z' || 'A' <= c <= 'Z' || '0' <= c <= '9'
    || c == '-' || c == '_' || c == '.' || c == '~' || c == '$'
    || c == '&' || c == '+' || c == '=' || c == ':' || c == '@'
  }

  function HexDigit(n: int): char
    requires 0 <= n < 16
  {
    if n < 10 then ('0' as int + n) as char else ('A' as int + n - 10) as char
  }

  function HexValue(c: char): Option<int> {
    if '0' <= c <= '9' then Some(c as int - '0' as int)
    else if 'A' <= c <= 'F' then Some(c as int - 'A' as int + 10)
    else if 'a' <= c <= 'f' then Some(c as int - 'a' as int + 10)
    else None
  }

  function EscapeByte(c: char): string {
    if Unescaped(c) then [c]
    else ['%', HexDigit(c as int / 16 % 16), HexDigit(c as int % 16)]
  }

  function PathEscape(s: string): string {
    if s == "" then "" else EscapeByte(s[0]) + PathEscape(s[1..])
  }

  /** `url.PathUnescape`: fails on a `%` that two hex digits do not follow. */
  function PathUnescape(s: string): Option<string>
    decreases |s|
  {
    if s == "" then Some("")
    else if s[0] != '%' then
      match PathUnescape(s[1..])
      case Some(rest) => Some([s[0]] + rest)
      case None => None
    else if |s| < 3 || HexValue(s[1]).None? || HexValue(s[2]).None? then None
    else
      match PathUnescape(s[3..])
      case Some(rest) => Some([(HexValue(s[1]).value * 16 + HexValue(s[2]).value) as char] + rest)
      case None => None
  }

  lemma HexRoundTrip(n: int)
    requires 0 <= n < 16
    ensures HexValue(HexDigit(n)) == Some(n)
    ensures '0' <= HexDigit(n) <= '9' || 'A' <= HexDigit(n) <= 'F'
  {
  }

  lemma UnescapePlain(c: char, rest: string)
    requires c != '%' && PathUnescape(rest).Some?
    ensures PathUnescape([c] + rest) == Some([c] + PathUnescape(rest).value)
  {
    assert ([c] + rest)[1..] == rest;
  }

  lemma UnescapeHex(h: int, l: int, rest: string)
    requires 0 <= h < 16 && 0 <= l < 16 && PathUnescape(rest).Some?
    ensures PathUnescape(['%', HexDigit(h), HexDigit(l)] + rest)
            == Some([(h * 16 + l) as char] + PathUnescape(rest).value)
  {
    HexRoundTrip(h);
    HexRoundTrip(l);
    assert (['%', HexDigit(h), HexDigit(l)] + rest)[3..] == rest;
  }

  lemma UnescapeOne(c: char, rest: string)
    requires c as int < 256 && PathUnescape(rest).Some?
    ensures PathUnescape(EscapeByte(c) + rest) == Some([c] + PathUnescape(rest).value)
  {
    if Unescaped(c) {
      UnescapePlain(c, rest);
    } else {
      var h, l := c as int / 16, c as int % 16;
      assert h % 16 == h && h * 16 + l == c as int;
      UnescapeHex(h, l, rest);
      assert EscapeByte(c) == ['%', HexDigit(h), HexDigit(l)];
    }
  }

  /** The punctuation a path segment may hold as it is. */
  const PLAIN_PUNCTUATION := "-_.~$&+=:@"

  /** Letters, digits and that punctuation stand for themselves; every other byte becomes three, in upper-case hex. */
  lemma EscapeExactly(c: char)
    ensures var e := EscapeByte(c);
            if 'a' <= c <= 'z' || 'A' <= c <= 'Z' || '0' <= c <= '9' || c in PLAIN_PUNCTUATION then e == [c]
            else && |e| == 3 && e[0] == '%'
                 && forall i :: 1 <= i < 3 ==> '0' <= e[i] <= '9' || 'A' <= e[i] <= 'F'
  {
    var p := PLAIN_PUNCTUATION;
    assert p[0] == '-' && p[1] == '_' && p[2] == '.' && p[3] == '~' && p[4] == '$';
    assert p[5] == '&' && p[6] == '+' && p[7] == '=' && p[8] == ':' && p[9] == '@' && |p| == 10;
    HexRoundTrip(c as int / 16 % 16);
    HexRoundTrip(c as int % 16);
  }

  /** Decoding undoes encoding, for every byte string. */
  lemma {:induction false} EscapeRoundTrip(s: string)
    requires IsBytes(s)
    ensures PathUnescape(PathEscape(s)) == Some(s)
  {
    if s == "" {
    } else {
      EscapeRoundTrip(s[1..]);
      UnescapeOne(s[0], PathEscape(s[1..]));
      assert s == [s[0]] + s[1..];
    }
  }

  /** Encoded text is printing ASCII without a slash. */
  lemma {:induction false} EscapeIsGraphic(s: string)
    ensures Lacks(PathEscape(s), '/')
    ensures forall i :: 0 <= i < |PathEscape(s)| ==> Graphic(PathEscape(s)[i])
    ensures s != "" ==> PathEscape(s) != ""
  {
    if s == "" {
    } else {
      EscapeIsGraphic(s[1..]);
      HexRoundTrip(s[0] as int / 16 % 16);
      HexRoundTrip(s[0] as int % 16);
      var e := EscapeByte(s[0]);
      assert forall i :: 0 <= i < |e| ==> e[i] != '/' && Graphic(e[i]);
    }
  }

  /** A segment that path cleaning leaves where it is. */
  predicate Plain(seg: string) {
    seg != "" && seg != "." && seg != ".." && Lacks(seg, '/')
  }

  lemma EscapedIsPlain(s: string)
    requires IsBytes(s) && s != "" && s != "." && s != ".."
    ensures Plain(PathEscape(s))
  {
    EscapeIsGraphic(s);
    EscapeRoundTrip(s);
    UnescapeOne('.', "");
    UnescapeOne('.', ".");
    assert EscapeByte('.') + "" == "." && EscapeByte('.') + "." == "..";
  }

  // ----------------------------------------------------------- Segment, SlashPath

  function Segment(value: string): PathResult {
    var v := TrimSpace(value);
    if v == "" then Required
    else if v == "." || v == ".." || '/' in v then Invalid
    else Ok(PathEscape(v))
  }

  /** A trimmed part that may stand as a segment. */
  predicate GoodPart(p: string) {
    p != "" && p != "." && p != ".."
  }

  function TrimAll(parts: seq<string>): (r: seq<string>)
    ensures |r| == |parts|
  {
    seq(|parts|, i requires 0 <= i < |parts| => TrimSpace(parts[i]))
  }

  function EscapeAll(parts: seq<string>): (r: seq<string>)
    ensures |r| == |parts|
  {
    seq(|parts|, i requires 0 <= i < |parts| => PathEscape(parts[i]))
  }

  /** The segments a slash path stands for: split at the slashes, each one trimmed. */
  function SlashSegments(value: string): seq<string> {
    TrimAll(Split(Trim(value, '/'), '/'))
  }

  predicate AllGood(parts: seq<string>) {
    forall i :: 0 <= i < |parts| ==> GoodPart(parts[i])
  }

  /** The whole contract of `SlashPath`, without its loop. */
  function SlashPathSpec(value: string): PathResult {
    if TrimSpace(Trim(value, '/')) == "" then Required
    else if !AllGood(SlashSegments(value)) then Invalid
    else Ok(Join(EscapeAll(SlashSegments(value)), '/'))
  }

  /** The loop of `SlashPath`: trim, check and escape each part in turn. */
  method EscapeParts(parts: seq<string>) returns (ok: bool, escaped: seq<string>)
    ensures ok <==> AllGood(TrimAll(parts))
    ensures ok ==> escaped == EscapeAll(TrimAll(parts))
  {
    ghost var segs := TrimAll(parts);
    escaped := [];
    for i := 0 to |parts|
      invariant |escaped| == i
      invariant forall j :: 0 <= j < i ==> GoodPart(segs[j])
      invariant forall j :: 0 <= j < i ==> escaped[j] == PathEscape(segs[j])
    {
      var part := TrimSpace(parts[i]);
      assert segs[i] == part;
      if part == "" || part == "." || part == ".." {
        return false, [];
      }
      escaped := escaped + [PathEscape(part)];
    }
    ok := true;
  }

  method SlashPath(value: string) returns (r: PathResult)
    ensures r == SlashPathSpec(value)
  {
    var trimmed := Trim(value, '/');
    if TrimSpace(trimmed) == "" {
      return Required;
    }
    var ok, escaped := EscapeParts(Split(trimmed, '/'));
    r := if ok then Ok(Join(escaped, '/')) else Invalid;
  }

  /** `secrets.kvDataEndpoint`. */
  function KvDataEndpoint(engine: string, secretPath: string): PathResult {
    match Segment(engine)
    case Ok(e) =>
      (match SlashPathSpec(secretPath)
       case Ok(p) => Ok("/v1/secrets/" + e + "/data/" + p)
       case err => err)
    case err => err
  }

  // ----------------------------------------------------- what the endpoint encodes

  lemma {:induction false} TrimLeftSpaceIsBytes(s: string)
    requires IsBytes(s)
    ensures IsBytes(TrimLeftSpace(s))
    ensures forall c :: c in TrimLeftSpace(s) ==> c in s
    decreases |s|
  {
    if LeadingSpace(s) != 0 {
      TrimLeftSpaceIsBytes(s[LeadingSpace(s)..]);
    }
  }

  lemma {:induction false} TrimRightSpaceIsBytes(s: string)
    requires IsBytes(s)
    ensures IsBytes(TrimRightSpace(s))
    ensures forall c :: c in TrimRightSpace(s) ==> c in s
    decreases |s|
  {
    if TrailingSpace(s) != 0 {
      TrimRightSpaceIsBytes(s[..|s| - TrailingSpace(s)]);
    }
  }

  lemma TrimSpaceIsBytes(s: string)
    requires IsBytes(s)
    ensures IsBytes(TrimSpace(s))
    ensures forall c :: c in TrimSpace(s) ==> c in s
  {
    TrimLeftSpaceIsBytes(s);
    TrimRightSpaceIsBytes(TrimLeftSpace(s));
  }

  lemma {:induction false} TrimLeftIsSuffix(s: string, c: char)
    ensures forall x :: x in TrimLeft(s, c) ==> x in s
  {
    if s != "" && s[0] == c {
      TrimLeftIsSuffix(s[1..], c);
    }
  }

  lemma CharsAreBytes(s: string, t: string)
    requires IsBytes(s) && forall c :: c in t ==> c in s
    ensures IsBytes(t)
  {
    forall j | 0 <= j < |t| ensures t[j] as int < 256 {
      assert t[j] in s;
    }
  }

  lemma SlashSegmentsAreBytes(value: string)
    requires IsBytes(value)
    ensures forall i :: 0 <= i < |SlashSegments(value)| ==> IsBytes(SlashSegments(value)[i])
  {
    var t := Trim(value, '/');
    TrimLeftIsSuffix(value, '/');
    assert forall x :: x in t ==> x in value;
    SplitPartsLackSeparator(t, '/');
    var parts := Split(t, '/');
    forall i | 0 <= i < |parts| ensures IsBytes(TrimAll(parts)[i]) {
      CharsAreBytes(value, parts[i]);
      TrimSpaceIsBytes(parts[i]);
    }
  }

  predicate AllPlain(segs: seq<string>) {
    forall i :: 0 <= i < |segs| ==> Plain(segs[i])
  }

  function KvList(engine: string, parts: seq<string>): seq<string> {
    ["secrets", engine, "data"] + parts
  }

  /** The path segments the caller asked for, trimmed and escaped, after the leading `/v1`. */
  function KvSegments(engine: string, secretPath: string): seq<string> {
    KvList(PathEscape(TrimSpace(engine)), EscapeAll(SlashSegments(secretPath)))
  }

  lemma KvListIsPlain(engine: string, parts: seq<string>)
    requires Plain(engine) && AllPlain(parts)
    ensures AllPlain(KvList(engine, parts))
  {
  }

  lemma EscapedPartsArePlain(parts: seq<string>)
    requires AllGood(parts) && forall i :: 0 <= i < |parts| ==> IsBytes(parts[i])
    ensures AllPlain(EscapeAll(parts))
  {
    forall i | 0 <= i < |parts| ensures Plain(EscapeAll(parts)[i]) {
      assert GoodPart(parts[i]);
      EscapedIsPlain(parts[i]);
    }
  }

  lemma KvPartsAreGood(engine: string, secretPath: string)
    requires KvDataEndpoint(engine, secretPath).Ok?
    ensures GoodPart(TrimSpace(engine)) && AllGood(SlashSegments(secretPath))
  {
    assert Segment(engine).Ok? && SlashPathSpec(secretPath).Ok?;
  }

  lemma KvSegmentsArePlain(engine: string, secretPath: string)
    requires IsBytes(engine) && IsBytes(secretPath) && KvDataEndpoint(engine, secretPath).Ok?
    ensures AllPlain(KvSegments(engine, secretPath))
  {
    KvPartsAreGood(engine, secretPath);
    var e, parts := TrimSpace(engine), SlashSegments(secretPath);
    TrimSpaceIsBytes(engine);
    EscapedIsPlain(e);
    SlashSegmentsAreBytes(secretPath);
    EscapedPartsArePlain(parts);
    KvListIsPlain(PathEscape(e), EscapeAll(parts));
  }

  lemma {:induction false} JoinOfConcat(a: seq<string>, b: seq<string>, sep: char)
    requires a != [] && b != []
    ensures Join(a + b, sep) == Join(a, sep) + [sep] + Join(b, sep)
  {
    if |a| == 1 {
      assert (a + b)[1..] == b;
    } else {
      JoinOfConcat(a[1..], b, sep);
      assert (a + b)[1..] == a[1..] + b;
    }
  }

  lemma JoinOfFour(a: string, b: string, c: string, rest: seq<string>)
    requires rest != []
    ensures Join([a, b, c] + rest, '/') == a + "/" + b + "/" + c + "/" + Join(rest, '/')
  {
    assert ([a, b, c] + rest)[1..] == [b, c] + rest;
    assert ([b, c] + rest)[1..] == [c] + rest;
    assert ([c] + rest)[1..] == rest;
    var t := Join([c] + rest, '/');
    assert t == c + "/" + Join(rest, '/');
    assert Join([b, c] + rest, '/') == b + "/" + t;
  }

  lemma KvText(e: string, p: string)
    ensures "/v1/" + ("secrets" + "/" + e + "/" + "data" + "/" + p) == "/v1/secrets/" + e + "/data/" + p
  {
    assert "/v1/" + ("secrets" + "/") == "/v1/secrets/";
    assert "/" + "data" + "/" == "/data/";
  }

  lemma KvJoined(e: string, ps: seq<string>)
    requires ps != []
    ensures "/v1/secrets/" + e + "/data/" + Join(ps, '/') == "/v1/" + Join(KvList(e, ps), '/')
  {
    JoinOfFour("secrets", e, "data", ps);
    KvText(e, Join(ps, '/'));
  }

  /** The endpoint is those segments joined under `/v1`. */
  lemma KvEndpointIsJoined(engine: string, secretPath: string)
    requires KvDataEndpoint(engine, secretPath).Ok?
    ensures KvDataEndpoint(engine, secretPath).text == "/v1/" + Join(KvSegments(engine, secretPath), '/')
  {
    KvJoined(PathEscape(TrimSpace(engine)), EscapeAll(SlashSegments(secretPath)));
  }

  /**
   Which requests are accepted: an engine that is one usable segment, and a path whose trimmed parts all are usable. An
   engine or path that is missing is reported as such, and any other fault as invalid.
   */
  lemma KvAcceptedExactly(engine: string, secretPath: string)
    ensures var e, parts, r := TrimSpace(engine), SlashSegments(secretPath), KvDataEndpoint(engine, secretPath);
            var engineOk := e != "" && e != "." && e != ".." && '/' !in e;
            var pathGiven := TrimSpace(Trim(secretPath, '/')) != "";
            && (r.Ok? <==> engineOk && pathGiven
                           && forall i :: 0 <= i < |parts| ==> parts[i] != "" && parts[i] != "." && parts[i] != "..")
            && (r.Required? <==> e == "" || (engineOk && !pathGiven))
  {
  }

  /** Slashes around a path do not matter. */
  lemma SlashesDoNotMatter(value: string)
    ensures SlashSegments("/" + value) == SlashSegments(value) == SlashSegments(value + "/")
  {
    assert ("/" + value)[1..] == value;
    TrimLeftOfAppended(value, '/');
  }

  lemma {:induction false} TrimLeftOfAppended(s: string, c: char)
    ensures Trim(s + [c], c) == Trim(s, c)
    decreases |s|
  {
    var t := s + [c];
    if s == "" {
      assert t[1..] == "";
    } else if s[0] == c {
      assert t[1..] == s[1..] + [c];
      TrimLeftOfAppended(s[1..], c);
    } else {
      assert t[..|t| - 1] == s;
    }
  }

  // ------------------------------------------------------------------- decoding

  function UnescapeAll(parts: seq<string>): Option<seq<string>> {
    if parts == [] then Some([])
    else match (PathUnescape(parts[0]), UnescapeAll(parts[1..]))
      case (Some(p), Some(rest)) => Some([p] + rest)
      case _ => None
  }

  lemma {:induction false} UnescapeAllOfEscapeAll(parts: seq<string>)
    requires forall i :: 0 <= i < |parts| ==> IsBytes(parts[i])
    ensures UnescapeAll(EscapeAll(parts)) == Some(parts)
  {
    if parts == [] {
    } else {
      EscapeRoundTrip(parts[0]);
      UnescapeAllOfEscapeAll(parts[1..]);
      assert EscapeAll(parts)[1..] == EscapeAll(parts[1..]);
      assert EscapeAll(parts)[0] == PathEscape(parts[0]);
      assert parts == [parts[0]] + parts[1..];
    }
  }

  datatype KvTarget = KvTarget(engine: string, segments: seq<string>)

  /** Read a KV URL path back: `depth` segments of base path, `secrets`, engine, `data`, path. */
  function DecodeKvPath(path: string, depth: nat): Option<KvTarget> {
    var segs := Split(path, '/');
    if |segs| < depth + 1 then None else DecodeKvSegments(segs[depth + 1..])
  }

  lemma SplitOfRooted(segs: seq<string>)
    requires segs != [] && forall i :: 0 <= i < |segs| ==> Lacks(segs[i], '/')
    ensures Split("/" + Join(segs, '/'), '/') == [""] + segs
  {
    SplitOfJoin(segs, '/');
    SplitAtSeparator("", Join(segs, '/'), '/');
    assert "" + ['/'] + Join(segs, '/') == "/" + Join(segs, '/');
  }

  lemma KvListLacksSlash(e: string, parts: seq<string>)
    ensures forall s :: s in KvList(PathEscape(e), EscapeAll(parts)) ==> Lacks(s, '/')
  {
    EscapeIsGraphic(e);
    forall i | 0 <= i < |parts| ensures Lacks(EscapeAll(parts)[i], '/') {
      EscapeIsGraphic(parts[i]);
    }
  }

  /** The segments after the base path, read as a KV request. */
  function DecodeKvSegments(segs: seq<string>): Option<KvTarget> {
    if |segs| < 4 || segs[0] != "secrets" || segs[2] != "data" then None
    else match (PathUnescape(segs[1]), UnescapeAll(segs[3..]))
      case (Some(e), Some(ps)) => Some(KvTarget(e, ps))
      case _ => None
  }

  lemma KvListDecodes(e: string, parts: seq<string>)
    requires IsBytes(e) && parts != [] && forall i :: 0 <= i < |parts| ==> IsBytes(parts[i])
    ensures DecodeKvSegments(KvList(PathEscape(e), EscapeAll(parts))) == Some(KvTarget(e, parts))
  {
    assert KvList(PathEscape(e), EscapeAll(parts))[3..] == EscapeAll(parts);
    EscapeRoundTrip(e);
    UnescapeAllOfEscapeAll(parts);
  }

  lemma SegmentsDecode(prefix: seq<string>, e: string, parts: seq<string>)
    requires IsBytes(e) && parts != [] && forall i :: 0 <= i < |parts| ==> IsBytes(parts[i])
    requires forall i :: 0 <= i < |prefix| ==> Lacks(prefix[i], '/')
    ensures DecodeKvPath("/" + Join(prefix + KvList(PathEscape(e), EscapeAll(parts)), '/'), |prefix|)
         == Some(KvTarget(e, parts))
  {
    var segs := KvList(PathEscape(e), EscapeAll(parts));
    KvListLacksSlash(e, parts);
    SplitOfRooted(prefix + segs);
    assert ([""] + (prefix + segs))[|prefix| + 1..] == segs;
    KvListDecodes(e, parts);
  }

  /** Decoding a path that ends in the KV segments gives the trimmed request back. */
  lemma KvPathDecodes(prefix: seq<string>, engine: string, secretPath: string)
    requires IsBytes(engine) && IsBytes(secretPath)
    requires forall i :: 0 <= i < |prefix| ==> Lacks(prefix[i], '/')
    ensures DecodeKvPath("/" + Join(prefix + KvSegments(engine, secretPath), '/'), |prefix|)
         == Some(KvTarget(TrimSpace(engine), SlashSegments(secretPath)))
  {
    TrimSpaceIsBytes(engine);
    SlashSegmentsAreBytes(secretPath);
    SegmentsDecode(prefix, TrimSpace(engine), SlashSegments(secretPath));
  }
}
