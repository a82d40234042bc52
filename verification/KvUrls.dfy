/**
 Exactly when `buildURL` keeps KV secrets apart: unless the API base path is itself a KV data path, in which
 case endpoints under it are sent as they are and all others are appended to it.
 */
module KvUrls {
  import opened Options
  import opened GoStrings
  import opened PathUtil
  import opened Urls

  /** Text that is the encoding of something `pathutil.Segment` accepts as it stands. */
  predicate EncodedPart(x: string) {
    IsBytes(x) && PathUnescape(x).Some? && Segment(PathUnescape(x).value) == Ok(x)
  }

  predicate EncodedParts(xs: seq<string>) {
    forall i :: 0 <= i < |xs| ==> EncodedPart(xs[i])
  }

  /** `/v1/secrets/<engine>/data`, or a path below it, as `kvDataEndpoint` would spell it. */
  predicate KvDataPath(base: string) {
    var segs := Split(base, '/');
    && |segs| >= 5
    && segs[0] == "" && segs[1] == "v1" && segs[2] == "secrets" && segs[4] == "data"
    && EncodedPart(segs[3]) && EncodedParts(segs[5..])
  }

  /** A request for a secret that the SDK accepts. */
  predicate Accepted(engine: string, secretPath: string) {
    IsBytes(engine) && IsBytes(secretPath) && KvDataEndpoint(engine, secretPath).Ok?
  }

  function TargetOf(engine: string, secretPath: string): KvTarget {
    KvTarget(TrimSpace(engine), SlashSegments(secretPath))
  }

  function UrlOf(base: string, engine: string, secretPath: string): string
    requires Accepted(engine, secretPath)
  {
    UrlPath(base, KvDataEndpoint(engine, secretPath).text)
  }

  ghost predicate KeepsSecretsApart(base: string) {
    forall e1, p1, e2, p2 :: Accepted(e1, p1) && Accepted(e2, p2) && UrlOf(base, e1, p1) == UrlOf(base, e2, p2) ==>
      TargetOf(e1, p1) == TargetOf(e2, p2)
  }

  // ----------------------------------------------------------------- trimmed parts

  /** What a caller may write as an engine or as one part of a secret path, already trimmed. */
  predicate RawPart(v: string) {
    IsBytes(v) && TrimSpace(v) == v && GoodPart(v) && '/' !in v
  }

  lemma EncodedIsRaw(x: string)
    requires EncodedPart(x)
    ensures RawPart(PathUnescape(x).value) && PathEscape(PathUnescape(x).value) == x
  {
    var v := PathUnescape(x).value;
    UnescapedIsBytes(x);
    TrimSpaceIsBytes(v);
    EscapeRoundTrip(TrimSpace(v));
  }

  lemma {:induction false} UnescapedIsBytes(x: string)
    requires IsBytes(x) && PathUnescape(x).Some?
    ensures IsBytes(PathUnescape(x).value)
    decreases |x|
  {
    if x == "" {
    } else {
      UnescapedIsBytes(if x[0] != '%' then x[1..] else x[3..]);
    }
  }

  lemma RawIsEncoded(v: string)
    requires RawPart(v)
    ensures EncodedPart(PathEscape(v))
  {
    EscapeRoundTrip(v);
    EscapeIsGraphic(v);
  }

  lemma SlashSegmentsAreRaw(value: string)
    requires IsBytes(value) && AllGood(SlashSegments(value))
    ensures forall i :: 0 <= i < |SlashSegments(value)| ==> RawPart(SlashSegments(value)[i])
  {
    var parts := Split(Trim(value, '/'), '/');
    SlashSegmentsAreBytes(value);
    SplitPartsLackSeparator(Trim(value, '/'), '/');
    forall i | 0 <= i < |parts| ensures RawPart(SlashSegments(value)[i]) {
      assert GoodPart(SlashSegments(value)[i]);
      TrimSpaceIdempotent(parts[i]);
      TrimLosesNothingNew(parts[i], '/');
    }
  }

  lemma TrimLosesNothingNew(s: string, c: char)
    requires Lacks(s, c)
    ensures c !in TrimSpace(s)
  {
    TrimLeftLacks(s, c);
    TrimRightLacks(TrimLeftSpace(s), c);
  }

  lemma {:induction false} TrimLeftLacks(s: string, c: char)
    requires Lacks(s, c)
    ensures Lacks(TrimLeftSpace(s), c)
    decreases |s|
  {
    if LeadingSpace(s) != 0 {
      TrimLeftLacks(s[LeadingSpace(s)..], c);
    }
  }

  lemma {:induction false} TrimRightLacks(s: string, c: char)
    requires Lacks(s, c)
    ensures Lacks(TrimRightSpace(s), c)
    decreases |s|
  {
    if TrailingSpace(s) != 0 {
      TrimRightLacks(s[..|s| - TrailingSpace(s)], c);
    }
  }

  // ------------------------------------------------------- the URL of an endpoint

  /** What precedes the KV segments in the URL of the request path `p`. */
  function PrefixFor(base: string, p: string): seq<string> {
    if AtOrUnder(p, base) then ["v1"] else CleanSegments(base)
  }

  lemma PrefixIsPlain(base: string, p: string)
    ensures AllPlain(PrefixFor(base, p))
  {
    CleanSegmentsArePlain(base);
  }

  lemma UrlForms(base: string, engine: string, secretPath: string)
    requires GoodBase(base) && Accepted(engine, secretPath)
    ensures var segs, p := KvSegments(engine, secretPath), KvDataEndpoint(engine, secretPath).text;
            && p == "/v1/" + Join(segs, '/') && AllPlain(segs) && |segs| >= 4
            && UrlOf(base, engine, secretPath) == "/" + Join(PrefixFor(base, p) + segs, '/')
  {
    var segs := KvSegments(engine, secretPath);
    var p := "/v1/" + Join(segs, '/');
    KvEndpointIsJoined(engine, secretPath);
    KvSegmentsArePlain(engine, secretPath);
    V1Segments(segs);
    if !AtOrUnder(p, base) {
      ShortPathAppended(base, segs);
    }
  }

  lemma SameTarget(prefix: seq<string>, e1: string, p1: string, e2: string, p2: string)
    requires Accepted(e1, p1) && Accepted(e2, p2) && AllPlain(prefix)
    requires "/" + Join(prefix + KvSegments(e1, p1), '/') == "/" + Join(prefix + KvSegments(e2, p2), '/')
    ensures TargetOf(e1, p1) == TargetOf(e2, p2)
  {
    assert forall i :: 0 <= i < |prefix| ==> Plain(prefix[i]);
    KvPathDecodes(prefix, e1, p1);
    KvPathDecodes(prefix, e2, p2);
  }

  /** A base that a clean path lies under is clean, and its segments are the first ones of that path. */
  lemma BaseOfPath(base: string, segs: seq<string>)
    requires GoodBase(base) && segs != [] && AllPlain(segs) && AtOrUnder("/" + Join(segs, '/'), base)
    ensures var c := CleanSegments(base);
            c != [] && c <= segs && base == "/" + Join(c, '/') && Split(base, '/') == [""] + c
  {
    var p := "/" + Join(segs, '/');
    SplitOfRooted(segs);
    if p == base {
      RootedPlainIsClean(segs);
    } else {
      var rest := p[|base| + 1..];
      assert p == base + "/" + rest;
      SplitOfConcat(base, rest);
      var d := PlainBase(base, segs, Split(rest, '/'));
    }
  }

  lemma PlainBase(base: string, segs: seq<string>, more: seq<string>) returns (d: seq<string>)
    requires GoodBase(base) && AllPlain(segs) && [""] + segs == Split(base, '/') + more
    ensures d != [] && d <= segs && base == "/" + Join(d, '/') && Split(base, '/') == [""] + d
            && CleanSegments(base) == d
  {
    SplitHead(base);
    JoinOfSplit(base, '/');
    d := Split(base, '/')[1..];
    assert Split(base, '/') == [""] + d;
    assert segs == ([""] + segs)[1..] == d + more;
    assert Join([""] + d, '/') == base != "";
    assert forall i :: 0 <= i < |d| ==> d[i] == segs[i];
    RootedPlainIsClean(d);
  }

  lemma SplitHead(base: string)
    requires HasPrefix(base, "/")
    ensures Split(base, '/')[0] == ""
  {
  }

  lemma {:induction false} JoinOfSplit(s: string, sep: char)
    ensures Join(Split(s, sep), sep) == s
    decreases |s|
  {
    if s == "" {
    } else {
      JoinOfSplit(s[1..], sep);
      var parts := Split(s[1..], sep);
      assert s == [s[0]] + s[1..];
      if s[0] == sep {
        assert ([""] + parts)[1..] == parts;
        assert "" + [sep] + Join(parts, sep) == [sep] + Join(parts, sep);
      } else if |parts| > 1 {
        assert [s[0]] + parts[0] + [sep] + Join(parts[1..], sep) == [s[0]] + (parts[0] + [sep] + Join(parts[1..], sep));
      }
    }
  }

  // ------------------------------------------------- other bases keep secrets apart

  lemma UnderItsPrefix(c: seq<string>, rest: seq<string>)
    requires c != [] && rest != []
    ensures AtOrUnder("/" + Join(c + rest, '/'), "/" + Join(c, '/'))
  {
    JoinOfConcat(c, rest, '/');
    var p, base := "/" + Join(c + rest, '/'), "/" + Join(c, '/');
    assert p == base + "/" + Join(rest, '/');
  }

  /** Paths under `/v1` and under `/v1/secrets` are all KV paths alike. */
  lemma ShortBaseTakesAll(c: seq<string>, segs: seq<string>)
    requires |segs| >= 2 && segs[0] == "secrets"
    requires 1 <= |c| <= 2 && c[0] == "v1" && (|c| == 2 ==> c[1] == "secrets")
    ensures AtOrUnder("/v1/" + Join(segs, '/'), "/" + Join(c, '/'))
  {
    V1Segments(segs);
    var rest := (["v1"] + segs)[|c|..];
    assert c + rest == ["v1"] + segs;
    UnderItsPrefix(c, rest);
  }

  lemma SameSegments(a: seq<string>, b: seq<string>)
    requires a != [] && b != [] && AllPlain(a) && AllPlain(b) && "/" + Join(a, '/') == "/" + Join(b, '/')
    ensures a == b
  {
    SplitOfRooted(a);
    SplitOfRooted(b);
    assert ([""] + a)[1..] == a && ([""] + b)[1..] == b;
  }

  lemma SharedPrefix(v: string, c: seq<string>, s1: seq<string>, s2: seq<string>)
    requires c != [] && s2 != [] && [v] + s1 == c + s2
    ensures |c| <= |s1| && c == [v] + s1[..|c| - 1] && s1[|c| - 1] == s2[0]
    ensures c[0] == v && (|c| >= 2 ==> c[1] == s1[0])
  {
    var all := [v] + s1;
    assert all[|c|] == s2[0] && all[..|c|] == c;
  }

  /** A base that some endpoint does not lie under is longer than `/v1/secrets`. */
  lemma DeepBase(c: seq<string>, segs: seq<string>)
    requires c != [] && c[0] == "v1" && (|c| >= 2 ==> c[1] == "secrets") && |segs| >= 2 && segs[0] == "secrets"
    requires !AtOrUnder("/v1/" + Join(segs, '/'), "/" + Join(c, '/'))
    ensures |c| >= 3
  {
    if |c| <= 2 {
      ShortBaseTakesAll(c, segs);
    }
  }

  lemma EncodedSegments(engine: string, secretPath: string)
    requires Accepted(engine, secretPath)
    ensures var segs := KvSegments(engine, secretPath); EncodedPart(segs[1]) && EncodedParts(segs[3..])
  {
    var segs, parts := KvSegments(engine, secretPath), SlashSegments(secretPath);
    KvPartsAreGood(engine, secretPath);
    TrimSpaceIsBytes(engine);
    TrimSpaceIdempotent(engine);
    RawIsEncoded(TrimSpace(engine));
    SlashSegmentsAreRaw(secretPath);
    assert segs[3..] == EscapeAll(parts);
    forall i | 0 <= i < |parts| ensures EncodedPart(EscapeAll(parts)[i]) {
      RawIsEncoded(parts[i]);
    }
  }

  /** Endpoint 1 goes out as it is and endpoint 2 under the base, and yet they meet. */
  lemma MeetingSegments(base: string, s1: seq<string>, s2: seq<string>)
    requires GoodBase(base) && AllPlain(s1) && AllPlain(s2) && |s1| >= 4 && |s2| >= 4
    requires s1[0] == s2[0] == "secrets" && s1[2] == "data"
    requires AtOrUnder("/v1/" + Join(s1, '/'), base) && !AtOrUnder("/v1/" + Join(s2, '/'), base)
    requires "/" + Join(["v1"] + s1, '/') == "/" + Join(CleanSegments(base) + s2, '/')
    ensures var n := |CleanSegments(base)| - 1; 3 <= n <= |s1| && Split(base, '/') == [""] + (["v1"] + s1[..n])
  {
    var c := CleanSegments(base);
    V1Segments(s1);
    CleanSegmentsArePlain(base);
    SameSegments(["v1"] + s1, c + s2);
    BaseOfPath(base, ["v1"] + s1);
    SharedPrefix("v1", c, s1, s2);
    DeepBase(c, s2);
    assert |c| != 3;
  }

  lemma MixedPair(base: string, e1: string, p1: string, e2: string, p2: string)
    requires GoodBase(base) && Accepted(e1, p1) && Accepted(e2, p2) && UrlOf(base, e1, p1) == UrlOf(base, e2, p2)
    requires AtOrUnder(KvDataEndpoint(e1, p1).text, base) && !AtOrUnder(KvDataEndpoint(e2, p2).text, base)
    ensures KvDataPath(base)
  {
    UrlForms(base, e1, p1);
    UrlForms(base, e2, p2);
    MeetingSegments(base, KvSegments(e1, p1), KvSegments(e2, p2));
    EncodedSegments(e1, p1);
    DataPathOf(base, KvSegments(e1, p1), |CleanSegments(base)| - 1);
  }

  /** The first segments of an endpoint, down to its `data` or below, make a KV data path. */
  lemma DataPathOf(base: string, segs: seq<string>, n: nat)
    requires 3 <= n <= |segs| && Split(base, '/') == [""] + (["v1"] + segs[..n])
    requires segs[0] == "secrets" && segs[2] == "data" && EncodedPart(segs[1]) && EncodedParts(segs[3..])
    ensures KvDataPath(base)
  {
    assert Split(base, '/')[5..] == segs[3..n];
    forall i | 0 <= i < n - 3 ensures EncodedPart(segs[3..n][i]) {
      assert segs[3..n][i] == segs[3..][i];
    }
  }

  /** Both endpoints are under the base, or neither is. */
  lemma LikePair(base: string, e1: string, p1: string, e2: string, p2: string)
    requires GoodBase(base) && Accepted(e1, p1) && Accepted(e2, p2) && UrlOf(base, e1, p1) == UrlOf(base, e2, p2)
    requires AtOrUnder(KvDataEndpoint(e1, p1).text, base) == AtOrUnder(KvDataEndpoint(e2, p2).text, base)
    ensures TargetOf(e1, p1) == TargetOf(e2, p2)
  {
    var prefix := PrefixFor(base, KvDataEndpoint(e1, p1).text);
    assert prefix == PrefixFor(base, KvDataEndpoint(e2, p2).text);
    UrlForms(base, e1, p1);
    UrlForms(base, e2, p2);
    PrefixIsPlain(base, KvDataEndpoint(e1, p1).text);
    SameTarget(prefix, e1, p1, e2, p2);
  }

  lemma PairKept(base: string, e1: string, p1: string, e2: string, p2: string)
    requires GoodBase(base) && !KvDataPath(base)
    requires Accepted(e1, p1) && Accepted(e2, p2) && UrlOf(base, e1, p1) == UrlOf(base, e2, p2)
    ensures TargetOf(e1, p1) == TargetOf(e2, p2)
  {
    var u1, u2 := AtOrUnder(KvDataEndpoint(e1, p1).text, base), AtOrUnder(KvDataEndpoint(e2, p2).text, base);
    if u1 == u2 {
      LikePair(base, e1, p1, e2, p2);
    } else if u1 {
      MixedPair(base, e1, p1, e2, p2);
    } else {
      MixedPair(base, e2, p2, e1, p1);
    }
  }

  // ------------------------------------------------- a KV data path as base does not

  predicate RawParts(vs: seq<string>) {
    forall i :: 0 <= i < |vs| ==> RawPart(vs[i])
  }

  lemma {:induction false} JoinIsBytes(vs: seq<string>)
    requires vs != [] && RawParts(vs)
    ensures IsBytes(Join(vs, '/')) && Join(vs, '/') != "" && Join(vs, '/')[0] != '/'
  {
    if |vs| > 1 {
      JoinIsBytes(vs[1..]);
    }
  }

  lemma {:induction false} EndsInX(s: string)
    requires s != "" && s[|s| - 1] == 'x'
    ensures TrimSpace(s) != ""
    decreases |s|
  {
    var n := LeadingSpace(s);
    if n == 0 {
      assert TrailingSpace(s) == 0;
    } else {
      assert s[n - 1] != 'x';
      EndsInX(s[n..]);
    }
  }

  lemma LastIsX(front: seq<string>)
    ensures var p := Join(front + ["x"], '/'); p != "" && p[|p| - 1] == 'x'
  {
    if front == [] {
      assert front + ["x"] == ["x"];
    } else {
      JoinOfConcat(front, ["x"], '/');
    }
  }

  lemma NothingToTrim(p: string)
    requires p != "" && p[0] != '/' && p[|p| - 1] != '/'
    ensures Trim(p, '/') == p
  {
  }

  lemma RawPartsSplit(parts: seq<string>)
    requires parts != [] && RawParts(parts)
    ensures TrimAll(Split(Join(parts, '/'), '/')) == parts && AllGood(parts)
  {
    SplitOfJoin(parts, '/');
    assert TrimAll(parts) == parts;
  }

  /** Joining raw parts with slashes is a secret path that stands for exactly those parts. */
  lemma PathOfParts(front: seq<string>)
    requires RawParts(front)
    ensures var p := Join(front + ["x"], '/');
            IsBytes(p) && SlashSegments(p) == front + ["x"] && SlashPathSpec(p).Ok?
  {
    var parts := front + ["x"];
    WordsAreRaw(["x"]);
    assert RawParts(parts);
    JoinIsBytes(parts);
    LastIsX(front);
    NothingToTrim(Join(parts, '/'));
    RawPartsSplit(parts);
    EndsInX(Join(parts, '/'));
  }

  function UnescapedParts(xs: seq<string>): seq<string>
    requires EncodedParts(xs)
  {
    seq(|xs|, i requires 0 <= i < |xs| => PathUnescape(xs[i]).value)
  }

  lemma UnescapedPartsAreRaw(xs: seq<string>)
    requires EncodedParts(xs)
    ensures RawParts(UnescapedParts(xs)) && EscapeAll(UnescapedParts(xs)) == xs
  {
    forall i | 0 <= i < |xs| ensures RawPart(UnescapedParts(xs)[i]) && PathEscape(UnescapedParts(xs)[i]) == xs[i] {
      EncodedIsRaw(xs[i]);
    }
  }

  /** Letters are their own encoding. */
  lemma {:induction false} LettersUnescaped(s: string)
    requires forall i :: 0 <= i < |s| ==> 'a' <= s[i] <= 'z'
    ensures PathEscape(s) == s
  {
    if s == "" {
    } else {
      LettersUnescaped(s[1..]);
      assert s == [s[0]] + s[1..];
    }
  }

  lemma WordIsRaw(s: string)
    requires Letters(s)
    ensures RawPart(s) && PathEscape(s) == s
  {
    TrimSpaceKeepsGraphic(s);
    LettersUnescaped(s);
  }

  lemma EscapeAllConcat(a: seq<string>, b: seq<string>)
    ensures EscapeAll(a + b) == EscapeAll(a) + EscapeAll(b)
  {
  }

  predicate Letters(s: string) {
    s != "" && forall i :: 0 <= i < |s| ==> 'a' <= s[i] <= 'z'
  }

  lemma WordsAreRaw(words: seq<string>)
    requires forall i :: 0 <= i < |words| ==> Letters(words[i])
    ensures RawParts(words) && EscapeAll(words) == words
  {
    forall i | 0 <= i < |words| ensures RawPart(words[i]) && PathEscape(words[i]) == words[i] {
      WordIsRaw(words[i]);
    }
  }

  lemma {:induction false} FixedPart(other: string)
    requires other == "a" || other == "b"
    ensures RawParts(["secrets", other, "data"])
            && EscapeAll(["secrets", other, "data"] + ["x"]) == KvList(other, ["x"])
  {
    assert Letters("secrets") && Letters(other) && Letters("data") && Letters("x");
    WordsAreRaw(["secrets", other, "data"]);
    WordsAreRaw(KvList(other, ["x"]));
    assert ["secrets", other, "data"] + ["x"] == KvList(other, ["x"]);
  }

  lemma AcceptedParts(engine: string, front: seq<string>)
    requires RawPart(engine) && RawParts(front)
    ensures var p := Join(front + ["x"], '/');
            && Accepted(engine, p) && TargetOf(engine, p).engine == engine
            && KvSegments(engine, p) == KvList(PathEscape(engine), EscapeAll(front + ["x"]))
  {
    PathOfParts(front);
    assert Segment(engine).Ok?;
  }

  /** The secret at `front` + `secrets/<other>/data/x`, as a path. */
  lemma LongSecret(engine: string, front: seq<string>, other: string)
    requires RawPart(engine) && RawParts(front) && (other == "a" || other == "b")
    ensures var p := Join(front + ["secrets", other, "data"] + ["x"], '/');
            && Accepted(engine, p) && TargetOf(engine, p).engine == engine
            && KvSegments(engine, p) == KvList(PathEscape(engine), EscapeAll(front) + KvList(other, ["x"]))
  {
    var words := ["secrets", other, "data"];
    FixedPart(other);
    AcceptedParts(engine, front + words);
    EscapeAllConcat(front, words + ["x"]);
    assert front + words + ["x"] == front + (words + ["x"]);
  }

  lemma ShortSecret(other: string)
    requires other == "a" || other == "b"
    ensures Accepted(other, "x") && KvSegments(other, "x") == KvList(other, ["x"])
            && TargetOf(other, "x").engine == other
  {
    WordsAreRaw([other]);
    WordsAreRaw(["x"]);
    assert RawPart([other][0]) && EscapeAll([other])[0] == PathEscape(other);
    AcceptedParts(other, []);
    assert [] + ["x"] == ["x"];
  }

  lemma UnderSharesEngine(base: string, k1: seq<string>, k2: seq<string>)
    requires |k1| >= 2 && |k2| >= 2 && AllPlain(k1) && AllPlain(k2) && GoodBase(base)
    requires base == "/v1/" + Join(k1, '/') && AtOrUnder("/v1/" + Join(k2, '/'), base)
    ensures k1[1] == k2[1]
  {
    BaseSegments(k1);
    V1Segments(k2);
    BaseOfPath(base, ["v1"] + k2);
    assert (["v1"] + k1)[2] == k1[1] && (["v1"] + k2)[2] == k2[1];
  }

  lemma JoinRooted(segs: seq<string>)
    requires segs != []
    ensures Join([""] + segs, '/') == "/" + Join(segs, '/')
  {
    assert ([""] + segs)[1..] == segs;
  }

  lemma KvBaseParts(base: string)
    requires KvDataPath(base)
    ensures var segs := Split(base, '/');
            var k := KvList(segs[3], segs[5..]);
            base == "/v1/" + Join(k, '/') && AllPlain(k)
  {
    var segs := Split(base, '/');
    var k := KvList(segs[3], segs[5..]);
    JoinOfSplit(base, '/');
    assert segs == [""] + (["v1"] + k);
    JoinRooted(["v1"] + k);
    V1Segments(k);
    forall x | EncodedPart(x) ensures Plain(x) {
      EncodedIsRaw(x);
      EscapedIsPlain(PathUnescape(x).value);
    }
    KvListIsPlain(segs[3], segs[5..]);
  }

  lemma KvBaseCollides(base: string)
    requires GoodBase(base) && KvDataPath(base)
    ensures exists e1, p1, e2, p2 :: Accepted(e1, p1) && Accepted(e2, p2) && UrlOf(base, e1, p1) == UrlOf(base, e2, p2)
                                  && TargetOf(e1, p1) != TargetOf(e2, p2)
  {
    var segs := Split(base, '/');
    EncodedIsRaw(segs[3]);
    var engine, front := PathUnescape(segs[3]).value, UnescapedParts(segs[5..]);
    UnescapedPartsAreRaw(segs[5..]);
    var other := if engine == "a" then "b" else "a";
    var long := Join(front + ["secrets", other, "data"] + ["x"], '/');
    LongSecret(engine, front, other);
    ShortSecret(other);
    CollidingEndpoints(base, engine, long, other);
    assert TargetOf(engine, long) != TargetOf(other, "x");
  }

  lemma {:induction false} CollidingEndpoints(base: string, engine: string, long: string, other: string)
    requires GoodBase(base) && KvDataPath(base) && Accepted(engine, long) && Accepted(other, "x")
    requires Split(base, '/')[3] == PathEscape(engine) && IsBytes(engine) && engine != other && IsBytes(other)
    requires KvSegments(engine, long) == KvList(PathEscape(engine), Split(base, '/')[5..] + KvList(other, ["x"]))
    requires KvSegments(other, "x") == KvList(other, ["x"]) && PathEscape(other) == other
    ensures UrlOf(base, engine, long) == UrlOf(base, other, "x")
  {
    var segs := Split(base, '/');
    var k1, k2 := KvList(segs[3], segs[5..]), KvList(other, ["x"]);
    KvBaseParts(base);
    KvEndpointIsJoined(engine, long);
    KvEndpointIsJoined(other, "x");
    KvSegmentsArePlain(other, "x");
    EscapeRoundTrip(engine);
    EscapeRoundTrip(other);
    assert k1[1] != k2[1];
    if AtOrUnder("/v1/" + Join(k2, '/'), base) {
      UnderSharesEngine(base, k1, k2);
    }
    KvListConcat(segs[3], segs[5..], k2);
    CollidingPaths(k1, k2);
  }

  // -------------------------------------------------------------------- the theorem

  lemma PathsExact(base: string)
    requires GoodBase(base)
    ensures KeepsSecretsApart(base) <==> !KvDataPath(base)
  {
    if KvDataPath(base) {
      KvBaseCollides(base);
    } else {
      forall e1, p1, e2, p2 | Accepted(e1, p1) && Accepted(e2, p2) && UrlOf(base, e1, p1) == UrlOf(base, e2, p2)
        ensures TargetOf(e1, p1) == TargetOf(e2, p2)
      {
        PairKept(base, e1, p1, e2, p2);
      }
    }
  }

  /** `normalizeConfig` always leaves a cleaned base path behind. */
  ghost predicate Normalised(cfg: Config) {
    cfg.apiBasePath == "" || exists v :: cfg.apiBasePath == CleanBasePath(v)
  }

  lemma CleanedBaseIsGood(v: string)
    ensures CleanBasePath(v) == "" || GoodBase(CleanBasePath(v))
  {
  }

  lemma BaseIsGood(cfg: Config)
    requires Normalised(cfg)
    ensures GoodBase(EffectiveBasePath(cfg))
  {
    if cfg.apiBasePath == "" {
      CleanedBaseIsGood(cfg.basePath);
    } else {
      var v :| cfg.apiBasePath == CleanBasePath(v);
      CleanedBaseIsGood(v);
    }
  }

  lemma UrlIsBuilt(cfg: Config, engine: string, secretPath: string)
    requires Accepted(engine, secretPath)
    ensures BuildUrl(cfg, KvDataEndpoint(engine, secretPath).text)
         == Some(cfg.baseUrl + UrlOf(EffectiveBasePath(cfg), engine, secretPath))
  {
    var p := "/v1/" + Join(KvSegments(engine, secretPath), '/');
    KvEndpointIsJoined(engine, secretPath);
    KvIsGraphic(engine, secretPath);
    TrimSpaceKeepsGraphic(p);
    RootedKeeps(p);
  }

  /**
   Path cleaning never alters a KV endpoint: decoding the path of its URL, after the base path, gives back
   exactly the trimmed engine and the trimmed path segments.
   */
  lemma KvUrlDecodes(cfg: Config, engine: string, secretPath: string)
    requires Normalised(cfg) && Accepted(engine, secretPath)
    ensures var endpoint, base := KvDataEndpoint(engine, secretPath).text, EffectiveBasePath(cfg);
            && BuildUrl(cfg, endpoint).Some? && HasPrefix(BuildUrl(cfg, endpoint).value, cfg.baseUrl)
            && DecodeKvPath(BuildUrl(cfg, endpoint).value[|cfg.baseUrl|..], |PrefixFor(base, endpoint)|)
               == Some(TargetOf(engine, secretPath))
  {
    var endpoint, base := KvDataEndpoint(engine, secretPath).text, EffectiveBasePath(cfg);
    var prefix := PrefixFor(base, endpoint);
    BaseIsGood(cfg);
    UrlIsBuilt(cfg, engine, secretPath);
    UrlForms(base, engine, secretPath);
    PrefixIsPlain(base, endpoint);
    assert forall i :: 0 <= i < |prefix| ==> Plain(prefix[i]);
    KvPathDecodes(prefix, engine, secretPath);
    assert (cfg.baseUrl + UrlOf(base, engine, secretPath))[|cfg.baseUrl|..] == UrlOf(base, engine, secretPath);
  }

  ghost predicate DistinctSecretsDistinctUrls(cfg: Config) {
    forall e1, p1, e2, p2 :: Accepted(e1, p1) && Accepted(e2, p2) && TargetOf(e1, p1) != TargetOf(e2, p2) ==>
      BuildUrl(cfg, KvDataEndpoint(e1, p1).text) != BuildUrl(cfg, KvDataEndpoint(e2, p2).text)
  }

  lemma SameUrl(cfg: Config, e1: string, p1: string, e2: string, p2: string)
    requires Accepted(e1, p1) && Accepted(e2, p2)
    ensures BuildUrl(cfg, KvDataEndpoint(e1, p1).text) == BuildUrl(cfg, KvDataEndpoint(e2, p2).text)
       <==> UrlOf(EffectiveBasePath(cfg), e1, p1) == UrlOf(EffectiveBasePath(cfg), e2, p2)
  {
    UrlIsBuilt(cfg, e1, p1);
    UrlIsBuilt(cfg, e2, p2);
    var u1, u2 := UrlOf(EffectiveBasePath(cfg), e1, p1), UrlOf(EffectiveBasePath(cfg), e2, p2);
    assert (cfg.baseUrl + u1)[|cfg.baseUrl|..] == u1 && (cfg.baseUrl + u2)[|cfg.baseUrl|..] == u2;
  }

  /** Different secrets have different URLs exactly when the API base path is not itself a KV data path. */
  lemma KvUrlsExact(cfg: Config)
    requires Normalised(cfg)
    ensures DistinctSecretsDistinctUrls(cfg) <==> !KvDataPath(EffectiveBasePath(cfg))
  {
    BaseIsGood(cfg);
    PathsExact(EffectiveBasePath(cfg));
    forall e1, p1, e2, p2 | Accepted(e1, p1) && Accepted(e2, p2)
      ensures BuildUrl(cfg, KvDataEndpoint(e1, p1).text) == BuildUrl(cfg, KvDataEndpoint(e2, p2).text)
         <==> UrlOf(EffectiveBasePath(cfg), e1, p1) == UrlOf(EffectiveBasePath(cfg), e2, p2)
    {
      SameUrl(cfg, e1, p1, e2, p2);
    }
  }
}
