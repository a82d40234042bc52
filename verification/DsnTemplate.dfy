/**
 `Connector.buildDSN`: filling `{{key}}` placeholders from a credentials map that Go
 walks in a random order.
 */
module DsnTemplate {
  import opened Options
  import opened GoStrings
  import opened Counting

  datatype DsnResult = Dsn(text: string) | NoCredential | Unresolved

  function PlaceholderFor(key: string): string {
    "{{" + key + "}}"
  }

  /** The body of the loop, run over the keys in the order Go happens to pick. */
  function ReplaceInOrder(dsn: string, order: seq<string>, creds: map<string, string>): string
    requires forall k :: k in order ==> k in creds
  {
    if order == [] then dsn
    else
      var k := order[|order| - 1];
      ReplaceAll(ReplaceInOrder(dsn, order[..|order| - 1], creds), PlaceholderFor(k), creds[k])
  }

  // ------------------------------------------------ token-level reference form

  datatype Token = Literal(text: string) | Placeholder(key: string)

  function RenderToken(t: Token): string {
    match t
    case Literal(text) => text
    case Placeholder(key) => PlaceholderFor(key)
  }

  function Render(tokens: seq<Token>): string {
    if tokens == [] then "" else RenderToken(tokens[0]) + Render(tokens[1..])
  }

  predicate PlainKey(key: string) {
    Lacks(key, '{') && Lacks(key, '}')
  }

  predicate PlainKeys(creds: map<string, string>) {
    forall k :: k in creds ==> PlainKey(k)
  }

  /** No placeholder name holds a brace; about literals nothing is said. */
  predicate PlainNames(tokens: seq<Token>) {
    forall i :: 0 <= i < |tokens| && tokens[i].Placeholder? ==> PlainKey(tokens[i].key)
  }

  function FillToken(t: Token, creds: map<string, string>): Token {
    if t.Placeholder? && t.key in creds then Literal(creds[t.key]) else t
  }

  /** All placeholders at once, token by token. */
  function Fill(tokens: seq<Token>, creds: map<string, string>): seq<Token> {
    seq(|tokens|, i requires 0 <= i < |tokens| => FillToken(tokens[i], creds))
  }

  predicate Resolved(tokens: seq<Token>, creds: map<string, string>) {
    forall i :: 0 <= i < |tokens| && tokens[i].Placeholder? ==> tokens[i].key in creds
  }

  /** If every placeholder has a credential, the filled text holds no open brace pair. */
  predicate Settles(tokens: seq<Token>, creds: map<string, string>) {
    Resolved(tokens, creds) ==> !Contains(Render(Fill(tokens, creds)), "{{")
  }

  function Expected(tokens: seq<Token>, creds: map<string, string>): DsnResult {
    if Resolved(tokens, creds) then Dsn(Render(Fill(tokens, creds))) else Unresolved
  }

  // ------------------------------------------------- one replacement per token

  lemma {:induction false} ScanPast(p: string, s: string, pattern: string, subst: string)
    requires |pattern| > 0
    requires forall i :: 0 <= i < |p| ==> !HasPrefix((p + s)[i..], pattern)
    ensures ReplaceAll(p + s, pattern, subst) == p + ReplaceAll(s, pattern, subst)
  {
    if p == "" {
      assert p + s == s;
    } else {
      assert (p + s)[0..] == p + s;
      assert (p + s)[1..] == p[1..] + s;
      forall i | 0 <= i < |p| - 1 ensures !HasPrefix((p[1..] + s)[i..], pattern) {
        assert (p[1..] + s)[i..] == (p + s)[i + 1..];
      }
      ScanPast(p[1..], s, pattern, subst);
    }
  }

  lemma OtherPlaceholderDoesNotMatch(x: string, s: string, k: string)
    requires PlainKey(x) && PlainKey(k) && x != k
    ensures !HasPrefix(PlaceholderFor(x) + s, PlaceholderFor(k))
  {
    var w, o := PlaceholderFor(x) + s, PlaceholderFor(k);
    if |k| < |x| {
      assert w[2 + |k|] == x[|k|] != '}' == o[2 + |k|];
    } else if |k| > |x| {
      assert w[2 + |x|] == '}' != k[|x|] == o[2 + |x|];
    } else {
      assert w[2..2 + |k|] == x && o[2..2 + |k|] == k;
    }
  }

  lemma {:induction false} NoPairInside(p: string, i: nat)
    requires !Contains(p, "{{") && i + 1 < |p|
    ensures !(p[i] == '{' && p[i + 1] == '{')
    decreases i
  {
    if i == 0 {
      assert !HasPrefix(p, "{{");
    } else {
      NoPairInside(p[1..], i - 1);
    }
  }

  /** The literals up to the first placeholder. */
  function Leading(tokens: seq<Token>): string {
    if tokens == [] || tokens[0].Placeholder? then "" else tokens[0].text + Leading(tokens[1..])
  }

  /** No open brace pair anywhere in the literals between two placeholders. */
  predicate Calm(tokens: seq<Token>) {
    tokens == [] || (!Contains(Leading(tokens), "{{") && Calm(tokens[1..]))
  }

  /** After the leading literals comes a placeholder, or nothing. */
  lemma {:induction false} AfterLeading(tokens: seq<Token>) returns (tail: string)
    ensures Render(tokens) == Leading(tokens) + tail
    ensures tail == "" || (|tail| >= 2 && tail[..2] == "{{")
  {
    if tokens == [] {
      tail := "";
    } else if tokens[0].Placeholder? {
      tail := Render(tokens);
      assert tail[..2] == "{{";
    } else {
      tail := AfterLeading(tokens[1..]);
      assert tokens[0].text + (Leading(tokens[1..]) + tail) == tokens[0].text + Leading(tokens[1..]) + tail;
    }
  }

  /** No placeholder begins inside a literal of calm tokens. */
  lemma LiteralHasNoMatch(tokens: seq<Token>, k: string, i: nat)
    requires tokens != [] && Calm(tokens) && PlainKey(k) && tokens[0].Literal? && i < |tokens[0].text|
    ensures !HasPrefix(Render(tokens)[i..], PlaceholderFor(k))
  {
    var lead, o := Leading(tokens), PlaceholderFor(k);
    var w := Render(tokens)[i..];
    var tail := AfterLeading(tokens);
    assert o[0] == '{' && o[1] == '{' && o[2] != '{';
    assert w[0] == lead[i];
    if i + 1 < |lead| {
      assert w[1] == lead[i + 1];
      NoPairInside(lead, i);
    } else if tail != "" {
      assert w[2] == tail[1] == '{';
    }
  }

  lemma PlaceholderHasNoMatch(x: string, s: string, k: string, i: nat)
    requires PlainKey(x) && PlainKey(k) && x != k && i < |PlaceholderFor(x)|
    ensures !HasPrefix((PlaceholderFor(x) + s)[i..], PlaceholderFor(k))
  {
    var p, o := PlaceholderFor(x), PlaceholderFor(k);
    var w := (p + s)[i..];
    assert o[..2] == "{{" && w[0] == p[i];
    if i == 0 {
      assert w == p + s;
      OtherPlaceholderDoesNotMatch(x, s, k);
    } else if i == 1 {
      assert w[1] == p[2] != '{';
    }
  }

  lemma TokenWithoutMatch(tokens: seq<Token>, k: string, v: string)
    requires tokens != [] && Calm(tokens) && PlainNames(tokens) && PlainKey(k) && tokens[0] != Placeholder(k)
    ensures ReplaceAll(Render(tokens), PlaceholderFor(k), v)
         == RenderToken(tokens[0]) + ReplaceAll(Render(tokens[1..]), PlaceholderFor(k), v)
  {
    var p, s, o := RenderToken(tokens[0]), Render(tokens[1..]), PlaceholderFor(k);
    forall i | 0 <= i < |p| ensures !HasPrefix((p + s)[i..], o) {
      if tokens[0].Literal? {
        LiteralHasNoMatch(tokens, k, i);
      } else {
        PlaceholderHasNoMatch(tokens[0].key, s, k, i);
      }
    }
    ScanPast(p, s, o, v);
  }

  lemma TokenWithMatch(s: string, k: string, v: string)
    ensures ReplaceAll(PlaceholderFor(k) + s, PlaceholderFor(k), v)
         == v + ReplaceAll(s, PlaceholderFor(k), v)
  {
    var o := PlaceholderFor(k);
    assert (o + s)[|o|..] == s;
    assert HasPrefix(o + s, o);
  }

  lemma FillHead(tokens: seq<Token>, creds: map<string, string>)
    requires tokens != []
    ensures Render(Fill(tokens, creds)) == RenderToken(FillToken(tokens[0], creds)) + Render(Fill(tokens[1..], creds))
  {
    assert Fill(tokens, creds)[1..] == Fill(tokens[1..], creds);
  }

  /** Replacing one placeholder in the text is filling that one key in the tokens. */
  lemma {:induction false} ReplaceIsFill(tokens: seq<Token>, k: string, v: string)
    requires Calm(tokens) && PlainNames(tokens) && PlainKey(k)
    ensures ReplaceAll(Render(tokens), PlaceholderFor(k), v) == Render(Fill(tokens, map[k := v]))
  {
    if tokens == [] {
    } else {
      var rest := tokens[1..];
      ReplaceIsFill(rest, k, v);
      if tokens[0] == Placeholder(k) {
        TokenWithMatch(Render(rest), k, v);
      } else {
        TokenWithoutMatch(tokens, k, v);
      }
      FillHead(tokens, map[k := v]);
    }
  }

  // --------------------------------------------------------- all keys, any order

  function Restrict(creds: map<string, string>, order: seq<string>): map<string, string> {
    map k | k in creds && k in order :: creds[k]
  }

  lemma {:induction false} ContainsInPrefix(a: string, b: string, o: string)
    requires a <= b && Contains(a, o)
    ensures Contains(b, o)
    decreases |a|
  {
    if HasPrefix(a, o) {
      assert o <= b;
    } else {
      ContainsInPrefix(a[1..], b[1..], o);
    }
  }

  lemma {:induction false} ContainsInSuffix(p: string, s: string, o: string)
    requires Contains(s, o)
    ensures Contains(p + s, o)
    decreases |p|
  {
    if p == "" {
      assert p + s == s;
    } else {
      assert (p + s)[1..] == p[1..] + s;
      ContainsInSuffix(p[1..], s, o);
    }
  }

  /** What stands before the next placeholder of a half-filled template is the start of the filled text. */
  lemma {:induction false} LeadingIsFinal(tokens: seq<Token>, some: map<string, string>, creds: map<string, string>)
    requires forall k :: k in some ==> k in creds && some[k] == creds[k]
    ensures Leading(Fill(tokens, some)) <= Render(Fill(tokens, creds))
  {
    if tokens == [] {
    } else {
      LeadingIsFinal(tokens[1..], some, creds);
      assert Fill(tokens, some)[1..] == Fill(tokens[1..], some);
      assert Fill(tokens, creds)[1..] == Fill(tokens[1..], creds);
    }
  }

  /** A template that settles is calm however far it is filled. */
  lemma {:induction false} HalfFilledIsCalm(tokens: seq<Token>, some: map<string, string>, creds: map<string, string>)
    requires forall k :: k in some ==> k in creds && some[k] == creds[k]
    requires !Contains(Render(Fill(tokens, creds)), "{{")
    ensures Calm(Fill(tokens, some))
  {
    if tokens == [] {
    } else {
      var half, full, rest := Fill(tokens, some), Fill(tokens, creds), Render(Fill(tokens[1..], creds));
      assert half[1..] == Fill(tokens[1..], some) && full[1..] == Fill(tokens[1..], creds);
      LeadingIsFinal(tokens, some, creds);
      if Contains(Leading(half), "{{") {
        ContainsInPrefix(Leading(half), Render(full), "{{");
      }
      if Contains(rest, "{{") {
        ContainsInSuffix(RenderToken(full[0]), rest, "{{");
      }
      HalfFilledIsCalm(tokens[1..], some, creds);
    }
  }

  /** Filling one more key after the others is filling them all. */
  lemma FillOneMore(tokens: seq<Token>, creds: map<string, string>, front: seq<string>, k: string)
    requires k in creds
    ensures Fill(Fill(tokens, Restrict(creds, front)), map[k := creds[k]])
         == Fill(tokens, Restrict(creds, front + [k]))
  {
    var some, more := Restrict(creds, front), Restrict(creds, front + [k]);
    forall i | 0 <= i < |tokens|
      ensures FillToken(FillToken(tokens[i], some), map[k := creds[k]]) == FillToken(tokens[i], more)
    {
    }
  }

  lemma {:induction false} ReplaceInOrderIsFill(tokens: seq<Token>, order: seq<string>, creds: map<string, string>)
    requires PlainNames(tokens) && PlainKeys(creds) && !Contains(Render(Fill(tokens, creds)), "{{")
    requires forall k :: k in order ==> k in creds
    ensures ReplaceInOrder(Render(tokens), order, creds) == Render(Fill(tokens, Restrict(creds, order)))
  {
    if order == [] {
      assert Fill(tokens, Restrict(creds, [])) == tokens;
    } else {
      var k, front := order[|order| - 1], order[..|order| - 1];
      assert order == front + [k];
      ReplaceInOrderIsFill(tokens, front, creds);
      HalfFilledIsCalm(tokens, Restrict(creds, front), creds);
      ReplaceIsFill(Fill(tokens, Restrict(creds, front)), k, creds[k]);
      FillOneMore(tokens, creds, front, k);
    }
  }

  // ------------------------------------------- a placeholder without a credential

  lemma {:induction false} ContainsPast(p: string, s: string, o: string)
    requires Contains(p + s, o) && forall i :: 0 <= i < |p| ==> !HasPrefix((p + s)[i..], o)
    ensures Contains(s, o)
    decreases |p|
  {
    if p == "" {
      assert p + s == s;
    } else {
      assert (p + s)[0..] == p + s && (p + s)[1..] == p[1..] + s;
      forall i | 0 <= i < |p| - 1 ensures !HasPrefix((p[1..] + s)[i..], o) {
        assert (p[1..] + s)[i..] == (p + s)[i + 1..];
      }
      ContainsPast(p[1..], s, o);
    }
  }

  /** Replacing one placeholder leaves every other one where it is, whatever surrounds it. */
  lemma {:induction false} PlaceholderSurvives(s: string, k: string, v: string, m: string)
    requires PlainKey(k) && PlainKey(m) && k != m && Contains(s, PlaceholderFor(m))
    ensures Contains(ReplaceAll(s, PlaceholderFor(k), v), PlaceholderFor(m))
    decreases |s|
  {
    var o, p := PlaceholderFor(m), PlaceholderFor(k);
    if HasPrefix(s, p) {
      var rest := s[|p|..];
      assert s == p + rest;
      forall i | 0 <= i < |p| ensures !HasPrefix((p + rest)[i..], o) {
        PlaceholderHasNoMatch(k, rest, m, i);
      }
      ContainsPast(p, rest, o);
      PlaceholderSurvives(rest, k, v, m);
      ContainsInSuffix(v, ReplaceAll(rest, p, v), o);
    } else if HasPrefix(s, o) {
      var rest := s[|o|..];
      assert s == o + rest;
      forall i | 0 <= i < |o| ensures !HasPrefix((o + rest)[i..], p) {
        PlaceholderHasNoMatch(m, rest, k, i);
      }
      ScanPast(o, rest, p, v);
      assert HasPrefix(o + ReplaceAll(rest, p, v), o);
    } else {
      PlaceholderSurvives(s[1..], k, v, m);
      ContainsInSuffix([s[0]], ReplaceAll(s[1..], p, v), o);
    }
  }

  lemma {:induction false} PlaceholderStays(s: string, order: seq<string>, creds: map<string, string>, m: string)
    requires PlainKeys(creds) && PlainKey(m) && m !in creds && Contains(s, PlaceholderFor(m))
    requires forall k :: k in order ==> k in creds
    ensures Contains(ReplaceInOrder(s, order, creds), PlaceholderFor(m))
  {
    if order == [] {
    } else {
      var k, front := order[|order| - 1], order[..|order| - 1];
      PlaceholderStays(s, front, creds, m);
      PlaceholderSurvives(ReplaceInOrder(s, front, creds), k, creds[k], m);
    }
  }

  lemma {:induction false} PlaceholderShows(tokens: seq<Token>, i: nat)
    requires i < |tokens| && tokens[i].Placeholder?
    ensures Contains(Render(tokens), PlaceholderFor(tokens[i].key))
  {
    if i == 0 {
      assert HasPrefix(Render(tokens), PlaceholderFor(tokens[0].key));
    } else {
      PlaceholderShows(tokens[1..], i - 1);
      ContainsInSuffix(RenderToken(tokens[0]), Render(tokens[1..]), PlaceholderFor(tokens[i].key));
    }
  }

  lemma {:induction false} PlaceholderHoldsPair(s: string, m: string)
    requires Contains(s, PlaceholderFor(m))
    ensures Contains(s, "{{")
    decreases |s|
  {
    if HasPrefix(s, PlaceholderFor(m)) {
      assert PlaceholderFor(m)[..2] == "{{" && s[..2] == "{{";
    } else {
      PlaceholderHoldsPair(s[1..], m);
    }
  }

  // -------------------------------------------------------------------- the theorem

  function Checked(dsn: string): DsnResult {
    if Contains(dsn, "{{") then Unresolved else Dsn(dsn)
  }

  /** A placeholder without a credential is always reported, whatever the literals and the values hold. */
  lemma UnresolvedIsReported(tokens: seq<Token>, order: seq<string>, creds: map<string, string>)
    requires PlainNames(tokens) && PlainKeys(creds) && Enumerates(order, creds.Keys) && !Resolved(tokens, creds)
    ensures Checked(ReplaceInOrder(Render(tokens), order, creds)) == Unresolved
  {
    var i :| 0 <= i < |tokens| && tokens[i].Placeholder? && tokens[i].key !in creds;
    PlaceholderShows(tokens, i);
    PlaceholderStays(Render(tokens), order, creds, tokens[i].key);
    PlaceholderHoldsPair(ReplaceInOrder(Render(tokens), order, creds), tokens[i].key);
  }

  /**
   For every template with plain names, every map with plain keys and every order of it: the result is the one
   obtained by filling all placeholders at once, and an error exactly when a placeholder has no credential, if and
   only if the filled text holds no open brace pair.
   */
  lemma FillingExact(tokens: seq<Token>, order: seq<string>, creds: map<string, string>)
    requires PlainNames(tokens) && PlainKeys(creds) && Enumerates(order, creds.Keys)
    ensures Checked(ReplaceInOrder(Render(tokens), order, creds)) == Expected(tokens, creds) <==> Settles(tokens, creds)
  {
    if !Resolved(tokens, creds) {
      UnresolvedIsReported(tokens, order, creds);
    } else if Settles(tokens, creds) {
      ReplaceInOrderIsFill(tokens, order, creds);
      assert Restrict(creds, order) == creds;
    }
  }

  // ------------------------------------------- credentials that no template is unsafe with

  /** Literals hold no `{`, placeholder names no brace. */
  predicate WellFormed(tokens: seq<Token>) {
    PlainNames(tokens) && forall i :: 0 <= i < |tokens| && tokens[i].Literal? ==> Lacks(tokens[i].text, '{')
  }

  predicate Opens(text: string) {
    text != "" && text[0] == '{'
  }

  predicate Ends(text: string) {
    text != "" && text[|text| - 1] == '{'
  }

  /** No value holds an open brace pair, and no two values make one where they meet. */
  predicate CalmValues(creds: map<string, string>) {
    && (forall k :: k in creds ==> !Contains(creds[k], "{{"))
    && (forall k, l :: k in creds && l in creds ==> !(Ends(creds[k]) && Opens(creds[l])))
  }

  predicate CalmPieces(pieces: seq<Token>) {
    && (forall i :: 0 <= i < |pieces| ==> pieces[i].Literal? && !Contains(pieces[i].text, "{{"))
    && (forall i, j :: 0 <= i < |pieces| && 0 <= j < |pieces| && pieces[i].Literal? && pieces[j].Literal? ==>
          !(Ends(pieces[i].text) && Opens(pieces[j].text)))
  }

  lemma {:induction false} SomePieceOpens(pieces: seq<Token>) returns (i: nat)
    requires (forall i :: 0 <= i < |pieces| ==> pieces[i].Literal?) && Opens(Render(pieces))
    ensures i < |pieces| && Opens(pieces[i].text)
  {
    if pieces[0].text == "" {
      assert Render(pieces) == Render(pieces[1..]);
      i := SomePieceOpens(pieces[1..]);
      i := i + 1;
    } else {
      assert Render(pieces)[0] == pieces[0].text[0];
      i := 0;
    }
  }

  lemma {:induction false} SeamKeepsCalm(p: string, s: string)
    requires !Contains(p, "{{") && !Contains(s, "{{") && !(Ends(p) && Opens(s))
    ensures !Contains(p + s, "{{")
  {
    var w := p + s;
    if p == "" {
      assert w == s;
    } else {
      assert w[1..] == p[1..] + s;
      SeamKeepsCalm(p[1..], s);
      if |p| > 1 {
        NoPairInside(p, 0);
        assert w[0] == p[0] && w[1] == p[1];
      } else if s != "" {
        assert w[0] == p[0] && w[1] == s[0];
      }
    }
  }

  lemma {:induction false} CalmPiecesHoldNoPair(pieces: seq<Token>)
    requires CalmPieces(pieces)
    ensures !Contains(Render(pieces), "{{")
  {
    if pieces == [] {
    } else {
      var rest := pieces[1..];
      assert forall i :: 0 <= i < |rest| ==> rest[i] == pieces[i + 1];
      CalmPiecesHoldNoPair(rest);
      if Opens(Render(rest)) {
        var i := SomePieceOpens(rest);
        assert rest[i] == pieces[i + 1];
      }
      SeamKeepsCalm(pieces[0].text, Render(rest));
    }
  }

  lemma {:induction false} LacksPair(text: string)
    requires Lacks(text, '{')
    ensures !Contains(text, "{{") && !Opens(text) && !Ends(text)
  {
    if text == "" {
    } else {
      LacksPair(text[1..]);
    }
  }

  lemma FilledPiecesAreCalm(tokens: seq<Token>, creds: map<string, string>)
    requires WellFormed(tokens) && CalmValues(creds) && Resolved(tokens, creds)
    ensures CalmPieces(Fill(tokens, creds))
  {
    forall i | 0 <= i < |tokens| && tokens[i].Literal?
      ensures !Contains(tokens[i].text, "{{") && !Opens(tokens[i].text) && !Ends(tokens[i].text)
    {
      LacksPair(tokens[i].text);
    }
  }

  ghost predicate AlwaysSettles(creds: map<string, string>) {
    forall tokens :: WellFormed(tokens) ==> Settles(tokens, creds)
  }

  lemma {:induction false} PairAtSeam(a: string, b: string)
    requires Contains(a, "{{") || (Ends(a) && Opens(b))
    ensures Contains(a + b, "{{")
    decreases |a|
  {
    var w := a + b;
    if HasPrefix(a, "{{") || |a| == 1 {
      assert w[..2] == "{{";
    } else {
      assert w[1..] == a[1..] + b;
      PairAtSeam(a[1..], b);
    }
  }

  /** The template that fills two keys one after the other. */
  lemma RestlessPair(creds: map<string, string>, k: string, l: string)
    requires k in creds && l in creds && PlainKeys(creds)
    requires Contains(creds[k], "{{") || (Ends(creds[k]) && Opens(creds[l]))
    ensures var tokens := [Placeholder(k), Placeholder(l)]; WellFormed(tokens) && !Settles(tokens, creds)
  {
    var tokens := [Placeholder(k), Placeholder(l)];
    var filled := Fill(tokens, creds);
    assert filled == [Literal(creds[k]), Literal(creds[l])];
    assert filled[1..] == [Literal(creds[l])] && filled[1..][1..] == [];
    assert Render(filled[1..]) == creds[l] + "" == creds[l];
    PairAtSeam(creds[k], creds[l]);
  }

  /**
   Credentials that fill every template without braces in its literals as they should are exactly those in which no
   value holds an open brace pair and no two values make one where they meet.
   */
  lemma ValuesExact(creds: map<string, string>)
    requires PlainKeys(creds)
    ensures AlwaysSettles(creds) <==> CalmValues(creds)
  {
    if CalmValues(creds) {
      forall tokens | WellFormed(tokens) ensures Settles(tokens, creds) {
        if Resolved(tokens, creds) {
          FilledPiecesAreCalm(tokens, creds);
          CalmPiecesHoldNoPair(Fill(tokens, creds));
        }
      }
    } else if k :| k in creds && Contains(creds[k], "{{") {
      RestlessPair(creds, k, k);
    } else {
      var k, l :| k in creds && l in creds && Ends(creds[k]) && Opens(creds[l]);
      RestlessPair(creds, k, l);
    }
  }

  // ------------------------------------------------------- orders that differ

  lemma OnePlaceholder(x: string, k: string, v: string)
    requires PlainKey(x) && PlainKey(k)
    ensures ReplaceAll(PlaceholderFor(x), PlaceholderFor(k), v) == if x == k then v else PlaceholderFor(x)
  {
    var tokens := [Placeholder(x)];
    assert tokens[1..] == [] && Render(tokens) == PlaceholderFor(x) + "" == PlaceholderFor(x);
    assert Leading(tokens) == "" && Calm(tokens);
    ReplaceIsFill(tokens, k, v);
    var filled := Fill(tokens, map[k := v]);
    assert filled == if x == k then [Literal(v)] else tokens;
    assert Render([Literal(v)]) == v + "" == v;
  }

  lemma InTwoSteps(dsn: string, a: string, b: string, creds: map<string, string>)
    requires a in creds && b in creds
    ensures ReplaceInOrder(dsn, [a, b], creds)
         == ReplaceAll(ReplaceAll(dsn, PlaceholderFor(a), creds[a]), PlaceholderFor(b), creds[b])
  {
    assert [a, b][..1] == [a] && [a][..0] == [];
    assert ReplaceInOrder(dsn, [a], creds) == ReplaceAll(dsn, PlaceholderFor(a), creds[a]);
  }

  /** A value that is itself another key's placeholder makes the result depend on the order of the map. */
  lemma NestedValueBreaksOrder(a: string, b: string, v: string)
    requires PlainKey(a) && PlainKey(b) && a != b && Lacks(v, '{')
    ensures var creds := map[a := PlaceholderFor(b), b := v];
            && Enumerates([a, b], creds.Keys) && Enumerates([b, a], creds.Keys)
            && Checked(ReplaceInOrder(PlaceholderFor(a), [a, b], creds)) == Dsn(v)
            && Checked(ReplaceInOrder(PlaceholderFor(a), [b, a], creds)) == Unresolved
  {
    var creds := map[a := PlaceholderFor(b), b := v];
    InTwoSteps(PlaceholderFor(a), a, b, creds);
    InTwoSteps(PlaceholderFor(a), b, a, creds);
    OnePlaceholder(a, a, PlaceholderFor(b));
    OnePlaceholder(a, b, v);
    OnePlaceholder(b, b, v);
    LacksPair(v);
    assert PlaceholderFor(b)[..2] == "{{";
  }

  // --------------------------------------------------------------- the method

  /** `Connector.buildDSN` on what `GetCredentials` returned. */
  method BuildDsn(template: string, credentials: Option<map<string, string>>) returns (r: DsnResult)
    ensures credentials.None? ==> r == NoCredential
    ensures credentials.Some? ==>
              exists order :: Enumerates(order, credentials.value.Keys)
                           && r == Checked(ReplaceInOrder(template, order, credentials.value))
    ensures credentials.Some? && PlainKeys(credentials.value) ==>
              forall tokens | PlainNames(tokens) && Render(tokens) == template ::
                r == Expected(tokens, credentials.value) <==> Settles(tokens, credentials.value)
  {
    if credentials.None? {
      return NoCredential;
    }
    var creds := credentials.value;
    var dsn := template;
    var remaining := creds.Keys;
    ghost var order: seq<string> := [];
    while remaining != {}
      invariant remaining <= creds.Keys
      invariant Enumerates(order, creds.Keys - remaining)
      invariant dsn == ReplaceInOrder(template, order, creds)
      decreases remaining
    {
      var k :| k in remaining;
      dsn := ReplaceAll(dsn, PlaceholderFor(k), creds[k]);
      assert (order + [k])[..|order|] == order;
      order := order + [k];
      remaining := remaining - {k};
    }
    assert creds.Keys - remaining == creds.Keys;
    r := if Contains(dsn, "{{") then Unresolved else Dsn(dsn);
    if PlainKeys(creds) {
      forall tokens | PlainNames(tokens) && Render(tokens) == template
        ensures r == Expected(tokens, creds) <==> Settles(tokens, creds)
      {
        FillingExact(tokens, order, creds);
      }
    }
  }
}
