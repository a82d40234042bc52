/** HTTP header names and the map a request carries. */
module Headers {
  import opened Dpop

  datatype Value = Text(text: string) | Proof(claims: Claims)

  const IDEMPOTENCY_KEY := "Idempotency-Key"
  const AUTHORIZATION := "Authorization"
  const DPOP := "Dpop"

  function Lower(c: char): char {
    if 'A' <= c <= 'Z' then (c as int + 32) as char else c
  }

  function Upper(c: char): char {
    if 'a' <= c <= 'z' then (c as int - 32) as char else c
  }

  function ToUpper(s: string): string {
    seq(|s|, i requires 0 <= i < |s| => Upper(s[i]))
  }

  /** `strings.EqualFold`, for ASCII text. */
  predicate EqualFold(a: string, b: string) {
    |a| == |b| && forall i :: 0 <= i < |a| ==> Lower(a[i]) == Lower(b[i])
  }

  /** A byte allowed in a header field name. */
  predicate TokenByte(c: char) {
    || 'a' <= c <= 'z' || 'A' <= c <= 'Z' || '0' <= c <= '9'
    || c in {'!', '#', '$', '%', '&', '\'', '*', '+', '-', '.', '^', '_', '`', '|', '~'}
  }

  /** `textproto.CanonicalMIMEHeaderKey`. */
  function Canonical(k: string): (r: string)
    ensures |r| == |k|
  {
    if exists i :: 0 <= i < |k| && !TokenByte(k[i]) then k
    else seq(|k|, i requires 0 <= i < |k| => if i == 0 || k[i - 1] == '-' then Upper(k[i]) else Lower(k[i]))
  }

  lemma IdempotencyKeyIsCanonical()
    ensures Canonical(IDEMPOTENCY_KEY) == IDEMPOTENCY_KEY
    ensures forall i :: 0 <= i < |IDEMPOTENCY_KEY| ==> TokenByte(IDEMPOTENCY_KEY[i])
  {
    assert forall i :: 0 <= i < |IDEMPOTENCY_KEY| ==> TokenByte(IDEMPOTENCY_KEY[i]);
  }

  lemma FoldedBytes(a: char, b: char)
    requires Lower(a) == Lower(b)
    ensures Upper(a) == Upper(b) && TokenByte(a) == TokenByte(b) && (a == '-' <==> b == '-')
  {
  }

  lemma FoldedNames(k: string, name: string)
    requires EqualFold(k, name) && forall i :: 0 <= i < |name| ==> TokenByte(name[i])
    ensures Canonical(k) == Canonical(name)
  {
    forall i | 0 <= i < |k|
      ensures TokenByte(k[i]) && Lower(k[i]) == Lower(name[i]) && Upper(k[i]) == Upper(name[i])
      ensures k[i] == '-' <==> name[i] == '-'
    {
      FoldedBytes(k[i], name[i]);
    }
  }

  lemma CanonicalFolds(k: string)
    ensures EqualFold(Canonical(k), k)
  {
    assert forall c :: Lower(Upper(c)) == Lower(c) == Lower(Lower(c));
  }

  /** A caller's name folds to `Idempotency-Key` exactly when it is stored under that name. */
  lemma FoldIsCanonical(k: string)
    ensures EqualFold(k, IDEMPOTENCY_KEY) <==> Canonical(k) == IDEMPOTENCY_KEY
  {
    IdempotencyKeyIsCanonical();
    if EqualFold(k, IDEMPOTENCY_KEY) {
      FoldedNames(k, IDEMPOTENCY_KEY);
    }
    CanonicalFolds(k);
  }

  /** A name that net/http accepts. */
  predicate HeaderName(k: string) {
    forall i :: 0 <= i < |k| ==> TokenByte(k[i])
  }

  /** Two header names are stored under one name exactly when they differ in case alone. */
  lemma CanonicalExactly(k: string, l: string)
    requires HeaderName(k) && HeaderName(l)
    ensures Canonical(k) == Canonical(l) <==> EqualFold(k, l)
  {
    CanonicalFolds(k);
    CanonicalFolds(l);
    if EqualFold(k, l) {
      FoldedNames(k, l);
    }
  }

  /** `for k, v := range extra { header.Set(k, v) }`, in the order Go happens to pick. */
  function SetAll(headers: map<string, Value>, extra: map<string, string>, order: seq<string>): map<string, Value> {
    if order == [] then headers
    else
      var h := SetAll(headers, extra, order[..|order| - 1]);
      var k := order[|order| - 1];
      if k in extra then h[Canonical(k) := Text(extra[k])] else h
  }

  /** A name no extra header is stored under keeps its value. */
  lemma {:induction false} SetAllKeeps(
      headers: map<string, Value>, extra: map<string, string>, order: seq<string>, name: string)
    requires forall k :: k in extra ==> Canonical(k) != name
    ensures (name in SetAll(headers, extra, order)) == (name in headers)
    ensures name in headers ==> SetAll(headers, extra, order)[name] == headers[name]
  {
    if order == [] {
    } else {
      SetAllKeeps(headers, extra, order[..|order| - 1], name);
    }
  }

  /** What stood under a name some extra header is stored under does not matter. */
  lemma {:induction false} SetAllForgets(
      h1: map<string, Value>, h2: map<string, Value>, extra: map<string, string>, order: seq<string>, name: string)
    requires h1 - {name} == h2 - {name}
    ensures SetAll(h1, extra, order) - {name} == SetAll(h2, extra, order) - {name}
    ensures (exists k :: k in order && k in extra && Canonical(k) == name) ==>
              SetAll(h1, extra, order) == SetAll(h2, extra, order)
  {
    if order == [] {
    } else {
      var k, front := order[|order| - 1], order[..|order| - 1];
      SetAllForgets(h1, h2, extra, front, name);
      if k in extra {
        SetForgets(SetAll(h1, extra, front), SetAll(h2, extra, front), name, Canonical(k), Text(extra[k]));
      }
      if exists x :: x in order && x in extra && Canonical(x) == name {
        var x :| x in order && x in extra && Canonical(x) == name;
        assert x == k || x in front;
      }
    }
  }

  lemma SetForgets(h1: map<string, Value>, h2: map<string, Value>, name: string, k: string, v: Value)
    requires h1 - {name} == h2 - {name}
    ensures h1[k := v] - {name} == h2[k := v] - {name}
    ensures k == name || h1 == h2 ==> h1[k := v] == h2[k := v]
  {
    assert forall x :: x != name ==> (x in h1 <==> x in h1 - {name}) && (x in h2 <==> x in h2 - {name});
    assert forall x :: x in h1 && x != name ==> h1[x] == (h1 - {name})[x];
    assert forall x :: x in h2 && x != name ==> h2[x] == (h2 - {name})[x];
  }

  /** When every extra header stored under a name has the same value, that value ends up there. */
  lemma {:induction false} SetAllOverrides(
      headers: map<string, Value>, extra: map<string, string>, order: seq<string>, name: string, value: string)
    requires forall k :: k in extra && Canonical(k) == name ==> extra[k] == value
    requires exists k :: k in order && k in extra && Canonical(k) == name
    ensures name in SetAll(headers, extra, order) && SetAll(headers, extra, order)[name] == Text(value)
  {
    var k, front := order[|order| - 1], order[..|order| - 1];
    if !(k in extra && Canonical(k) == name) {
      var w :| w in order && w in extra && Canonical(w) == name;
      assert w in front;
      SetAllOverrides(headers, extra, front, name, value);
    }
  }

  /** The last one set wins. */
  lemma SetAllLast(headers: map<string, Value>, extra: map<string, string>, front: seq<string>, k: string)
    requires k in extra
    ensures var h := SetAll(headers, extra, front + [k]);
            Canonical(k) in h && h[Canonical(k)] == Text(extra[k])
  {
    assert (front + [k])[..|front|] == front;
  }
}
