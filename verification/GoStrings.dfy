/**
 The parts of Go's `strings` package the SDK relies on.

 A Go string is a sequence of bytes; here it is a `string` with one `char` per byte.
 */
module GoStrings {
  predicate HasPrefix(s: string, prefix: string) {
    prefix <= s
  }

  predicate HasSuffix(s: string, suffix: string) {
    |suffix| <= |s| && s[|s| - |suffix|..] == suffix
  }

  predicate Contains(s: string, sub: string)
    decreases |s|
  {
    HasPrefix(s, sub) || (|s| > 0 && Contains(s[1..], sub))
  }

  /** `strings.ReplaceAll` for a non-empty pattern: leftmost, non-overlapping. */
  function ReplaceAll(s: string, pattern: string, subst: string): string
    requires |pattern| > 0
    decreases |s|
  {
    if s == "" then ""
    else if HasPrefix(s, pattern) then subst + ReplaceAll(s[|pattern|..], pattern, subst)
    else [s[0]] + ReplaceAll(s[1..], pattern, subst)
  }

  predicate Lacks(s: string, c: char) {
    forall i :: 0 <= i < |s| ==> s[i] != c
  }

  // ------------------------------------------------------------ split and join

  /** `strings.Split(s, "/")`, generalised to any one-byte separator. */
  function Split(s: string, sep: char): (parts: seq<string>)
    ensures |parts| >= 1
    decreases |s|
  {
    if s == "" then [""] else PrependByte(s[0], Split(s[1..], sep), sep)
  }

  /** The parts of `[c] + s`, given the parts of `s`. */
  function PrependByte(c: char, parts: seq<string>, sep: char): (r: seq<string>)
    requires |parts| >= 1
    ensures |r| >= 1
  {
    if c == sep then [""] + parts else [[c] + parts[0]] + parts[1..]
  }

  function Join(parts: seq<string>, sep: char): string {
    if parts == [] then ""
    else if |parts| == 1 then parts[0]
    else parts[0] + [sep] + Join(parts[1..], sep)
  }

  lemma {:induction false} SplitOfPlain(s: string, sep: char)
    requires Lacks(s, sep)
    ensures Split(s, sep) == [s]
  {
    if s == "" {
    } else {
      SplitOfPlain(s[1..], sep);
      assert s == [s[0]] + s[1..];
    }
  }

  lemma {:induction false} SplitAtSeparator(head: string, tail: string, sep: char)
    requires Lacks(head, sep)
    ensures Split(head + [sep] + tail, sep) == [head] + Split(tail, sep)
  {
    var s := head + [sep] + tail;
    if head == "" {
      assert s[1..] == tail;
    } else {
      SplitAtSeparator(head[1..], tail, sep);
      assert s[1..] == head[1..] + [sep] + tail;
      assert head == [head[0]] + head[1..];
    }
  }

  /** Splitting undoes joining, as long as no part holds the separator. */
  lemma {:induction false} SplitOfJoin(parts: seq<string>, sep: char)
    requires parts != []
    requires forall i :: 0 <= i < |parts| ==> Lacks(parts[i], sep)
    ensures Split(Join(parts, sep), sep) == parts
  {
    if |parts| == 1 {
      SplitOfPlain(parts[0], sep);
    } else {
      SplitOfJoin(parts[1..], sep);
      SplitAtSeparator(parts[0], Join(parts[1..], sep), sep);
    }
  }

  lemma {:induction false} SplitPartsLackSeparator(s: string, sep: char)
    ensures forall i :: 0 <= i < |Split(s, sep)| ==> Lacks(Split(s, sep)[i], sep)
    ensures forall i, c :: 0 <= i < |Split(s, sep)| && c in Split(s, sep)[i] ==> c in s
  {
    if s == "" {
    } else {
      SplitPartsLackSeparator(s[1..], sep);
      assert s == [s[0]] + s[1..];
    }
  }

  // ------------------------------------------------------------------ trimming

  function TrimLeft(s: string, c: char): string {
    if s != "" && s[0] == c then TrimLeft(s[1..], c) else s
  }

  function TrimRight(s: string, c: char): (r: string)
    ensures r <= s && (r == "" || r[|r| - 1] != c)
  {
    if s != "" && s[|s| - 1] == c then TrimRight(s[..|s| - 1], c) else s
  }

  function Trim(s: string, c: char): string {
    TrimRight(TrimLeft(s, c), c)
  }

  /** White space as `unicode.IsSpace` has it: the one-, two- and three-byte UTF-8 encodings. */
  predicate Space1(a: char) {
    a == ' ' || 9 <= a as int <= 13
  }

  predicate Space2(a: char, b: char) {
    a as int == 0xC2 && (b as int == 0x85 || b as int == 0xA0)
  }

  predicate Space3(a: char, b: char, c: char) {
    var x, y, z := a as int, b as int, c as int;
    || (x == 0xE1 && y == 0x9A && z == 0x80)
    || (x == 0xE2 && y == 0x80 && (0x80 <= z <= 0x8A || z == 0xA8 || z == 0xA9 || z == 0xAF))
    || (x == 0xE2 && y == 0x81 && z == 0x9F)
    || (x == 0xE3 && y == 0x80 && z == 0x80)
  }

  /** The number of bytes of white space at the head of `s`, at most one rune's worth. */
  function LeadingSpace(s: string): (n: nat)
    ensures n <= |s|
  {
    if |s| >= 1 && Space1(s[0]) then 1
    else if |s| >= 2 && Space2(s[0], s[1]) then 2
    else if |s| >= 3 && Space3(s[0], s[1], s[2]) then 3
    else 0
  }

  function TrailingSpace(s: string): (n: nat)
    ensures n <= |s|
  {
    var m := |s|;
    if m >= 1 && Space1(s[m - 1]) then 1
    else if m >= 2 && Space2(s[m - 2], s[m - 1]) then 2
    else if m >= 3 && Space3(s[m - 3], s[m - 2], s[m - 1]) then 3
    else 0
  }

  function TrimLeftSpace(s: string): string
    decreases |s|
  {
    var n := LeadingSpace(s);
    if n == 0 then s else TrimLeftSpace(s[n..])
  }

  function TrimRightSpace(s: string): (r: string)
    ensures |r| <= |s| && (TrailingSpace(s) > 0 ==> |r| < |s|)
    decreases |s|
  {
    var n := TrailingSpace(s);
    if n == 0 then s else TrimRightSpace(s[..|s| - n])
  }

  function TrimSpace(s: string): string {
    TrimRightSpace(TrimLeftSpace(s))
  }

  lemma {:induction false} TrimmedLeft(s: string)
    ensures LeadingSpace(TrimLeftSpace(s)) == 0
    decreases |s|
  {
    if LeadingSpace(s) != 0 {
      TrimmedLeft(s[LeadingSpace(s)..]);
    }
  }

  lemma {:induction false} TrimmedRight(s: string)
    requires LeadingSpace(s) == 0
    ensures LeadingSpace(TrimRightSpace(s)) == 0 && TrailingSpace(TrimRightSpace(s)) == 0
    decreases |s|
  {
    if TrailingSpace(s) != 0 {
      TrimmedRight(s[..|s| - TrailingSpace(s)]);
    }
  }

  lemma TrimSpaceIdempotent(s: string)
    ensures TrimSpace(TrimSpace(s)) == TrimSpace(s)
  {
    TrimSpaceTrims(s);
  }

  lemma TrimSpaceTrims(s: string)
    ensures LeadingSpace(TrimSpace(s)) == 0 && TrailingSpace(TrimSpace(s)) == 0
  {
    TrimmedLeft(s);
    TrimmedRight(TrimLeftSpace(s));
  }

  /** A byte that neither starts nor ends any white-space encoding. */
  predicate Graphic(c: char) {
    '!' <= c <= '~'
  }

  /** Text that begins and ends with a printing ASCII byte is left alone. */
  lemma TrimSpaceKeepsGraphic(s: string)
    requires s != "" && Graphic(s[0]) && Graphic(s[|s| - 1])
    ensures TrimSpace(s) == s
  {
  }
}
