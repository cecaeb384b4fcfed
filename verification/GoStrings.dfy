/**
 The functions of Go's strings package that the modelled code calls.
 A Go string is a sequence of bytes; here each char stands for one byte.
 Every separator used by the code is a single byte.
 */
module GoStrings {

  /** strings.ReplaceAll: non-overlapping matches, left to right. */
  function ReplaceAll(s: string, from: string, to: string): string
    requires from != ""
  {
    if s == "" then ""
    else if from <= s then to + ReplaceAll(s[|from|..], from, to)
    else [s[0]] + ReplaceAll(s[1..], from, to)
  }

  /** strings.Split with a one-byte separator. */
  function Split(s: string, sep: char): (parts: seq<string>)
    ensures |parts| >= 1
    ensures forall i :: 0 <= i < |parts| ==> sep !in parts[i]
  {
    if s == "" then [""]
    else
      var rest := Split(s[1..], sep);
      if s[0] == sep then [""] + rest else [[s[0]] + rest[0]] + rest[1..]
  }

  /** strings.SplitN with a one-byte separator and a positive limit. */
  function SplitN(s: string, sep: char, n: nat): (parts: seq<string>)
    requires n >= 1
    ensures 1 <= |parts| <= n
    ensures forall i :: 0 <= i < |parts| - 1 ==> sep !in parts[i]
  {
    if n == 1 || s == "" then [s]
    else if s[0] == sep then [""] + SplitN(s[1..], sep, n - 1)
    else
      var rest := SplitN(s[1..], sep, n);
      [[s[0]] + rest[0]] + rest[1..]
  }

  /** strings.Join with a one-byte separator. */
  function Join(parts: seq<string>, sep: char): string
  {
    if |parts| == 0 then ""
    else if |parts| == 1 then parts[0]
    else parts[0] + [sep] + Join(parts[1..], sep)
  }

  /** strings.LastIndex with a one-byte needle; -1 when absent. */
  function LastIndex(s: string, c: char): (r: int)
    ensures -1 <= r < |s|
    ensures r >= 0 ==> s[r] == c
    ensures forall j :: r < j < |s| ==> s[j] != c
  {
    if s == "" then -1
    else if s[|s| - 1] == c then |s| - 1
    else LastIndex(s[..|s| - 1], c)
  }

  /** strings.Index with a one-byte needle; -1 when absent. */
  function Index(s: string, c: char): (r: int)
    ensures -1 <= r < |s|
    ensures r >= 0 ==> s[r] == c && c !in s[..r]
    ensures r == -1 <==> c !in s
  {
    if s == "" then -1
    else if s[0] == c then 0
    else
      var r := Index(s[1..], c);
      if r == -1 then -1 else
        assert s[..r + 1] == [s[0]] + s[1..][..r];
        r + 1
  }

  lemma {:induction false} IndexAfter(s: string, t: string, c: char)
    requires c !in s
    ensures Index(s + [c] + t, c) == |s|
  {
    if s != "" {
      IndexAfter(s[1..], t, c);
      assert (s + [c] + t)[1..] == s[1..] + [c] + t;
    }
  }

  /** strings.TrimRight with a one-byte cut set. */
  function TrimRight(s: string, c: char): string
  {
    if s != "" && s[|s| - 1] == c then TrimRight(s[..|s| - 1], c) else s
  }

  /** strings.Trim with a one-byte cut set. */
  function Trim(s: string, c: char): string
  {
    if s != "" && s[0] == c then Trim(s[1..], c) else TrimRight(s, c)
  }

  lemma ReplaceSkip(x: char, t: string, from: string, to: string)
    requires from != "" && !(from <= [x] + t)
    ensures ReplaceAll([x] + t, from, to) == [x] + ReplaceAll(t, from, to)
  {
  }

  lemma ReplaceHit(t: string, from: string, to: string)
    requires from != ""
    ensures ReplaceAll(from + t, from, to) == to + ReplaceAll(t, from, to)
  {
  }

  lemma ReplaceByteStep(x: char, t: string, c: char, to: string)
    ensures ReplaceAll([x] + t, [c], to) == (if x == c then to else [x]) + ReplaceAll(t, [c], to)
  {
    if x == c {
      ReplaceHit(t, [c], to);
    } else {
      assert [c][0] != x;
      ReplaceSkip(x, t, [c], to);
    }
  }

  lemma ConcatAssociative(a: string, b: string, c: string)
    ensures (a + b) + c == a + (b + c)
  {
  }

  lemma {:induction false} ReplaceByteOfConcat(a: string, b: string, c: char, to: string)
    ensures ReplaceAll(a + b, [c], to) == ReplaceAll(a, [c], to) + ReplaceAll(b, [c], to)
  {
    if a == "" {
      assert a + b == b;
    } else {
      var x, t := a[0], a[1..];
      ReplaceByteOfConcat(t, b, c, to);
      ReplaceByteStep(x, t, c, to);
      ReplaceByteStep(x, t + b, c, to);
      assert a == [x] + t;
      ConcatAssociative([x], t, b);
      ConcatAssociative(if x == c then to else [x], ReplaceAll(t, [c], to), ReplaceAll(b, [c], to));
    }
  }

  /** Splitting a text that starts with a separator-free segment and a separator. */
  lemma {:induction false} SplitSegment(p: string, rest: string, sep: char)
    requires sep !in p
    ensures Split(p + [sep] + rest, sep) == [p] + Split(rest, sep)
  {
    var s := p + [sep] + rest;
    if p == "" {
      assert s[1..] == rest;
    } else {
      assert s[1..] == p[1..] + [sep] + rest;
      SplitSegment(p[1..], rest, sep);
      assert s[0] == p[0];
      assert p == [p[0]] + p[1..];
    }
  }

  lemma {:induction false} SplitWhole(p: string, sep: char)
    requires sep !in p
    ensures Split(p, sep) == [p]
  {
    if p != "" {
      SplitWhole(p[1..], sep);
      assert p == [p[0]] + p[1..];
    }
  }

  lemma {:induction false} SplitOfJoin(parts: seq<string>, sep: char)
    requires |parts| >= 1
    requires forall i :: 0 <= i < |parts| ==> sep !in parts[i]
    ensures Split(Join(parts, sep), sep) == parts
  {
    if |parts| == 1 {
      SplitWhole(parts[0], sep);
    } else {
      SplitOfJoin(parts[1..], sep);
      SplitSegment(parts[0], Join(parts[1..], sep), sep);
      assert parts == [parts[0]] + parts[1..];
    }
  }

  lemma {:induction false} SplitNSegment(p: string, rest: string, sep: char, n: nat)
    requires sep !in p && n >= 2
    ensures SplitN(p + [sep] + rest, sep, n) == [p] + SplitN(rest, sep, n - 1)
  {
    var s := p + [sep] + rest;
    if p == "" {
      assert s[1..] == rest;
    } else {
      assert s[1..] == p[1..] + [sep] + rest;
      SplitNSegment(p[1..], rest, sep, n);
      assert p == [p[0]] + p[1..];
    }
  }
}
