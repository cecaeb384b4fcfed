/**
 The cache-key format: backend/pkg/k8cache/cacheStore.go (escapeCacheKeySegment,
 unescapeCacheKeySegment, buildCacheKey) and the readers in context_cleanup.go.
 */
module KeyCodec {
  import opened GoStrings

  const DELIMITER: char := '+'

  /** Two passes: "%" first, then the delimiter. */
  function Escape(s: string): string
  {
    ReplaceAll(ReplaceAll(s, "%", "%25"), "+", "%2B")
  }

  /** The two passes undone in the opposite order. */
  function Unescape(s: string): string
  {
    ReplaceAll(ReplaceAll(s, "%2B", "+"), "%25", "%")
  }

  function BuildCacheKey(apiGroup: string, kind: string, namespace: string, contextID: string): string
  {
    Escape(apiGroup) + "+" + Escape(kind) + "+" + Escape(namespace) + "+" + Escape(contextID)
  }

  predicate KeyBelongsToContext(key: string, contextKey: string)
  {
    contextKey != "" &&
    var parts := SplitN(key, DELIMITER, 4);
    |parts| == 4 && parts[3] == Escape(contextKey)
  }

  /** The context a stored key is attributed to when the cache is swept; "" for none. */
  function ContextOfKey(key: string): string
  {
    var parts := SplitN(key, DELIMITER, 4);
    if |parts| == 4 && parts[3] != "" then Unescape(parts[3]) else ""
  }

  // ------------------------------------------------------------ round trip

  lemma EscapeStep(x: char, s: string)
    ensures Escape([x] + s) ==
            (if x == '%' then "%25" else if x == '+' then "%2B" else [x]) + Escape(s)
  {
    var head := if x == '%' then "%25" else [x];
    assert [x] + s == [x] + ([] + s);
    ReplaceByteOfConcat([x], s, '%', "%25");
    assert [x][1..] == "" && ReplaceAll("", "%", "%25") == "";
    if x == '%' {
      assert [x] == "%";
    } else {
      assert "%"[0] != [x][0];
      assert !("%" <= [x]);
    }
    assert ReplaceAll([x], "%", "%25") == head;
    ReplaceByteOfConcat(head, ReplaceAll(s, "%", "%25"), '+', "%2B");
    if x == '%' {
      PlusFree("%25");
    } else {
      assert "+"[0] == '+' && [x][0] == x;
      assert x != '+' ==> !("+" <= [x]);
    }
  }

  lemma {:induction false} PlusFree(s: string)
    requires '+' !in s
    ensures ReplaceAll(s, "+", "%2B") == s
  {
    if s != "" {
      PlusFree(s[1..]);
      assert s == [s[0]] + s[1..];
    }
  }

  lemma FirstPassOverPercent(e: string)
    ensures ReplaceAll("%25" + e, "%2B", "+") == "%25" + ReplaceAll(e, "%2B", "+")
  {
    var from := "%2B";
    assert from[0] == '%' && from[2] == 'B';
    assert "%25" + e == ['%'] + ("25" + e) && (['%'] + ("25" + e))[2] == '5';
    ReplaceSkip('%', "25" + e, from, "+");
    assert "25" + e == ['2'] + ("5" + e);
    ReplaceSkip('2', "5" + e, from, "+");
    assert "5" + e == ['5'] + e;
    ReplaceSkip('5', e, from, "+");
  }

  /** The first unescape pass removes exactly what the second escape pass added. */
  lemma {:induction false} FirstPass(s: string)
    ensures ReplaceAll(Escape(s), "%2B", "+") == ReplaceAll(s, "%", "%25")
  {
    if s != "" {
      var x, t := s[0], s[1..];
      assert s == [x] + t;
      EscapeStep(x, t);
      FirstPass(t);
      if x == '%' {
        FirstPassOverPercent(Escape(t));
        ReplaceHit(t, "%", "%25");
        assert s == "%" + t;
      } else {
        assert "%"[0] != x;
        ReplaceSkip(x, t, "%", "%25");
        if x == '+' {
          ReplaceHit(Escape(t), "%2B", "+");
        } else {
          assert "%2B"[0] != x;
          ReplaceSkip(x, Escape(t), "%2B", "+");
        }
      }
    }
  }

  lemma {:induction false} SecondPass(s: string)
    ensures ReplaceAll(ReplaceAll(s, "%", "%25"), "%25", "%") == s
  {
    if s != "" {
      var x, t := s[0], s[1..];
      assert s == [x] + t;
      var e := ReplaceAll(t, "%", "%25");
      SecondPass(t);
      if x == '%' {
        assert s == "%" + t;
        ReplaceHit(t, "%", "%25");
        ReplaceHit(e, "%25", "%");
      } else {
        assert "%"[0] != x && "%25"[0] != x;
        ReplaceSkip(x, t, "%", "%25");
        ReplaceSkip(x, e, "%25", "%");
      }
    }
  }

  /** Unescaping inverts escaping on every byte string. */
  lemma UnescapeInvertsEscape(s: string)
    ensures Unescape(Escape(s)) == s
  {
    FirstPass(s);
    SecondPass(s);
  }

  lemma {:induction false} EscapedHasNoDelimiter(s: string)
    ensures DELIMITER !in Escape(s)
  {
    if s != "" {
      assert s == [s[0]] + s[1..];
      EscapeStep(s[0], s[1..]);
      EscapedHasNoDelimiter(s[1..]);
    }
  }

  lemma EscapeInjective(a: string, b: string)
    ensures Escape(a) == Escape(b) ==> a == b
  {
    UnescapeInvertsEscape(a);
    UnescapeInvertsEscape(b);
  }

  /** Undoing the passes in the other order is wrong: "%2B" is a legal context name. */
  lemma PassOrderMatters()
    ensures ReplaceAll(ReplaceAll(Escape("%2B"), "%25", "%"), "%2B", "+") == "+"
  {
    EscapeStep('%', "2B");
    EscapeStep('2', "B");
    EscapeStep('B', "");
    assert ['%'] + "2B" == "%2B" && ['2'] + "B" == "2B" && ['B'] + "" == "B";
    assert Escape("") == "";
    assert Escape("%2B") == "%25" + "2B";
    ReplaceHit("2B", "%25", "%");
    assert "%25"[0] == '%';
    ReplaceSkip('2', "B", "%25", "%");
    ReplaceSkip('B', "", "%25", "%");
    assert "%" + "2B" == "%2B" + "";
    ReplaceHit("", "%2B", "+");
  }

  // ------------------------------------------------------------ the joined key

  lemma SplitFour(a: string, b: string, c: string, d: string, sep: char)
    requires sep !in a && sep !in b && sep !in c && sep !in d
    ensures SplitN(a + [sep] + (b + [sep] + (c + [sep] + d)), sep, 4) == [a, b, c, d]
    ensures Split(a + [sep] + (b + [sep] + (c + [sep] + d)), sep) == [a, b, c, d]
  {
    var r2 := c + [sep] + d;
    var r1 := b + [sep] + r2;
    SplitNSegment(a, r1, sep, 4);
    SplitNSegment(b, r2, sep, 3);
    SplitNSegment(c, d, sep, 2);
    SplitSegment(a, r1, sep);
    SplitSegment(b, r2, sep);
    SplitSegment(c, d, sep);
    SplitWhole(d, sep);
  }

  /** Both readers of the format get the four escaped fields back. */
  lemma SplitRecoversFields(g: string, k: string, n: string, c: string)
    ensures SplitN(BuildCacheKey(g, k, n, c), DELIMITER, 4) == [Escape(g), Escape(k), Escape(n), Escape(c)]
    ensures Split(BuildCacheKey(g, k, n, c), DELIMITER) == [Escape(g), Escape(k), Escape(n), Escape(c)]
  {
    EscapedHasNoDelimiter(g);
    EscapedHasNoDelimiter(k);
    EscapedHasNoDelimiter(n);
    EscapedHasNoDelimiter(c);
    SplitFour(Escape(g), Escape(k), Escape(n), Escape(c), DELIMITER);
    KeyIsJoin(Escape(g), Escape(k), Escape(n), Escape(c));
  }

  lemma KeyIsJoin(a: string, b: string, c: string, d: string)
    ensures a + "+" + b + "+" + c + "+" + d == a + [DELIMITER] + (b + [DELIMITER] + (c + [DELIMITER] + d))
  {
  }

  /** Distinct field tuples never share a key. */
  lemma BuildCacheKeyInjective(g: string, k: string, n: string, c: string,
                               g': string, k': string, n': string, c': string)
    requires BuildCacheKey(g, k, n, c) == BuildCacheKey(g', k', n', c')
    ensures g == g' && k == k' && n == n' && c == c'
  {
    SplitRecoversFields(g, k, n, c);
    SplitRecoversFields(g', k', n', c');
    var parts := [Escape(g), Escape(k), Escape(n), Escape(c)];
    assert parts == [Escape(g'), Escape(k'), Escape(n'), Escape(c')];
    assert parts[0] == Escape(g') && parts[1] == Escape(k') && parts[2] == Escape(n') && parts[3] == Escape(c');
    EscapeInjective(g, g');
    EscapeInjective(k, k');
    EscapeInjective(n, n');
    EscapeInjective(c, c');
  }

  /** A built key belongs to its own non-empty context and to no other. */
  lemma BuiltKeyBelongsExactly(g: string, k: string, n: string, c: string, other: string)
    ensures KeyBelongsToContext(BuildCacheKey(g, k, n, c), other) <==> other != "" && other == c
    ensures ContextOfKey(BuildCacheKey(g, k, n, c)) == c
  {
    SplitRecoversFields(g, k, n, c);
    EscapeInjective(other, c);
    UnescapeInvertsEscape(c);
    if Escape(c) == "" {
      assert Unescape("") == "";
    }
  }

  /** A key belongs to at most one context, and that context is the one the sweep attributes it to. */
  lemma BelongsImpliesAttributed(key: string, c: string)
    requires KeyBelongsToContext(key, c)
    ensures ContextOfKey(key) == c
  {
    UnescapeInvertsEscape(c);
    assert Unescape("") == "";
    assert SplitN(key, DELIMITER, 4)[3] == Escape(c);
  }
}
