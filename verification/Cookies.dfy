/**
 backend/pkg/auth/cookies.go against a browser's cookie jar. One cluster and one base URL are
 fixed, so a cookie is known by its name. Set-Cookie headers are applied in order, as section
 5.3 of RFC 6265 says: a Max-Age that is not positive removes the cookie.
 */
module Cookies {
  import opened Wrappers

  const CHUNK_SIZE: nat := 3800

  /** http.Cookie; Go writes no Max-Age for 0 and Max-Age=0 for a negative value. */
  datatype SetCookie = SetCookie(name: string, value: string, maxAge: int)

  type Jar = map<string, string>

  function Receive(jar: Jar, header: SetCookie): Jar
  {
    if header.maxAge < 0 then jar - {header.name} else jar[header.name := header.value]
  }

  function ReceiveAll(jar: Jar, headers: seq<SetCookie>): Jar
  {
    if headers == [] then jar
    else Receive(ReceiveAll(jar, headers[..|headers| - 1]), headers[|headers| - 1])
  }

  // ------------------------------------------------------------ cookie names

  /** Sprintf("%d"). */
  function Decimal(n: nat): (s: string)
    ensures |s| >= 1
  {
    if n < 10 then [('0' as int + n) as char] else Decimal(n / 10) + [('0' as int + n % 10) as char]
  }

  function CookieName(cluster: string, i: nat): string
  {
    "headlamp-auth-" + cluster + "." + Decimal(i)
  }

  lemma {:induction false} DecimalInjective(a: nat, b: nat)
    requires Decimal(a) == Decimal(b)
    ensures a == b
  {
    var s, t := Decimal(a), Decimal(b);
    assert s[|s| - 1] == t[|t| - 1];
    assert s[|s| - 1] == ('0' as int + a % 10) as char && t[|t| - 1] == ('0' as int + b % 10) as char;
    assert a < 10 <==> |s| == 1;
    assert b < 10 <==> |t| == 1;
    if a >= 10 {
      assert Decimal(a / 10) == s[..|s| - 1] && Decimal(b / 10) == t[..|t| - 1];
      DecimalInjective(a / 10, b / 10);
    }
  }

  lemma CookieNameInjective(cluster: string, i: nat, j: nat)
    requires CookieName(cluster, i) == CookieName(cluster, j)
    ensures i == j
  {
    var n := |"headlamp-auth-" + cluster + "."|;
    assert CookieName(cluster, i)[n..] == Decimal(i) && CookieName(cluster, j)[n..] == Decimal(j);
    DecimalInjective(i, j);
  }

  lemma {:induction false} DecimalHasDigitsOnly(n: nat)
    ensures forall i :: 0 <= i < |Decimal(n)| ==> '0' <= Decimal(n)[i] <= '9'
  {
    if n >= 10 {
      DecimalHasDigitsOnly(n / 10);
    }
  }

  /** Cookies of different clusters never share a name; sanitized cluster names have no dot. */
  lemma CookieNamesApart(cluster: string, i: nat, other: string, j: nat)
    requires '.' !in cluster && '.' !in other
    requires CookieName(cluster, i) == CookieName(other, j)
    ensures cluster == other && i == j
  {
    var p := |"headlamp-auth-"|;
    var s, t := CookieName(cluster, i)[p..], CookieName(other, j)[p..];
    assert s == cluster + "." + Decimal(i) && t == other + "." + Decimal(j);
    assert s[|cluster|] == '.' && t[|other|] == '.';
    DecimalHasDigitsOnly(i);
    DecimalHasDigitsOnly(j);
    assert forall k :: |cluster| < k < |s| ==> s[k] == Decimal(i)[k - |cluster| - 1];
    assert forall k :: |other| < k < |t| ==> t[k] == Decimal(j)[k - |other| - 1];
    assert |cluster| == |other|;
    assert cluster == s[..|cluster|] == other;
    CookieNameInjective(cluster, i, j);
  }

  // ------------------------------------------------------------ chunks

  function Chunks(token: string, size: nat): seq<string>
    requires size > 0
  {
    if |token| == 0 then []
    else if |token| <= size then [token]
    else [token[..size]] + Chunks(token[size..], size)
  }

  function Concat(parts: seq<string>): string
  {
    if parts == [] then "" else parts[0] + Concat(parts[1..])
  }

  lemma {:induction false} ChunksRejoin(token: string, size: nat)
    requires size > 0
    ensures Concat(Chunks(token, size)) == token
    ensures forall i :: 0 <= i < |Chunks(token, size)| ==> 1 <= |Chunks(token, size)[i]| <= size
  {
    if |token| > size {
      ChunksRejoin(token[size..], size);
      assert Chunks(token, size)[1..] == Chunks(token[size..], size);
      assert token[..size] + token[size..] == token;
    } else if |token| > 0 {
      assert [token][1..] == [];
    }
  }

  method SplitToken(token: string, size: nat) returns (chunks: seq<string>)
    requires size > 0
    ensures chunks == Chunks(token, size)
  {
    chunks := [];
    var i := 0;
    while i < |token|
      invariant 0 <= i
      invariant chunks + (if i < |token| then Chunks(token[i..], size) else []) == Chunks(token, size)
    {
      var end := if i + size > |token| then |token| else i + size;
      var rest := token[i..];
      assert i + size < |token| ==> rest[size..] == token[i + size..];
      assert token[i..end] == if |rest| <= size then rest else rest[..size];
      chunks := chunks + [token[i..end]];
      i := i + size;
    }
  }

  // ------------------------------------------------------------ the handlers

  class Request {
    /** The cookies the browser sent. */
    const cookies: Jar

    constructor (cookies: Jar)
      ensures this.cookies == cookies
    {
      this.cookies := cookies;
    }
  }

  class ResponseWriter {
    var headers: seq<SetCookie>

    constructor ()
      ensures headers == []
    {
      headers := [];
    }
  }

  /** The jar holds exactly the chunks, numbered from 0. */
  ghost predicate Holds(jar: Jar, cluster: string, chunks: seq<string>)
  {
    && (forall i :: 0 <= i < |chunks| ==> CookieName(cluster, i) in jar && jar[CookieName(cluster, i)] == chunks[i])
    && (forall name :: name in jar ==> exists i :: 0 <= i < |chunks| && name == CookieName(cluster, i))
  }

  ghost function NamesUpTo(cluster: string, n: nat): set<string>
  {
    set i | 0 <= i < n :: CookieName(cluster, i)
  }

  lemma NextName(cluster: string, n: nat)
    ensures NamesUpTo(cluster, n + 1) == NamesUpTo(cluster, n) + {CookieName(cluster, n)}
    ensures CookieName(cluster, n) !in NamesUpTo(cluster, n)
  {
    forall i | 0 <= i < n ensures CookieName(cluster, i) != CookieName(cluster, n) {
      if CookieName(cluster, i) == CookieName(cluster, n) {
        CookieNameInjective(cluster, i, n);
      }
    }
  }

  lemma {:induction false} NamesUpToCount(cluster: string, n: nat)
    ensures |NamesUpTo(cluster, n)| == n
  {
    if n > 0 {
      NamesUpToCount(cluster, n - 1);
      NextName(cluster, n - 1);
    }
  }

  lemma Subset<T>(a: set<T>, b: set<T>)
    requires a <= b
    ensures |a| <= |b|
  {
    assert b == a + (b - a);
  }

  /** Consecutive numbered cookies cannot outnumber the jar: the open-ended loops stop. */
  lemma CountedByJar(cookies: Jar, cluster: string, n: nat)
    requires forall i :: 0 <= i < n ==> CookieName(cluster, i) in cookies
    ensures n <= |cookies|
  {
    NamesUpToCount(cluster, n);
    Subset(NamesUpTo(cluster, n), cookies.Keys);
  }

  /** The numbered cookies stop at n. */
  ghost predicate FirstGap(cookies: Jar, cluster: string, n: nat)
  {
    CookieName(cluster, n) !in cookies && forall j :: 0 <= j < n ==> CookieName(cluster, j) in cookies
  }

  function Values(cookies: Jar, cluster: string, n: nat): seq<string>
    requires forall j :: 0 <= j < n ==> CookieName(cluster, j) in cookies
  {
    seq(n, i requires 0 <= i < n => cookies[CookieName(cluster, i)])
  }

  /** Joins the numbered cookies up to the first gap. */
  method GetTokenFromCookie(r: Request, cluster: string) returns (token: string)
    ensures exists n: nat :: FirstGap(r.cookies, cluster, n) && token == Concat(Values(r.cookies, cluster, n))
  {
    token := "";
    var i := 0;
    while true
      invariant 0 <= i <= |r.cookies|
      invariant forall j :: 0 <= j < i ==> CookieName(cluster, j) in r.cookies
      invariant token == Concat(Values(r.cookies, cluster, i))
      decreases |r.cookies| - i
    {
      if CookieName(cluster, i) !in r.cookies {
        assert FirstGap(r.cookies, cluster, i);
        return;
      }
      token := token + r.cookies[CookieName(cluster, i)];
      i := i + 1;
      CountedByJar(r.cookies, cluster, i);
      ConcatSnoc(Values(r.cookies, cluster, i), i - 1);
      assert Values(r.cookies, cluster, i)[..i] == Values(r.cookies, cluster, i);
      assert Values(r.cookies, cluster, i)[..i - 1] == Values(r.cookies, cluster, i - 1);
    }
  }

  lemma NumberedWithin(cookies: Jar, cluster: string, chunks: seq<string>, i: nat)
    requires Holds(cookies, cluster, chunks) && CookieName(cluster, i) in cookies
    ensures i < |chunks| && cookies[CookieName(cluster, i)] == chunks[i]
  {
    var j :| 0 <= j < |chunks| && CookieName(cluster, i) == CookieName(cluster, j);
    CookieNameInjective(cluster, i, j);
  }

  lemma {:induction false} ConcatSnoc(parts: seq<string>, i: nat)
    requires i < |parts|
    ensures Concat(parts[..i + 1]) == Concat(parts[..i]) + parts[i]
  {
    if i == 0 {
      assert parts[..1] == [parts[0]] && [parts[0]][1..] == [];
    } else {
      ConcatSnoc(parts[1..], i - 1);
      assert parts[..i + 1][1..] == parts[1..][..i] && parts[..i][1..] == parts[1..][..i - 1];
    }
  }

  function Clearing(cluster: string, n: nat): seq<SetCookie>
  {
    seq(n, i requires 0 <= i < n => SetCookie(CookieName(cluster, i), "", -1))
  }

  function Setting(cluster: string, chunks: seq<string>, sessionTTL: int): seq<SetCookie>
  {
    seq(|chunks|, i requires 0 <= i < |chunks| => SetCookie(CookieName(cluster, i), chunks[i], sessionTTL))
  }

  /** Clears the numbered cookies up to the first gap. */
  method ClearTokenCookie(w: ResponseWriter, r: Request, cluster: string)
    modifies w
    ensures exists n: nat :: FirstGap(r.cookies, cluster, n) && w.headers == old(w.headers) + Clearing(cluster, n)
  {
    var i := 0;
    while true
      invariant 0 <= i && w.headers == old(w.headers) + Clearing(cluster, i)
      invariant forall j :: 0 <= j < i ==> CookieName(cluster, j) in r.cookies
      decreases |r.cookies| + 1 - i
    {
      CountedByJar(r.cookies, cluster, i);
      if CookieName(cluster, i) !in r.cookies {
        assert FirstGap(r.cookies, cluster, i);
        return;
      }
      w.headers := w.headers + [SetCookie(CookieName(cluster, i), "", -1)];
      i := i + 1;
      CountedByJar(r.cookies, cluster, i);
    }
  }

  method SetTokenCookie(w: ResponseWriter, r: Request, cluster: string, token: string, sessionTTL: int)
    modifies w
    ensures token == "" ==> w.headers == old(w.headers)
    ensures token != "" ==> exists n: nat ::
      && FirstGap(r.cookies, cluster, n)
      && w.headers == old(w.headers) + Clearing(cluster, n) + Setting(cluster, Chunks(token, CHUNK_SIZE), sessionTTL)
    ensures token != "" ==>
      var chunks := Chunks(token, CHUNK_SIZE);
      |w.headers| >= |chunks| && forall i :: 0 <= i < |chunks| ==>
        w.headers[|w.headers| - |chunks| + i] == SetCookie(CookieName(cluster, i), chunks[i], sessionTTL)
  {
    if token == "" {
      return;
    }
    ClearTokenCookie(w, r, cluster);
    ghost var cleared := w.headers;
    var chunks := SplitToken(token, CHUNK_SIZE);
    for i := 0 to |chunks|
      invariant w.headers == cleared + Setting(cluster, chunks, sessionTTL)[..i]
    {
      w.headers := w.headers + [SetCookie(CookieName(cluster, i), chunks[i], sessionTTL)];
    }
  }

  // ------------------------------------------------------------ runs of the jar

  /**
   `carried` says whether the request brings the jar along. The cookies have the path
   /clusters/<cluster>; a request to another path, as the OIDC callback is, comes without them.
   */
  datatype Op = Set(token: string, sessionTTL: int, carried: bool) | Clear

  function Sent(jar: Jar, op: Op): Jar
  {
    if op.Set? && !op.carried then map[] else jar
  }

  /** The browser sends its jar or nothing, the handler answers, the browser applies the headers. */
  ghost predicate Serves(jar: Jar, op: Op, jar': Jar, cluster: string)
  {
    exists n: nat :: FirstGap(Sent(jar, op), cluster, n) &&
      match op
      case Clear => jar' == ReceiveAll(jar, Clearing(cluster, n))
      case Set(token, ttl, _) =>
        if token == "" then jar' == jar
        else jar' == ReceiveAll(jar, Clearing(cluster, n) + Setting(cluster, Chunks(token, CHUNK_SIZE), ttl))
  }

  /** The configuration admits positive session TTLs only; it matters where nothing is cleared first. */
  predicate Admitted(op: Op)
  {
    op.Set? && !op.carried ==> op.sessionTTL >= 0
  }

  ghost predicate JarRun(jars: seq<Jar>, ops: seq<Op>, cluster: string)
  {
    && |jars| == |ops| + 1
    && jars[0] == map[]
    && forall i :: 0 <= i < |ops| ==> Admitted(ops[i]) && Serves(jars[i], ops[i], jars[i + 1], cluster)
  }

  /** New chunks written over old ones; where the old ones are more, the rest stays. */
  function Overlay(before: seq<string>, chunks: seq<string>): seq<string>
  {
    if |before| <= |chunks| then chunks else chunks + before[|chunks|..]
  }

  /** A set of the empty token is refused; a negative TTL deletes. */
  function ChunksAfter(op: Op, before: seq<string>): seq<string>
  {
    match op
    case Clear => []
    case Set(token, ttl, carried) =>
      if token == "" then before
      else if ttl < 0 then []
      else Overlay(if carried then [] else before, Chunks(token, CHUNK_SIZE))
  }

  /** The chunks the browser holds after the operations. */
  function ChunksHeld(ops: seq<Op>): seq<string>
  {
    if ops == [] then [] else ChunksAfter(ops[|ops| - 1], ChunksHeld(ops[..|ops| - 1]))
  }

  /** The token to be read: a set of the empty token is refused, a negative TTL deletes. */
  function LastToken(ops: seq<Op>): string
  {
    if ops == [] then ""
    else
      match ops[|ops| - 1]
      case Clear => ""
      case Set(token, ttl, _) =>
        if token == "" then LastToken(ops[..|ops| - 1]) else if ttl < 0 then "" else token
  }

  /** The token last set, if nothing was cleared since. */
  function LastSet(ops: seq<Op>): string
  {
    if ops == [] then ""
    else
      match ops[|ops| - 1]
      case Clear => ""
      case Set(token, _, _) => if token != "" then token else LastSet(ops[..|ops| - 1])
  }

  /** With the session TTLs the configuration admits nothing but a clear deletes. */
  lemma {:induction false} LastTokenIsLastSet(ops: seq<Op>)
    requires forall i :: 0 <= i < |ops| && ops[i].Set? ==> ops[i].sessionTTL >= 0
    ensures LastToken(ops) == LastSet(ops)
  {
    if ops != [] {
      LastTokenIsLastSet(ops[..|ops| - 1]);
    }
  }

  /** The last set cleared the old chunks first, or has at least as many of its own. */
  predicate Fits(ops: seq<Op>)
  {
    if ops == [] then true
    else
      match ops[|ops| - 1]
      case Clear => true
      case Set(token, ttl, carried) =>
        if token == "" then Fits(ops[..|ops| - 1])
        else carried || ttl < 0 || |ChunksHeld(ops[..|ops| - 1])| <= |Chunks(token, CHUNK_SIZE)|
  }

  lemma {:induction false} ReceiveConcat(jar: Jar, a: seq<SetCookie>, b: seq<SetCookie>)
    ensures ReceiveAll(jar, a + b) == ReceiveAll(ReceiveAll(jar, a), b)
    decreases |b|
  {
    if b == [] {
      assert a + b == a;
    } else {
      ReceiveConcat(jar, a, b[..|b| - 1]);
      assert (a + b)[..|a + b| - 1] == a + b[..|b| - 1];
    }
  }

  lemma {:induction false} ReceiveClearing(jar: Jar, cluster: string, n: nat)
    ensures ReceiveAll(jar, Clearing(cluster, n)) == jar - NamesUpTo(cluster, n)
  {
    if n == 0 {
      assert NamesUpTo(cluster, 0) == {};
    } else {
      ReceiveClearing(jar, cluster, n - 1);
      assert Clearing(cluster, n)[..n - 1] == Clearing(cluster, n - 1);
      NextName(cluster, n - 1);
    }
  }

  lemma ReceiveLast(jar: Jar, cluster: string, chunks: seq<string>, ttl: int)
    requires chunks != [] && ttl >= 0
    ensures var n := |chunks| - 1;
      ReceiveAll(jar, Setting(cluster, chunks, ttl))
        == ReceiveAll(jar, Setting(cluster, chunks[..n], ttl))[CookieName(cluster, n) := chunks[n]]
  {
    var n := |chunks| - 1;
    assert Setting(cluster, chunks, ttl)[..n] == Setting(cluster, chunks[..n], ttl);
  }

  lemma {:induction false} ReceiveSetting(jar: Jar, cluster: string, before: seq<string>, chunks: seq<string>, ttl: int)
    requires Holds(jar, cluster, before) && ttl >= 0
    ensures Holds(ReceiveAll(jar, Setting(cluster, chunks, ttl)), cluster, Overlay(before, chunks))
    decreases |chunks|
  {
    if chunks == [] {
      assert Overlay(before, chunks) == before;
    } else {
      ReceiveSetting(jar, cluster, before, chunks[..|chunks| - 1], ttl);
      ReceiveLast(jar, cluster, chunks, ttl);
      OneMoreChunk(ReceiveAll(jar, Setting(cluster, chunks[..|chunks| - 1], ttl)), cluster, before, chunks);
    }
  }

  lemma OneMoreChunk(jar: Jar, cluster: string, before: seq<string>, chunks: seq<string>)
    requires chunks != [] && Holds(jar, cluster, Overlay(before, chunks[..|chunks| - 1]))
    ensures Holds(jar[CookieName(cluster, |chunks| - 1) := chunks[|chunks| - 1]], cluster, Overlay(before, chunks))
  {
    var n := |chunks| - 1;
    var had, has := Overlay(before, chunks[..n]), Overlay(before, chunks);
    var jar' := jar[CookieName(cluster, n) := chunks[n]];
    assert has[n] == chunks[n];
    forall i | 0 <= i < |has| ensures CookieName(cluster, i) in jar' && jar'[CookieName(cluster, i)] == has[i] {
      if i != n {
        if CookieName(cluster, i) == CookieName(cluster, n) {
          CookieNameInjective(cluster, i, n);
        }
        assert i < |had| && had[i] == has[i];
      }
    }
    forall name | name in jar' ensures exists i :: 0 <= i < |has| && name == CookieName(cluster, i) {
      if name != CookieName(cluster, n) {
        var i :| 0 <= i < |had| && name == CookieName(cluster, i);
        assert i < |has|;
      }
    }
  }

  lemma {:induction false} ReceiveExpired(cluster: string, chunks: seq<string>, ttl: int)
    requires ttl < 0
    ensures ReceiveAll(map[], Setting(cluster, chunks, ttl)) == map[]
    decreases |chunks|
  {
    if chunks != [] {
      ReceiveExpired(cluster, chunks[..|chunks| - 1], ttl);
      assert Setting(cluster, chunks, ttl)[..|chunks| - 1] == Setting(cluster, chunks[..|chunks| - 1], ttl);
    }
  }

  /** A contiguous jar is emptied completely by the clearing headers. */
  lemma ClearingEmpties(jar: Jar, cluster: string, chunks: seq<string>, n: nat)
    requires Holds(jar, cluster, chunks) && FirstGap(jar, cluster, n)
    ensures ReceiveAll(jar, Clearing(cluster, n)) == map[]
  {
    ReceiveClearing(jar, cluster, n);
    assert n >= |chunks|;
    forall name | name in jar ensures name in NamesUpTo(cluster, n) {
      var i :| 0 <= i < |chunks| && name == CookieName(cluster, i);
    }
    assert jar - NamesUpTo(cluster, n) == map[];
  }

  lemma ServeStep(jar: Jar, op: Op, jar': Jar, cluster: string, chunks: seq<string>)
    requires Holds(jar, cluster, chunks) && Serves(jar, op, jar', cluster) && Admitted(op)
    ensures Holds(jar', cluster, ChunksAfter(op, chunks))
  {
    var n: nat :| FirstGap(Sent(jar, op), cluster, n) &&
      match op
      case Clear => jar' == ReceiveAll(jar, Clearing(cluster, n))
      case Set(t, ttl, _) =>
        if t == "" then jar' == jar
        else jar' == ReceiveAll(jar, Clearing(cluster, n) + Setting(cluster, Chunks(t, CHUNK_SIZE), ttl));
    match op
    case Clear => ClearingEmpties(jar, cluster, chunks, n);
    case Set(t, ttl, carried) =>
      if t != "" {
        var added := Chunks(t, CHUNK_SIZE);
        ReceiveConcat(jar, Clearing(cluster, n), Setting(cluster, added, ttl));
        if carried {
          ClearingEmpties(jar, cluster, chunks, n);
          if ttl >= 0 {
            ReceiveSetting(map[], cluster, [], added, ttl);
          } else {
            ReceiveExpired(cluster, added, ttl);
          }
        } else {
          assert n == 0;
          assert ReceiveAll(jar, Clearing(cluster, 0)) == jar;
          ReceiveSetting(jar, cluster, chunks, added, ttl);
        }
      }
  }

  /** After any run the jar holds exactly the chunks held, numbered from 0. */
  lemma {:induction false} JarHoldsChunks(jars: seq<Jar>, ops: seq<Op>, cluster: string)
    requires JarRun(jars, ops, cluster)
    ensures Holds(jars[|ops|], cluster, ChunksHeld(ops))
    decreases |ops|
  {
    if ops != [] {
      var n := |ops| - 1;
      assert forall i :: 0 <= i < n ==> ops[..n][i] == ops[i] && jars[..|ops|][i + 1] == jars[i + 1];
      assert forall i :: 0 <= i < n ==> Serves(jars[..|ops|][i], ops[..n][i], jars[..|ops|][i + 1], cluster);
      JarHoldsChunks(jars[..|ops|], ops[..n], cluster);
      ServeStep(jars[n], ops[n], jars[|ops|], cluster, ChunksHeld(ops[..n]));
    }
  }

  ghost predicate Sized(chunks: seq<string>)
  {
    forall i :: 0 <= i < |chunks| ==> 1 <= |chunks[i]| <= CHUNK_SIZE
  }

  lemma {:induction false} ChunksHeldSized(ops: seq<Op>)
    ensures Sized(ChunksHeld(ops))
    decreases |ops|
  {
    if ops != [] {
      ChunksHeldSized(ops[..|ops| - 1]);
      if ops[|ops| - 1].Set? {
        ChunksRejoin(ops[|ops| - 1].token, CHUNK_SIZE);
      }
    }
  }

  lemma {:induction false} ConcatOfConcat(a: seq<string>, b: seq<string>)
    ensures Concat(a + b) == Concat(a) + Concat(b)
  {
    if a == [] {
      assert a + b == b;
    } else {
      assert (a + b)[1..] == a[1..] + b;
      ConcatOfConcat(a[1..], b);
    }
  }

  /** What is read after writing over old chunks: the token, with the old rest behind it. */
  lemma OverlayReads(before: seq<string>, token: string)
    requires Sized(before)
    ensures var d := Chunks(token, CHUNK_SIZE);
      && Concat(Overlay(before, d)) == token + (if |before| <= |d| then "" else Concat(before[|d|..]))
      && (Concat(Overlay(before, d)) == token <==> |before| <= |d|)
  {
    var d := Chunks(token, CHUNK_SIZE);
    ChunksRejoin(token, CHUNK_SIZE);
    if |before| > |d| {
      ConcatOfConcat(d, before[|d|..]);
      assert |before[|d|..][0]| >= 1;
    }
  }

  /**
   What is held spells the last token exactly when its set could clear the old chunks, or had at
   least as many of its own.
   */
  lemma {:induction false} HeldIsLastToken(ops: seq<Op>)
    ensures Concat(ChunksHeld(ops)) == LastToken(ops) <==> Fits(ops)
    decreases |ops|
  {
    if ops != [] {
      var n := |ops| - 1;
      match ops[n]
      case Clear =>
      case Set(token, ttl, carried) =>
        if token == "" {
          HeldIsLastToken(ops[..n]);
        } else if ttl >= 0 {
          ChunksHeldSized(ops[..n]);
          OverlayReads(if carried then [] else ChunksHeld(ops[..n]), token);
        }
    }
  }

  lemma ReadsAllChunks(jar: Jar, cluster: string, chunks: seq<string>, n: nat)
    requires Holds(jar, cluster, chunks) && FirstGap(jar, cluster, n)
    ensures Values(jar, cluster, n) == chunks
  {
    if n > |chunks| {
      NumberedWithin(jar, cluster, chunks, |chunks|);
    }
  }

  /**
   After any run of sets and clears, the sets of the OIDC callback included: the jar holds
   nothing but chunks numbered contiguously from 0, each of 1 to 3800 bytes, and reading up to
   the first gap, as GetTokenFromCookie does, reads all of them. That gives the last token exactly
   when its set came with the jar, or has at least as many chunks as the jar held; and with the
   session TTLs the configuration admits it is the token last set and not cleared since.
   */
  lemma CookieJarKeepsToken(jars: seq<Jar>, ops: seq<Op>, cluster: string, n: nat)
    requires JarRun(jars, ops, cluster) && FirstGap(jars[|ops|], cluster, n)
    ensures Values(jars[|ops|], cluster, n) == ChunksHeld(ops)
    ensures Holds(jars[|ops|], cluster, Values(jars[|ops|], cluster, n))
    ensures Sized(Values(jars[|ops|], cluster, n))
    ensures Concat(Values(jars[|ops|], cluster, n)) == LastToken(ops) <==> Fits(ops)
    ensures (forall i :: 0 <= i < |ops| && ops[i].Set? ==> ops[i].sessionTTL >= 0) ==>
      LastToken(ops) == LastSet(ops)
  {
    JarHoldsChunks(jars, ops, cluster);
    ReadsAllChunks(jars[|ops|], cluster, ChunksHeld(ops), n);
    ChunksHeldSized(ops);
    HeldIsLastToken(ops);
    if forall i :: 0 <= i < |ops| && ops[i].Set? ==> ops[i].sessionTTL >= 0 {
      LastTokenIsLastSet(ops);
    }
  }

  /**
   Where it fails: a token of two chunks is held, and the OIDC callback sets one of a single
   chunk. What is read then is the new token with the old second chunk behind it.
   */
  lemma CallbackLeavesOldChunk(long: string, short: string, ttl: int)
    requires CHUNK_SIZE < |long| <= 2 * CHUNK_SIZE && 1 <= |short| <= CHUNK_SIZE && ttl > 0
    ensures var ops := [Set(long, ttl, true), Set(short, ttl, false)];
      !Fits(ops) && Concat(ChunksHeld(ops)) == short + long[CHUNK_SIZE..] != LastSet(ops)
  {
    var first := [Set(long, ttl, true)];
    var ops := [Set(long, ttl, true), Set(short, ttl, false)];
    assert ops[..1] == first && first[..0] == [];
    var held := Chunks(long, CHUNK_SIZE);
    var rest := long[CHUNK_SIZE..];
    assert 1 <= |rest| <= CHUNK_SIZE && Chunks(rest, CHUNK_SIZE) == [rest];
    assert held == [long[..CHUNK_SIZE]] + Chunks(rest, CHUNK_SIZE);
    assert ChunksHeld(first) == held;
    ChunksHeldSized(first);
    OverlayReads(held, short);
    assert held[1..] == [rest] && held[1..][1..] == [];
  }
}
