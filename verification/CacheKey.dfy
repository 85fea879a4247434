/** The key of a cached API response: `build_cache_key` of app/cache/redis_l2.py.  The pairs of
    the query are sorted, percent-encoded and joined; the key names the request up to the
    order of its query pairs, and nothing else. */
module CacheKey {
  import opened Sorting
  import opened Text

  type Pair = (string, string)

  // ---------------------------------------------------------------- percent-encoding (section 2.1 of RFC 3986)

  predicate Unreserved(c: char) {
    'A' <= c <= 'Z' || 'a' <= c <= 'z' || '0' <= c <= '9' || c == '_' || c == '.' || c == '-' || c == '~'
  }

  type Byte = b: int | 0 <= b < 256

  /** The UTF-8 bytes of a character. */
  function Utf8(c: char): (bytes: seq<Byte>)
    ensures 1 <= |bytes| <= 4
  {
    var n := c as int;
    if n < 0x80 then [n]
    else if n < 0x800 then [0xC0 + n / 64, 0x80 + n % 64]
    else if n < 0x1_0000 then [0xE0 + n / 4096, 0x80 + n / 64 % 64, 0x80 + n % 64]
    else [0xF0 + n / 262144, 0x80 + n / 4096 % 64, 0x80 + n / 64 % 64, 0x80 + n % 64]
  }

  function HexDigit(n: int): char
    requires 0 <= n < 16
  {
    if n < 10 then '0' + n as char else 'A' + (n - 10) as char
  }

  function EscapeBytes(bytes: seq<Byte>): (s: string)
    ensures |s| == 3 * |bytes|
  {
    if bytes == [] then ""
    else ['%', HexDigit(bytes[0] / 16), HexDigit(bytes[0] % 16)] + EscapeBytes(bytes[1..])
  }

  function EscapeChar(c: char): (s: string)
    ensures s != ""
  {
    if Unreserved(c) then [c] else if c == ' ' then "+" else EscapeBytes(Utf8(c))
  }

  /** `quote_plus`. */
  function Quote(s: string): string {
    if s == "" then "" else EscapeChar(s[0]) + Quote(s[1..])
  }

  /** `urlencode` of a list of pairs. */
  function UrlEncode(items: seq<Pair>): string {
    if items == [] then ""
    else
      var first := Quote(items[0].0) + "=" + Quote(items[0].1);
      if |items| == 1 then first else first + "&" + UrlEncode(items[1..])
  }

  predicate PairLe(a: Pair, b: Pair) { if a.0 == b.0 then StringLe(a.1, b.1) else StringLe(a.0, b.0) }

  function Suffix(path: string, items: seq<Pair>): string {
    var query := UrlEncode(Sort(items, PairLe));
    if query == "" then path else path + "?" + query
  }

  function BuildCacheKey(prefix: string, namespace: string, path: string, items: seq<Pair>): string {
    prefix + ":" + namespace + ":" + Suffix(path, items)
  }

  // ---------------------------------------------------------------- the escape can be read back

  lemma ThreeThen(three: string, tail: string, x: string)
    requires |three| == 3
    ensures ((three + tail) + x)[1] == three[1] && ((three + tail) + x)[2] == three[2]
    ensures ((three + tail) + x)[3..] == tail + x
  {
  }

  lemma EscapedHead(a: seq<Byte>, x: string)
    requires a != []
    ensures var l := EscapeBytes(a) + x;
            && |l| >= 3 && l[1] == HexDigit(a[0] / 16) && l[2] == HexDigit(a[0] % 16)
            && l[3..] == EscapeBytes(a[1..]) + x
  {
    ThreeThen(['%', HexDigit(a[0] / 16), HexDigit(a[0] % 16)], EscapeBytes(a[1..]), x);
  }

  lemma HexDigitsAgree(m: Byte, n: Byte)
    requires HexDigit(m / 16) == HexDigit(n / 16) && HexDigit(m % 16) == HexDigit(n % 16)
    ensures m == n
  {
  }

  lemma {:induction false} EscapedBytesAgree(a: seq<Byte>, b: seq<Byte>, x: string, y: string, i: nat)
    requires EscapeBytes(a) + x == EscapeBytes(b) + y && i < |a| && i < |b|
    ensures a[i] == b[i]
  {
    EscapedHead(a, x);
    EscapedHead(b, y);
    if i == 0 {
      HexDigitsAgree(a[0], b[0]);
    } else {
      EscapedBytesAgree(a[1..], b[1..], x, y, i - 1);
    }
  }

  /** The first byte tells how many follow, and all of them together the character. */
  lemma Utf8Injective(c: char, d: char)
    requires Utf8(c)[0] == Utf8(d)[0]
    ensures |Utf8(c)| == |Utf8(d)|
    ensures Utf8(c) == Utf8(d) ==> c == d
  {
    var m, n := c as int, d as int;
    assert m < 0x11_0000 && n < 0x11_0000;
    if Utf8(c) == Utf8(d) {
      assert forall i | 0 <= i < |Utf8(c)| :: Utf8(c)[i] == Utf8(d)[i];
      Digits(m);
      Digits(n);
    }
  }

  lemma Digits(n: nat)
    ensures n == n / 64 * 64 + n % 64
    ensures n / 64 == n / 4096 * 64 + n / 64 % 64
    ensures n / 4096 == n / 262144 * 64 + n / 4096 % 64
  {
  }

  /** No escaped character is the beginning of another. */
  lemma EscapeCharReadsBack(c: char, d: char, x: string, y: string)
    requires EscapeChar(c) + x == EscapeChar(d) + y
    ensures c == d && x == y
  {
    var l := EscapeChar(c) + x;
    assert l[0] == EscapeChar(c)[0] && l[0] == EscapeChar(d)[0];
    if l[0] == '%' {
      EscapedBytesAgree(Utf8(c), Utf8(d), x, y, 0);
      Utf8Injective(c, d);
      forall i | 0 <= i < |Utf8(c)| ensures Utf8(c)[i] == Utf8(d)[i] {
        EscapedBytesAgree(Utf8(c), Utf8(d), x, y, i);
      }
      assert Utf8(c) == Utf8(d);
    }
    var n := |EscapeChar(c)|;
    assert l[n..] == x && (EscapeChar(d) + y)[n..] == y;
  }

  /** A text that ends an escaped one: nothing, or a separator. */
  predicate Ends(x: string) { x == "" || x[0] == '&' || x[0] == '=' }

  lemma EscapeCharStart(c: char)
    ensures EscapeChar(c)[0] != '&' && EscapeChar(c)[0] != '='
  {
  }

  lemma QuoteOfOne(s: string, x: string)
    requires s != ""
    ensures Quote(s) + x == EscapeChar(s[0]) + (Quote(s[1..]) + x)
    ensures Quote(s) + x != "" && (Quote(s) + x)[0] == EscapeChar(s[0])[0]
  {
  }

  /** Escaping is injective, and a separator after it can be told apart from it. */
  lemma {:induction false} QuoteReadsBack(s: string, t: string, x: string, y: string)
    requires Quote(s) + x == Quote(t) + y && Ends(x) && Ends(y)
    ensures s == t && x == y
    decreases |s| + |t|
  {
    assert Quote("") + x == x && Quote("") + y == y;
    if s == "" {
    } else {
      QuoteOfOne(s, x);
      EscapeCharStart(s[0]);
    }
    if t == "" {
    } else {
      QuoteOfOne(t, y);
      EscapeCharStart(t[0]);
    }
    if s != "" && t != "" {
      EscapeCharReadsBack(s[0], t[0], Quote(s[1..]) + x, Quote(t[1..]) + y);
      QuoteReadsBack(s[1..], t[1..], x, y);
      assert s == [s[0]] + s[1..] && t == [t[0]] + t[1..];
    }
  }

  /** What follows the first pair of an encoded list. */
  function Rest(items: seq<Pair>): string
    requires items != []
  {
    if |items| == 1 then "" else "&" + UrlEncode(items[1..])
  }

  lemma Regrouped(name: string, value: string, rest: string)
    ensures name + "=" + value == name + ("=" + (value + ""))
    ensures name + "=" + value + "&" + rest == name + ("=" + (value + ("&" + rest)))
  {
  }

  lemma EncodeSplits(items: seq<Pair>)
    requires items != []
    ensures UrlEncode(items) == Quote(items[0].0) + ("=" + (Quote(items[0].1) + Rest(items)))
    ensures UrlEncode(items) != ""
  {
    Regrouped(Quote(items[0].0), Quote(items[0].1), if |items| == 1 then "" else UrlEncode(items[1..]));
  }

  lemma FirstPairReadsBack(a: seq<Pair>, b: seq<Pair>)
    requires a != [] && b != [] && UrlEncode(a) == UrlEncode(b)
    ensures a[0] == b[0] && Rest(a) == Rest(b)
  {
    EncodeSplits(a);
    EncodeSplits(b);
    var x, y := Quote(a[0].1) + Rest(a), Quote(b[0].1) + Rest(b);
    QuoteReadsBack(a[0].0, b[0].0, "=" + x, "=" + y);
    assert ("=" + x)[1..] == x && ("=" + y)[1..] == y;
    QuoteReadsBack(a[0].1, b[0].1, Rest(a), Rest(b));
  }

  lemma RestReadsBack(a: seq<Pair>, b: seq<Pair>)
    requires a != [] && b != [] && Rest(a) == Rest(b)
    ensures |a| == 1 <==> |b| == 1
    ensures |a| > 1 ==> UrlEncode(a[1..]) == UrlEncode(b[1..])
  {
    if |a| > 1 && |b| > 1 {
      assert Rest(a)[1..] == UrlEncode(a[1..]) && Rest(b)[1..] == UrlEncode(b[1..]);
    }
  }

  lemma OnlyEmptyEncodesEmpty(items: seq<Pair>)
    ensures UrlEncode(items) == "" <==> items == []
  {
    if items != [] { EncodeSplits(items); }
  }

  lemma SamePairs(a: seq<Pair>, b: seq<Pair>)
    requires a != [] && b != [] && a[0] == b[0] && a[1..] == b[1..]
    ensures a == b
  {
    assert a == [a[0]] + a[1..] && b == [b[0]] + b[1..];
  }

  lemma {:induction false} UrlEncodeInjective(a: seq<Pair>, b: seq<Pair>)
    requires UrlEncode(a) == UrlEncode(b)
    ensures a == b
    decreases |a|
  {
    OnlyEmptyEncodesEmpty(a);
    OnlyEmptyEncodesEmpty(b);
    if a != [] && b != [] {
      FirstPairReadsBack(a, b);
      RestReadsBack(a, b);
      if |a| == 1 {
        assert a[1..] == b[1..];
      } else {
        UrlEncodeInjective(a[1..], b[1..]);
      }
      SamePairs(a, b);
    }
  }

  // ---------------------------------------------------------------- the key can be read back

  lemma PairOrder()
    ensures TotalOrder(PairLe)
  {
    StringOrder();
  }

  lemma {:induction false} NoColonEscaped(bytes: seq<Byte>)
    ensures ':' !in EscapeBytes(bytes)
  {
    if bytes == [] {
    } else {
      NoColonEscaped(bytes[1..]);
    }
  }

  lemma {:induction false} NoColonQuoted(s: string)
    ensures ':' !in Quote(s)
  {
    if s == "" {
    } else {
      if !Unreserved(s[0]) && s[0] != ' ' { NoColonEscaped(Utf8(s[0])); }
      NoColonQuoted(s[1..]);
    }
  }

  /** A query never holds the character that ends a namespace. */
  lemma {:induction false} NoColonEncoded(items: seq<Pair>)
    ensures ':' !in UrlEncode(items)
  {
    if items == [] {
    } else {
      NoColonQuoted(items[0].0);
      NoColonQuoted(items[0].1);
      NoColonEncoded(items[1..]);
    }
  }

  predicate IsPath(path: string) { path != "" && path[0] == '/' && '?' !in path }

  /** The namespace and the path of a key. */
  function Head(namespace: string, path: string): string { namespace + ":" + path }

  function Tail(query: string): string { if query == "" then "" else "?" + query }

  lemma KeyParts(prefix: string, n: string, p: string, items: seq<Pair>)
    ensures BuildCacheKey(prefix, n, p, items) == prefix + ":" + (Head(n, p) + Tail(UrlEncode(Sort(items, PairLe))))
  {
    hide Sort, UrlEncode;
    var query := UrlEncode(Sort(items, PairLe));
    assert n + ":" + p + "?" + query == n + ":" + (p + "?" + query);
  }

  /** A head that went on behind the query mark of another would have the end of its namespace in the
      other's query. */
  lemma HeadGoesOn(n: string, p: string, head: string, x: string, y: string)
    requires IsPath(p) && head + Tail(x) == Head(n, p) + Tail(y) && |head| < |Head(n, p)|
    ensures ':' in x
  {
    var text, k := head + Tail(x), |head|;
    assert text[k] == '?' && text[k] == Head(n, p)[k];
    assert forall j | |n| < j < |Head(n, p)| :: Head(n, p)[j] == p[j - |n| - 1];
    assert k < |n| && text[|n|] == ':' && text[|n|] == x[|n| - k - 1];
  }

  lemma HeadReadsBack(n1: string, p1: string, n2: string, p2: string, x: string, y: string)
    requires IsPath(p1) && IsPath(p2) && ':' !in x && ':' !in y
    requires Head(n1, p1) + Tail(x) == Head(n2, p2) + Tail(y)
    ensures Head(n1, p1) == Head(n2, p2) && x == y
  {
    var n := |Head(n1, p1)|;
    if n < |Head(n2, p2)| { HeadGoesOn(n2, p2, Head(n1, p1), x, y); }
    if |Head(n2, p2)| < n { HeadGoesOn(n1, p1, Head(n2, p2), y, x); }
    assert (Head(n1, p1) + Tail(x))[..n] == Head(n1, p1) && (Head(n2, p2) + Tail(y))[..n] == Head(n2, p2);
    assert (Head(n1, p1) + Tail(x))[n..] == Tail(x) && (Head(n2, p2) + Tail(y))[n..] == Tail(y);
    if x != "" && y != "" { assert Tail(x)[1..] == x && Tail(y)[1..] == y; }
  }

  /** Two requests get the same key exactly when namespace and path, with a colon between them, are the
      same text and the query pairs are the same, each as often, in any order. */
  lemma KeysAgreeIff(
      prefix: string, n1: string, p1: string, items1: seq<Pair>, n2: string, p2: string, items2: seq<Pair>)
    requires IsPath(p1) && IsPath(p2)
    ensures BuildCacheKey(prefix, n1, p1, items1) == BuildCacheKey(prefix, n2, p2, items2) <==>
            Head(n1, p1) == Head(n2, p2) && multiset(items1) == multiset(items2)
  {
    hide BuildCacheKey, Head, UrlEncode, Tail, IsPath;
    var s1, s2 := Sort(items1, PairLe), Sort(items2, PairLe);
    PairOrder();
    SortSorts(items1, PairLe);
    SortSorts(items2, PairLe);
    KeyParts(prefix, n1, p1, items1);
    KeyParts(prefix, n2, p2, items2);
    if multiset(items1) == multiset(items2) { SortedUnique(s1, s2, PairLe); }
    if BuildCacheKey(prefix, n1, p1, items1) == BuildCacheKey(prefix, n2, p2, items2) {
      NoColonEncoded(s1);
      NoColonEncoded(s2);
      SameBehind(prefix + ":", Head(n1, p1) + Tail(UrlEncode(s1)), Head(n2, p2) + Tail(UrlEncode(s2)));
      HeadReadsBack(n1, p1, n2, p2, UrlEncode(s1), UrlEncode(s2));
      UrlEncodeInjective(s1, s2);
    }
  }

  lemma SameBehind(front: string, x: string, y: string)
    requires front + x == front + y
    ensures x == y
  {
    assert (front + x)[|front|..] == x && (front + y)[|front|..] == y;
  }

  // ---------------------------------------------------------------- namespaces that can be mistaken for each other

  /** A namespace that goes on from another with a colon and a slash, and could from there on be a path. */
  predicate GoesOn(n: string, longer: string) { n + ":/" <= longer && '?' !in longer[|n|..] }

  /** The boundary that a head does not show. */
  lemma HeadsAgree(n1: string, p1: string, n2: string, p2: string)
    requires IsPath(p1) && IsPath(p2) && Head(n1, p1) == Head(n2, p2) && |n1| <= |n2|
    ensures (n1 == n2 && p1 == p2) || GoesOn(n1, n2)
  {
    var text, k := Head(n1, p1), |n1|;
    assert text[..k] == n1 && text[k] == ':' && text[k + 1..] == p1;
    assert text[..|n2|] == n2 && text[|n2|] == ':' && text[|n2| + 1..] == p2;
    if k < |n2| {
      assert text[k + 1] == p1[0] == '/';
      assert n2[..k + 2] == text[..k + 2] == n1 + ":/";
      assert forall j | k < j < |n2| :: n2[j] == p1[j - k - 1];
      assert n2[k..][0] == ':';
    }
  }

  /** Under namespaces of which neither goes on from the other, a key names its request: two keys are
      the same exactly when namespace, path and query pairs are. */
  lemma KeyIsCanonical(
      prefix: string, n1: string, p1: string, items1: seq<Pair>, n2: string, p2: string, items2: seq<Pair>)
    requires IsPath(p1) && IsPath(p2) && !GoesOn(n1, n2) && !GoesOn(n2, n1)
    ensures BuildCacheKey(prefix, n1, p1, items1) == BuildCacheKey(prefix, n2, p2, items2) <==>
            n1 == n2 && p1 == p2 && multiset(items1) == multiset(items2)
  {
    hide BuildCacheKey, Head, GoesOn;
    KeysAgreeIff(prefix, n1, p1, items1, n2, p2, items2);
    if Head(n1, p1) == Head(n2, p2) {
      if |n1| <= |n2| { HeadsAgree(n1, p1, n2, p2); } else { HeadsAgree(n2, p2, n1, p1); }
    }
  }

  predicate ColonSlashAt(namespace: string, i: int) {
    0 <= i < |namespace| - 1 && namespace[i] == ':' && namespace[i + 1] == '/'
  }

  /** With a colon and a slash in a namespace the key no longer tells where the path begins: the request
      shares its key with another one, whose namespace ends at the colon. */
  lemma ColonSlashCollides(prefix: string, n: string, i: int, path: string, items: seq<Pair>)
    requires ColonSlashAt(n, i) && '?' !in n[i..] && IsPath(path)
    ensures IsPath(n[i + 1..] + ":" + path)
    ensures BuildCacheKey(prefix, n, path, items) == BuildCacheKey(prefix, n[..i], n[i + 1..] + ":" + path, items)
  {
    var p := n[i + 1..] + ":" + path;
    assert p[0] == n[i + 1] && n[i..][1..] == n[i + 1..];
    assert n == n[..i] + ":" + n[i + 1..];
    Moved(n[..i], n[i + 1..], path);
    KeysAgreeIff(prefix, n, path, items, n[..i], p, items);
  }

  lemma Moved(a: string, b: string, s: string)
    ensures (a + ":" + b) + ":" + s == a + ":" + (b + ":" + s)
  {
  }

  /** Some request under the one namespace has the key of some request under the other. */
  ghost predicate Collide(prefix: string, n1: string, n2: string) {
    exists p1, items1, p2, items2 ::
      IsPath(p1) && IsPath(p2) && BuildCacheKey(prefix, n1, p1, items1) == BuildCacheKey(prefix, n2, p2, items2)
  }

  lemma GoingOnCollides(prefix: string, n: string, longer: string)
    requires GoesOn(n, longer)
    ensures Collide(prefix, n, longer) && Collide(prefix, longer, n)
  {
    var i := |n|;
    assert longer[..i] == n && longer[i] == (n + ":/")[i] && longer[i + 1] == (n + ":/")[i + 1];
    ColonSlashCollides(prefix, longer, i, "/", []);
    var p := longer[i + 1..] + ":" + "/";
    assert IsPath("/") && IsPath(p);
    assert BuildCacheKey(prefix, n, p, []) == BuildCacheKey(prefix, longer, "/", []);
  }

  /** Two namespaces can be mistaken for each other exactly when one goes on from the other with a colon
      and a slash, without a question mark from there on. */
  lemma CollideIff(prefix: string, n1: string, n2: string)
    requires n1 != n2
    ensures Collide(prefix, n1, n2) <==> GoesOn(n1, n2) || GoesOn(n2, n1)
  {
    if GoesOn(n1, n2) {
      GoingOnCollides(prefix, n1, n2);
    } else if GoesOn(n2, n1) {
      GoingOnCollides(prefix, n2, n1);
    } else {
      forall p1, items1, p2, items2 | IsPath(p1) && IsPath(p2)
        ensures BuildCacheKey(prefix, n1, p1, items1) != BuildCacheKey(prefix, n2, p2, items2)
      {
        KeyIsCanonical(prefix, n1, p1, items1, n2, p2, items2);
      }
    }
  }

  /** Two requests with the same key. */
  lemma SlashInNamespaceCollides(prefix: string)
    ensures BuildCacheKey(prefix, "a:/b", "/c", []) == BuildCacheKey(prefix, "a", "/b:/c", [])
  {
    ColonSlashCollides(prefix, "a:/b", 1, "/c", []);
    assert "a:/b"[..1] == "a" && "a:/b"[2..] + ":" + "/c" == "/b:/c";
  }
}
