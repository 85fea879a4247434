/** The string operations of Python that the other modules share. */
module Text {

  /** `str.isspace` of one character. */
  predicate IsSpace(c: char) {
    var n := c as int;
    9 <= n <= 13 || 28 <= n <= 32 || n == 0x85 || n == 0xA0 || n == 0x1680 || 0x2000 <= n <= 0x200A
    || n == 0x2028 || n == 0x2029 || n == 0x202F || n == 0x205F || n == 0x3000
  }

  function StripLeft(s: string): string {
    if s != "" && IsSpace(s[0]) then StripLeft(s[1..]) else s
  }

  function StripRight(s: string): string {
    if s != "" && IsSpace(s[|s| - 1]) then StripRight(s[..|s| - 1]) else s
  }

  /** `str.strip`. */
  function Strip(s: string): string { StripRight(StripLeft(s)) }

  predicate Trimmed(s: string) { s == "" || (!IsSpace(s[0]) && !IsSpace(s[|s| - 1])) }

  lemma {:induction false} StripRightTrims(s: string)
    requires s == "" || !IsSpace(s[0])
    ensures Trimmed(StripRight(s)) && |StripRight(s)| <= |s|
  {
    if s == "" || !IsSpace(s[|s| - 1]) {
    } else {
      StripRightTrims(s[..|s| - 1]);
    }
  }

  lemma {:induction false} StripLeftTrims(s: string)
    ensures StripLeft(s) == "" || !IsSpace(StripLeft(s)[0])
  {
    if s == "" || !IsSpace(s[0]) {
    } else {
      StripLeftTrims(s[1..]);
    }
  }

  /** Stripping leaves no space at either end, and leaves a text without them alone. */
  lemma StripTrims(s: string)
    ensures Trimmed(Strip(s))
    ensures Strip(s) == s <==> Trimmed(s)
  {
    StripLeftTrims(s);
    StripRightTrims(StripLeft(s));
  }

  /** `str.lower` on ASCII letters; other characters are left alone. */
  function LowerChar(c: char): char { if 'A' <= c <= 'Z' then c + 32 as char else c }

  function Lower(s: string): string { seq(|s|, i requires 0 <= i < |s| => LowerChar(s[i])) }

  /** `needle in s`. */
  predicate Contains(s: string, needle: string) {
    needle <= s || (s != "" && Contains(s[1..], needle))
  }

  predicate EndsWith(s: string, suffix: string) { |suffix| <= |s| && s[|s| - |suffix|..] == suffix }

  // ---------------------------------------------------------------- splitting and joining

  /** Position of the first occurrence of a character; the length when there is none. */
  function First(s: string, c: char): (i: nat)
    ensures i <= |s| && c !in s[..i] && (i < |s| ==> s[i] == c)
  {
    if s == "" || s[0] == c then 0 else
      var i := 1 + First(s[1..], c);
      assert s[..i] == [s[0]] + s[1..][..i - 1];
      i
  }

  /** `str.split` at one character. */
  function Split(s: string, c: char): (parts: seq<string>)
    ensures parts != [] && forall p | p in parts :: c !in p
    decreases |s|
  {
    var i := First(s, c);
    if i == |s| then
      assert s[..i] == s;
      [s]
    else [s[..i]] + Split(s[i + 1..], c)
  }

  function Join(parts: seq<string>, c: char): string {
    if parts == [] then "" else if |parts| == 1 then parts[0] else parts[0] + [c] + Join(parts[1..], c)
  }

  lemma {:induction false} FirstIs(a: string, c: char, x: string)
    requires c !in a
    ensures First(a + [c] + x, c) == |a|
  {
    var s := a + [c] + x;
    if a == "" {
    } else {
      assert s[0] == a[0] && a[0] in a;
      assert s[1..] == a[1..] + [c] + x;
      FirstIs(a[1..], c, x);
    }
  }

  lemma FirstNone(a: string, c: char)
    requires c !in a
    ensures First(a, c) == |a|
  {
  }

  lemma SplitCons(a: string, c: char, x: string)
    requires c !in a
    ensures Split(a + [c] + x, c) == [a] + Split(x, c)
  {
    FirstIs(a, c, x);
    assert (a + [c] + x)[..|a|] == a && (a + [c] + x)[|a| + 1..] == x;
  }

  /** Splitting undoes joining. */
  lemma {:induction false} SplitJoin(parts: seq<string>, c: char)
    requires parts != [] && forall p | p in parts :: c !in p
    ensures Split(Join(parts, c), c) == parts
  {
    assert parts[0] in parts;
    if |parts| == 1 {
      FirstNone(parts[0], c);
      assert parts[0][..|parts[0]|] == parts[0];
    } else {
      SplitJoin(parts[1..], c);
      SplitCons(parts[0], c, Join(parts[1..], c));
    }
  }

  lemma JoinCons(p: string, rest: seq<string>, c: char)
    requires rest != []
    ensures Join([p] + rest, c) == p + [c] + Join(rest, c)
  {
    assert ([p] + rest)[1..] == rest;
  }

  lemma SplitFirst(s: string, c: char, i: nat)
    requires i < |s| && i == First(s, c)
    ensures Split(s, c) == [s[..i]] + Split(s[i + 1..], c)
  {
  }

  lemma SplitNone(s: string, c: char)
    requires First(s, c) == |s|
    ensures Split(s, c) == [s] && Join([s], c) == s
  {
    assert s[..|s|] == s;
  }

  /** Joining undoes splitting. */
  lemma {:induction false} JoinSplit(s: string, c: char)
    ensures Join(Split(s, c), c) == s
    decreases |s|
  {
    hide Split, Join;
    var i := First(s, c);
    if i == |s| {
      SplitNone(s, c);
    } else {
      var rest := s[i + 1..];
      JoinSplit(rest, c);
      SplitFirst(s, c, i);
      JoinCons(s[..i], Split(rest, c), c);
      assert s == s[..i] + [c] + rest;
    }
  }

  /** The longest prefix without a stop character. */
  function UpTo(s: string, stops: string): (r: string)
    ensures r <= s && (forall c | c in r :: c !in stops)
    ensures |r| < |s| ==> s[|r|] in stops
  {
    if s == "" || s[0] in stops then "" else [s[0]] + UpTo(s[1..], stops)
  }

  lemma {:induction false} UpToAll(s: string, stops: string)
    requires forall c | c in s :: c !in stops
    ensures UpTo(s, stops) == s
  {
    if s == "" {
    } else {
      UpToAll(s[1..], stops);
    }
  }

  lemma {:induction false} UpToStop(a: string, c: char, x: string, stops: string)
    requires (forall d | d in a :: d !in stops) && c in stops
    ensures UpTo(a + [c] + x, stops) == a
  {
    var s := a + [c] + x;
    if a == "" {
    } else {
      assert s[0] == a[0] && a[0] in a;
      assert s[1..] == a[1..] + [c] + x;
      UpToStop(a[1..], c, x, stops);
    }
  }

  // ---------------------------------------------------------------- occurrences

  lemma {:induction false} ContainsIsShorter(s: string, needle: string)
    requires Contains(s, needle)
    ensures |needle| <= |s|
  {
    if needle <= s {
    } else {
      ContainsIsShorter(s[1..], needle);
    }
  }

  /** A text as long as another occurs in it only as the whole. */
  lemma ContainsWhole(s: string, needle: string)
    requires Contains(s, needle) && |needle| == |s|
    ensures s == needle
  {
    if !(needle <= s) { ContainsIsShorter(s[1..], needle); }
  }

  predicate OccursAt(s: string, needle: string, i: nat) { i + |needle| <= |s| && s[i..i + |needle|] == needle }

  lemma {:induction false} ContainsAt(s: string, needle: string)
    ensures Contains(s, needle) <==> exists i: nat :: OccursAt(s, needle, i)
  {
    if s == "" {
    } else {
      ContainsAt(s[1..], needle);
      if i: nat :| OccursAt(s[1..], needle, i) {
        assert s[i + 1..i + 1 + |needle|] == s[1..][i..i + |needle|];
        assert OccursAt(s, needle, i + 1);
      }
      if i: nat :| OccursAt(s, needle, i) && i > 0 {
        assert s[1..][i - 1..i - 1 + |needle|] == s[i..i + |needle|];
        assert OccursAt(s[1..], needle, i - 1);
      }
    }
    if needle <= s {
      assert OccursAt(s, needle, 0);
    }
    if OccursAt(s, needle, 0) {
      assert s[0..|needle|] == s[..|needle|];
    }
  }

  lemma WindowAt(s: string, needle: string, i: nat, k: nat)
    requires OccursAt(s, needle, i) && k < |needle|
    ensures s[i + k] == needle[k] && needle[k] in needle
  {
    assert s[i..i + |needle|][k] == s[i + k];
  }

  lemma OccursLeftOrRight(a: string, c: char, b: string, needle: string, i: nat)
    requires c !in needle && needle != "" && OccursAt(a + [c] + b, needle, i)
    ensures OccursAt(a, needle, i) || (i > |a| && OccursAt(b, needle, i - |a| - 1))
  {
    var s := a + [c] + b;
    var window := s[i..i + |needle|];
    if i <= |a| < i + |needle| {
      WindowAt(s, needle, i, |a| - i);
      assert false;
    } else if i <= |a| {
      assert a[i..i + |needle|] == window;
    } else {
      assert b[i - |a| - 1..i - |a| - 1 + |needle|] == window;
    }
  }

  lemma OccursInLeft(a: string, c: char, b: string, needle: string, i: nat)
    requires OccursAt(a, needle, i)
    ensures OccursAt(a + [c] + b, needle, i)
  {
    assert (a + [c] + b)[i..i + |needle|] == a[i..i + |needle|];
  }

  lemma OccursInRight(a: string, c: char, b: string, needle: string, i: nat)
    requires OccursAt(b, needle, i)
    ensures OccursAt(a + [c] + b, needle, |a| + 1 + i)
  {
    assert (a + [c] + b)[|a| + 1 + i..|a| + 1 + i + |needle|] == b[i..i + |needle|];
  }

  /** A text without the separator occurs in a joined one exactly when it occurs in a part. */
  lemma ContainsSeparated(a: string, c: char, b: string, needle: string)
    requires c !in needle && needle != ""
    ensures Contains(a + [c] + b, needle) <==> Contains(a, needle) || Contains(b, needle)
  {
    ContainsAt(a + [c] + b, needle);
    ContainsAt(a, needle);
    ContainsAt(b, needle);
    if i: nat :| OccursAt(a + [c] + b, needle, i) { OccursLeftOrRight(a, c, b, needle, i); }
    if i: nat :| OccursAt(a, needle, i) { OccursInLeft(a, c, b, needle, i); }
    if i: nat :| OccursAt(b, needle, i) { OccursInRight(a, c, b, needle, i); }
  }

  predicate AnyContains(parts: seq<string>, needle: string) { exists p | p in parts :: Contains(p, needle) }

  lemma {:induction false} ContainsJoined(parts: seq<string>, c: char, needle: string)
    requires c !in needle && needle != ""
    ensures Contains(Join(parts, c), needle) <==> AnyContains(parts, needle)
  {
    if parts == [] {
    } else if |parts| == 1 {
      assert parts[0] in parts;
    } else {
      ContainsJoined(parts[1..], c, needle);
      ContainsSeparated(parts[0], c, Join(parts[1..], c), needle);
      assert parts == [parts[0]] + parts[1..];
    }
  }
}
