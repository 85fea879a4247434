/** Pack identifiers: a repository's full name with its slash written as a double underscore,
    and the way back (app/api/packs.py). */
module PackId {
  import opened Basics
  import opened Text

  function Encode(full: string): string {
    if full == "" then ""
    else if full[0] == '/' then "__" + Encode(full[1..])
    else [full[0]] + Encode(full[1..])
  }

  /** `replace("__", "/")`: leftmost occurrences first, not overlapping. */
  function Slashed(s: string): string {
    if |s| >= 2 && s[0] == '_' && s[1] == '_' then "/" + Slashed(s[2..])
    else if s == "" then ""
    else [s[0]] + Slashed(s[1..])
  }

  predicate NameChar(c: char) {
    'A' <= c <= 'Z' || 'a' <= c <= 'z' || '0' <= c <= '9' || c == '_' || c == '.' || c == '-'
  }

  predicate IsName(s: string) { s != "" && forall c | c in s :: NameChar(c) }

  /** The text is owner/repo, with the slash at position i. */
  predicate SlashAt(s: string, i: nat) { i < |s| && s[i] == '/' && IsName(s[..i]) && IsName(s[i + 1..]) }

  predicate IsFullName(s: string) { exists i | 0 <= i < |s| :: SlashAt(s, i) }

  /** The regular expression: its `$` also matches before a final newline. */
  predicate Matches(s: string) {
    IsFullName(s) || (s != "" && s[|s| - 1] == '\n' && IsFullName(s[..|s| - 1]))
  }

  /** `None` stands for the 404. */
  function Decode(id: string): (r: Option<string>) {
    var full := Slashed(Strip(id));
    if Matches(full) then Some(full) else None
  }

  /** Somewhere in the text, two underscores follow each other. */
  predicate HasDouble(s: string) { exists i | 0 <= i < |s| - 1 :: s[i] == '_' && s[i + 1] == '_' }

  // ---------------------------------------------------------------- replacement

  /** Replacement leaves no double underscore behind. */
  lemma {:induction false} SlashedHasNoDouble(s: string)
    ensures !HasDouble(Slashed(s))
    ensures s != "" && s[0] != '_' ==> Slashed(s) != "" && Slashed(s)[0] != '_'
    ensures |s| >= 2 && s[0] == '_' && s[1] != '_' ==> |Slashed(s)| >= 2 && Slashed(s)[1] != '_'
    decreases |s|
  {
    if |s| >= 2 && s[0] == '_' && s[1] == '_' {
      SlashedHasNoDouble(s[2..]);
    } else if s != "" {
      SlashedHasNoDouble(s[1..]);
    }
  }

  lemma SlashedStep(s: string, rest: string)
    requires s != "" && (|s| >= 2 ==> !(s[0] == '_' && s[1] == '_'))
             && (|s| > 1 || s[0] != '_' || rest == "" || rest[0] != '_')
    ensures Slashed(s + rest) == [s[0]] + Slashed(s[1..] + rest)
  {
    assert (s + rest)[1..] == s[1..] + rest;
  }

  lemma TailHasNoDouble(s: string)
    requires s != "" && !HasDouble(s)
    ensures !HasDouble(s[1..]) && (|s| >= 2 ==> !(s[0] == '_' && s[1] == '_'))
  {
    assert forall i | 0 <= i < |s[1..]| :: s[1..][i] == s[i + 1];
  }

  lemma {:induction false} SlashedKeepsSingles(s: string, rest: string)
    requires !HasDouble(s) && (s == "" || s[|s| - 1] != '_' || rest == "" || rest[0] != '_')
    ensures Slashed(s + rest) == s + Slashed(rest)
    decreases |s|
  {
    hide Slashed;
    if s == "" {
      assert s + rest == rest;
    } else {
      TailHasNoDouble(s);
      SlashedStep(s, rest);
      SlashedKeepsSingles(s[1..], rest);
      assert s == [s[0]] + s[1..];
    }
  }

  /** The encoding of owner/repo, taken apart. */
  lemma {:induction false} EncodeName(s: string)
    requires '/' !in s
    ensures Encode(s) == s
  {
    if s == "" {
    } else {
      EncodeName(s[1..]);
      assert s == [s[0]] + s[1..];
    }
  }

  lemma {:induction false} EncodeSplits(a: string, b: string)
    ensures Encode(a + b) == Encode(a) + Encode(b)
  {
    if a == "" {
      assert a + b == b;
    } else {
      assert (a + b)[1..] == a[1..] + b;
      EncodeSplits(a[1..], b);
    }
  }

  lemma EncodeFullName(s: string, i: nat)
    requires SlashAt(s, i)
    ensures Encode(s) == s[..i] + "__" + s[i + 1..]
  {
    assert s == s[..i] + ("/" + s[i + 1..]);
    EncodeSplits(s[..i], "/" + s[i + 1..]);
    EncodeName(s[..i]);
    EncodeName(s[i + 1..]);
    assert ("/" + s[i + 1..])[1..] == s[i + 1..];
  }

  // ---------------------------------------------------------------- round trips

  lemma NamesAreTrimmed(s: string)
    requires forall c | c in s :: NameChar(c)
    ensures Trimmed(s)
  {
    if s != "" {
      assert s[0] in s && s[|s| - 1] in s;
    }
  }

  /** What decodes is always a full name: the newline the pattern would allow was stripped before. */
  lemma DecodedIsFullName(id: string)
    requires Decode(id).Some?
    ensures IsFullName(Decode(id).value)
  {
    StripTrims(id);
    SlashedEnds(Strip(id));
  }

  lemma {:induction false} SlashedEnds(s: string)
    ensures (Slashed(s) == "") == (s == "")
    ensures s != "" && Slashed(s)[|Slashed(s)| - 1] == '\n' ==> s[|s| - 1] == '\n'
  {
    if |s| >= 2 && s[0] == '_' && s[1] == '_' {
      SlashedEnds(s[2..]);
    } else if s != "" {
      SlashedEnds(s[1..]);
    }
  }

  /** owner does not end in an underscore */
  predicate OwnerEndsWell(s: string) { forall i | 0 < i < |s| && SlashAt(s, i) :: s[i - 1] != '_' }

  lemma EncodedName(s: string, i: nat)
    requires SlashAt(s, i)
    ensures Strip(Encode(s)) == s[..i] + "__" + s[i + 1..]
  {
    EncodeFullName(s, i);
    var e := Encode(s);
    forall c | c in e ensures NameChar(c) {
      assert c in s[..i] || c in "__" || c in s[i + 1..];
    }
    NamesAreTrimmed(e);
    StripTrims(e);
  }

  lemma PartsHaveNoDouble(s: string, i: nat, j: nat)
    requires i <= j <= |s| && !HasDouble(s)
    ensures !HasDouble(s[i..j])
  {
  }

  lemma SlashedPair(repo: string)
    requires !HasDouble(repo)
    ensures Slashed("__" + repo) == "/" + repo
  {
    SlashedKeepsSingles(repo, "");
    assert repo + "" == repo;
    assert ("__" + repo)[2..] == repo;
  }

  lemma CleanNameComesBack(s: string, i: nat)
    requires SlashAt(s, i) && !HasDouble(s) && s[i - 1] != '_'
    ensures Slashed(s[..i] + "__" + s[i + 1..]) == s
  {
    var owner, repo := s[..i], s[i + 1..];
    PartsHaveNoDouble(s, 0, i);
    PartsHaveNoDouble(s, i + 1, |s|);
    assert s[0..i] == owner && s[i + 1..|s|] == repo;
    SlashedPair(repo);
    assert owner[|owner| - 1] == s[i - 1];
    SlashedKeepsSingles(owner, "__" + repo);
    assert owner + "__" + repo == owner + ("__" + repo);
    assert s == owner + ("/" + repo);
  }

  lemma UnderscoreOwnerIsLost(s: string, i: nat)
    requires SlashAt(s, i) && !HasDouble(s) && s[i - 1] == '_'
    ensures Slashed(s[..i] + "__" + s[i + 1..]) != s
  {
    var short, repo := s[..i - 1], s[i + 1..];
    var tail := "___" + repo;
    PartsHaveNoDouble(s, 0, i - 1);
    assert s[0..i - 1] == short;
    assert s[..i] + "__" + repo == short + tail;
    SlashedKeepsSingles(short, tail);
    assert Slashed(tail)[0] == '/';
    assert Slashed(short + tail)[i - 1] == '/';
  }

  /** Encoding and decoding gives back exactly the full names in which no two underscores follow
      each other and whose owner does not end in an underscore, and no other text at all. */
  lemma DecodeEncode(s: string)
    ensures Decode(Encode(s)) == Some(s) <==> IsFullName(s) && !HasDouble(s) && OwnerEndsWell(s)
  {
    if Decode(Encode(s)) == Some(s) {
      DecodedIsFullName(Encode(s));
      SlashedHasNoDouble(Strip(Encode(s)));
      forall i | 0 < i < |s| && SlashAt(s, i) ensures s[i - 1] != '_' {
        EncodedName(s, i);
        if s[i - 1] == '_' { UnderscoreOwnerIsLost(s, i); }
      }
    }
    if IsFullName(s) && !HasDouble(s) && OwnerEndsWell(s) {
      var i :| 0 <= i < |s| && SlashAt(s, i);
      EncodedName(s, i);
      CleanNameComesBack(s, i);
    }
  }

  lemma {:induction false} EncodeSlashed(s: string)
    requires '/' !in s
    ensures Encode(Slashed(s)) == s
  {
    if |s| >= 2 && s[0] == '_' && s[1] == '_' {
      EncodeSlashed(s[2..]);
      assert s == "__" + s[2..];
    } else if s != "" {
      EncodeSlashed(s[1..]);
      assert s == [s[0]] + s[1..];
    }
  }

  lemma {:induction false} EncodeHasNoSlash(s: string)
    ensures '/' !in Encode(s)
  {
    if s == "" {
    } else {
      EncodeHasNoSlash(s[1..]);
    }
  }

  /** An accepted identifier is the encoding of what it decodes to exactly when it is stripped
      already and has no slash of its own. */
  lemma EncodeDecode(id: string)
    requires Decode(id).Some?
    ensures Encode(Decode(id).value) == id <==> Strip(id) == id && '/' !in id
  {
    var full := Decode(id).value;
    DecodedIsFullName(id);
    var i :| 0 <= i < |full| && SlashAt(full, i);
    EncodeHasNoSlash(full);
    EncodeFullName(full, i);
    EncodedName(full, i);
    if Strip(id) == id && '/' !in id { EncodeSlashed(id); }
  }

  /** Two underscores inside an identifier, with something on either side. */
  predicate Seam(id: string, k: int) { 0 < k < |id| - 2 && id[k] == '_' && id[k + 1] == '_' }

  /** The name an identifier gives when it is parted at a seam. */
  function PartedAt(id: string, k: int): string
    requires Seam(id, k)
  {
    id[..k] + "/" + id[k + 2..]
  }

  lemma EncodedChars(s: string, i: nat)
    requires SlashAt(s, i)
    ensures Encode(s) == s[..i] + "__" + s[i + 1..] && forall c | c in Encode(s) :: NameChar(c)
    ensures Seam(Encode(s), i) && PartedAt(Encode(s), i) == s
  {
    EncodeFullName(s, i);
    assert s == s[..i] + "/" + s[i + 1..];
  }

  lemma PartedIsName(id: string, k: int)
    requires Seam(id, k) && forall c | c in id :: NameChar(c)
    ensures SlashAt(PartedAt(id, k), k) && Encode(PartedAt(id, k)) == id
  {
    var t := PartedAt(id, k);
    assert t[..k] == id[..k] && t[k + 1..] == id[k + 2..] && t[k] == '/';
    assert forall c | c in id[..k] :: c in id;
    assert forall c | c in id[k + 2..] :: c in id;
    EncodeFullName(t, k);
    assert id == id[..k] + "__" + id[k + 2..];
  }

  /** Parting at different places gives different names. */
  lemma PartedApart(id: string, j: int, k: int)
    requires Seam(id, j) && Seam(id, k) && j < k && forall c | c in id :: NameChar(c)
    ensures PartedAt(id, j) != PartedAt(id, k)
  {
    assert PartedAt(id, j)[j] == '/' && PartedAt(id, k)[j] == id[j];
    assert id[j] in id;
  }

  /** Some other full name has the same identifier. */
  ghost predicate Shared(s: string) { exists t :: t != s && IsFullName(t) && Encode(t) == Encode(s) }

  /** The encoding is not injective: a name shares its identifier exactly when the identifier has two
      underscores next to each other in another place than the slash's, not at its ends. */
  lemma SharedIff(s: string, i: nat)
    requires SlashAt(s, i)
    ensures Shared(s) <==> exists k :: k != i && Seam(Encode(s), k)
  {
    var id := Encode(s);
    EncodedChars(s, i);
    if t :| t != s && IsFullName(t) && Encode(t) == id {
      var k :| 0 <= k < |t| && SlashAt(t, k);
      EncodedChars(t, k);
      assert Seam(id, k);
    }
    if k :| k != i && Seam(id, k) {
      PartedIsName(id, k);
      if k < i { PartedApart(id, k, i); } else { PartedApart(id, i, k); }
      assert IsFullName(PartedAt(id, k));
    }
  }

  /** Two such names: the identifier of both decodes to one of them. */
  lemma SharedIdentifier()
    ensures IsFullName("a_/b") && IsFullName("a/_b") && Encode("a_/b") == Encode("a/_b")
    ensures Decode(Encode("a_/b")) == Some("a/_b")
  {
    hide Encode, Decode;
    SharedSeams();
    assert !HasDouble("a/_b");
    assert OwnerEndsWell("a/_b") by { OneOwner(); }
    DecodeEncode("a/_b");
  }

  lemma SharedSeams()
    ensures SlashAt("a_/b", 2) && SlashAt("a/_b", 1) && Encode("a_/b") == Encode("a/_b")
  {
    hide Encode;
    var id := "a___b";
    assert Seam(id, 1) && Seam(id, 2);
    PartedIsName(id, 1);
    PartedIsName(id, 2);
    assert PartedAt(id, 1) == "a/_b" && PartedAt(id, 2) == "a_/b";
  }

  lemma OneOwner()
    ensures OwnerEndsWell("a/_b")
  {
    assert "a/_b"[1] == '/' && "a/_b"[2] == '_' && "a/_b"[3] == 'b';
  }
}
