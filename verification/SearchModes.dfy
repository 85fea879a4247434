/** Search modes of the skill listing: weights, fallback and match reasons (app/api/skills.py). */
module SearchModes {
  import opened Basics
  import opened Frontmatter
  import opened Text

  datatype Mode = Keyword | Vector | Hybrid

  /** What the source raises a 422 with, each by its text. */
  datatype WeightError = InvalidFormat | BothRequired | NegativeWeight | ZeroTotal

  datatype Weights = Weights(keyword: real, vector: real)

  datatype Parsed = Accepted(w: Weights) | Refused(error: WeightError)

  /** Reading of a decimal number; none when the text is not one. */
  type Numbers = string -> Option<real>

  function Defaults(mode: Mode): Weights {
    match mode
    case Keyword => Weights(1.0, 0.0)
    case Vector => Weights(0.0, 1.0)
    case Hybrid => Weights(0.45, 0.55)
  }

  datatype Side = OfKeyword | OfVector

  /** A token like `keyword:0.45`. */
  datatype Token = Blank | Weight(side: Side, x: real) | Malformed

  function ReadToken(part: string, number: Numbers): Token {
    var token := Strip(part);
    var i := First(token, ':');
    if token == "" then Blank
    else if i == |token| then Malformed
    else
      var key, x := Lower(Strip(token[..i])), number(Strip(token[i + 1..]));
      if x.None? then Malformed
      else if key == "keyword" || key == "k" then Weight(OfKeyword, x.value)
      else if key == "vector" || key == "v" then Weight(OfVector, x.value)
      else Malformed
  }

  predicate AllWellFormed(parts: seq<string>, number: Numbers) {
    forall p | p in parts :: !ReadToken(p, number).Malformed?
  }

  /** The last weight given for a side. */
  function LastWeight(parts: seq<string>, side: Side, number: Numbers): Option<real> {
    if parts == [] then None
    else
      var t := ReadToken(parts[|parts| - 1], number);
      if t.Weight? && t.side == side then Some(t.x) else LastWeight(parts[..|parts| - 1], side, number)
  }

  function NonBlank(parts: seq<string>): seq<string> {
    if parts == [] then []
    else
      var pre, p := NonBlank(parts[..|parts| - 1]), Strip(parts[|parts| - 1]);
      if p == "" then pre else pre + [p]
  }

  function Normalized(keyword: real, vector: real): Parsed {
    if keyword < 0.0 || vector < 0.0 then Refused(NegativeWeight)
    else if keyword + vector <= 0.0 then Refused(ZeroTotal)
    else Accepted(Weights(keyword / (keyword + vector), vector / (keyword + vector)))
  }

  function NormalizedIfBoth(keyword: Option<real>, vector: Option<real>): Parsed {
    if keyword.None? || vector.None? then Refused(BothRequired) else Normalized(keyword.value, vector.value)
  }

  function ParsedNamed(parts: seq<string>, number: Numbers): Parsed {
    if !AllWellFormed(parts, number) then Refused(InvalidFormat)
    else NormalizedIfBoth(LastWeight(parts, OfKeyword, number), LastWeight(parts, OfVector, number))
  }

  function ParsedPair(values: seq<string>, number: Numbers): Parsed {
    if |values| != 2 || number(values[0]).None? || number(values[1]).None? then Refused(InvalidFormat)
    else Normalized(number(values[0]).value, number(values[1]).value)
  }

  /** What the weights of a request come to. */
  function ParsedWeights(mode: Mode, raw: Option<string>, number: Numbers): Parsed {
    if mode != Hybrid || raw.None? || Strip(raw.value) == "" then Accepted(Defaults(mode))
    else
      var parts := Split(Strip(raw.value), ',');
      if ':' in Strip(raw.value) then ParsedNamed(parts, number) else ParsedPair(NonBlank(parts), number)
  }

  /** Accepted weights are shares of one: non-negative, and one in all. */
  lemma WeightsAreShares(mode: Mode, raw: Option<string>, number: Numbers)
    requires ParsedWeights(mode, raw, number).Accepted?
    ensures var w := ParsedWeights(mode, raw, number).w;
            w.keyword >= 0.0 && w.vector >= 0.0 && w.keyword + w.vector == 1.0
  {
    if mode == Hybrid && raw.Some? && Strip(raw.value) != "" {
      var parts := Split(Strip(raw.value), ',');
      if ':' in Strip(raw.value) {
        Shares(LastWeight(parts, OfKeyword, number).value, LastWeight(parts, OfVector, number).value);
      } else {
        Shares(number(NonBlank(parts)[0]).value, number(NonBlank(parts)[1]).value);
      }
    }
  }

  lemma Shares(keyword: real, vector: real)
    requires Normalized(keyword, vector).Accepted?
    ensures var w := Normalized(keyword, vector).w; w.keyword >= 0.0 && w.vector >= 0.0 && w.keyword + w.vector == 1.0
  {
    var total := keyword + vector;
    assert keyword / total + vector / total == (keyword + vector) / total;
  }

  /** Scaling both weights changes nothing: only their proportion counts. */
  lemma OnlyProportionCounts(keyword: real, vector: real, factor: real)
    requires factor > 0.0
    ensures Normalized(factor * keyword, factor * vector) == Normalized(keyword, vector)
  {
    var total := keyword + vector;
    assert factor * keyword + factor * vector == factor * total;
    assert (factor * keyword < 0.0 <==> keyword < 0.0) && (factor * vector < 0.0 <==> vector < 0.0);
    assert factor * total <= 0.0 <==> total <= 0.0;
    if total > 0.0 {
      Cancel(keyword, factor, total);
      Cancel(vector, factor, total);
    }
  }

  lemma Cancel(x: real, factor: real, total: real)
    requires factor > 0.0 && total > 0.0
    ensures (factor * x) / (factor * total) == x / total
  {
    var y := x / total;
    assert x == y * total;
    assert factor * x == y * (factor * total);
  }

  // ---------------------------------------------------------------- which texts are refused

  predicate LastAt(parts: seq<string>, side: Side, x: real, number: Numbers, i: nat)
    requires i < |parts|
  {
    && ReadToken(parts[i], number) == Weight(side, x)
    && forall j | i < j < |parts| :: var t := ReadToken(parts[j], number); !(t.Weight? && t.side == side)
  }

  /** A token gives the side this weight, and no later one gives it another. */
  predicate LastGiven(parts: seq<string>, side: Side, x: real, number: Numbers) {
    exists i | 0 <= i < |parts| :: LastAt(parts, side, x, number, i)
  }

  lemma LastAtLonger(parts: seq<string>, side: Side, x: real, number: Numbers, i: nat)
    requires i < |parts| - 1
    ensures var t := ReadToken(parts[|parts| - 1], number);
            LastAt(parts, side, x, number, i) <==>
            LastAt(parts[..|parts| - 1], side, x, number, i) && !(t.Weight? && t.side == side)
  {
    hide ReadToken;
  }

  lemma {:induction false} LastWeightMeans(parts: seq<string>, side: Side, x: real, number: Numbers)
    ensures LastWeight(parts, side, number) == Some(x) <==> LastGiven(parts, side, x, number)
  {
    hide ReadToken, LastAt;
    if parts == [] {
    } else {
      var n := |parts| - 1;
      var pre := parts[..n];
      LastWeightMeans(pre, side, x, number);
      LastAtEnd(parts, side, x, number);
      var t := ReadToken(parts[n], number);
      forall i | 0 <= i < n
        ensures LastAt(parts, side, x, number, i) <==> LastAt(pre, side, x, number, i) && !(t.Weight? && t.side == side)
      {
        LastAtLonger(parts, side, x, number, i);
      }
    }
  }

  lemma LastAtEnd(parts: seq<string>, side: Side, x: real, number: Numbers)
    requires parts != []
    ensures LastAt(parts, side, x, number, |parts| - 1) <==> ReadToken(parts[|parts| - 1], number) == Weight(side, x)
  {
    hide ReadToken;
  }

  /** The text gives the sides these weights: by name, every token well formed, or as a pair of numbers. */
  predicate Gives(text: string, keyword: real, vector: real, number: Numbers) {
    var parts := Split(text, ',');
    if ':' in text then
      AllWellFormed(parts, number) && LastGiven(parts, OfKeyword, keyword, number)
      && LastGiven(parts, OfVector, vector, number)
    else
      var values := NonBlank(parts);
      |values| == 2 && number(values[0]) == Some(keyword) && number(values[1]) == Some(vector)
  }

  /** Two weights, neither negative and not both zero. */
  ghost predicate GivesShares(text: string, number: Numbers) {
    exists keyword, vector ::
      Gives(text, keyword, vector, number) && keyword >= 0.0 && vector >= 0.0 && keyword + vector > 0.0
  }

  lemma GivenIsParsed(text: string, keyword: real, vector: real, number: Numbers)
    requires text != "" && text == Strip(text) && Gives(text, keyword, vector, number)
    ensures ParsedWeights(Hybrid, Some(text), number) == Normalized(keyword, vector)
  {
    if ':' in text {
      LastWeightMeans(Split(text, ','), OfKeyword, keyword, number);
      LastWeightMeans(Split(text, ','), OfVector, vector, number);
    }
  }

  lemma ParsedIsGiven(text: string, number: Numbers)
    requires text != "" && text == Strip(text) && ParsedWeights(Hybrid, Some(text), number).Accepted?
    ensures GivesShares(text, number)
  {
    var parts := Split(text, ',');
    if ':' in text {
      var k, v := LastWeight(parts, OfKeyword, number).value, LastWeight(parts, OfVector, number).value;
      LastWeightMeans(parts, OfKeyword, k, number);
      LastWeightMeans(parts, OfVector, v, number);
      assert Gives(text, k, v, number);
    } else {
      var values := NonBlank(parts);
      assert Gives(text, number(values[0]).value, number(values[1]).value, number);
    }
  }

  /** The weights of a hybrid request are refused exactly when there is a text, more than white space,
      that does not give both sides a weight, neither negative and not both zero. */
  lemma RefusedIff(raw: Option<string>, number: Numbers)
    ensures ParsedWeights(Hybrid, raw, number).Refused? <==>
            raw.Some? && Strip(raw.value) != "" && !GivesShares(Strip(raw.value), number)
  {
    if raw.Some? && Strip(raw.value) != "" {
      var text := Strip(raw.value);
      StripTrims(raw.value);
      StripTrims(text);
      if GivesShares(text, number) {
        var k, v :| Gives(text, k, v, number) && k >= 0.0 && v >= 0.0 && k + v > 0.0;
        GivenIsParsed(text, k, v, number);
      } else if ParsedWeights(Hybrid, Some(text), number).Accepted? {
        ParsedIsGiven(text, number);
      }
    }
  }

  // ---------------------------------------------------------------- the parser as the source runs it

  lemma {:induction false} WellFormedPrefix(parts: seq<string>, i: nat, number: Numbers)
    requires i < |parts|
    ensures AllWellFormed(parts[..i + 1], number) <==>
            AllWellFormed(parts[..i], number) && !ReadToken(parts[i], number).Malformed?
  {
    assert parts[..i + 1] == parts[..i] + [parts[i]];
  }

  /** The loop over `key:value` tokens; a later weight replaces an earlier one. */
  method ReadNamed(parts: seq<string>, number: Numbers) returns (ok: bool, keyword: Option<real>, vector: Option<real>)
    ensures ok == AllWellFormed(parts, number)
    ensures ok ==> keyword == LastWeight(parts, OfKeyword, number) && vector == LastWeight(parts, OfVector, number)
  {
    keyword, vector := None, None;
    for i := 0 to |parts|
      invariant AllWellFormed(parts[..i], number)
      invariant keyword == LastWeight(parts[..i], OfKeyword, number)
                && vector == LastWeight(parts[..i], OfVector, number)
    {
      WellFormedPrefix(parts, i, number);
      assert parts[..i + 1][..i] == parts[..i];
      match ReadToken(parts[i], number)
      case Blank =>
      case Malformed =>
        assert parts[i] in parts;
        return false, None, None;
      case Weight(side, x) =>
        if side == OfKeyword { keyword := Some(x); } else { vector := Some(x); }
    }
    assert parts[..|parts|] == parts;
    ok := true;
  }

  method ReadValues(parts: seq<string>) returns (values: seq<string>)
    ensures values == NonBlank(parts)
  {
    values := [];
    for i := 0 to |parts|
      invariant values == NonBlank(parts[..i])
    {
      assert parts[..i + 1][..i] == parts[..i];
      var segment := Strip(parts[i]);
      if segment != "" { values := values + [segment]; }
    }
    assert parts[..|parts|] == parts;
  }

  method ParseSearchWeights(mode: Mode, rawWeights: Option<string>, number: Numbers) returns (parsed: Parsed)
    ensures parsed == ParsedWeights(mode, rawWeights, number)
  {
    if mode != Hybrid || rawWeights.None? { return Accepted(Defaults(mode)); }
    var raw := Strip(rawWeights.value);
    if raw == "" { return Accepted(Defaults(Hybrid)); }
    var keywordWeight, vectorWeight: Option<real> := None, None;
    if ':' in raw {
      var ok;
      ok, keywordWeight, vectorWeight := ReadNamed(Split(raw, ','), number);
      if !ok { return Refused(InvalidFormat); }
    } else {
      var values := ReadValues(Split(raw, ','));
      if |values| != 2 || number(values[0]).None? || number(values[1]).None? { return Refused(InvalidFormat); }
      keywordWeight, vectorWeight := number(values[0]), number(values[1]);
    }
    if keywordWeight.None? || vectorWeight.None? { return Refused(BothRequired); }
    if keywordWeight.value < 0.0 || vectorWeight.value < 0.0 { return Refused(NegativeWeight); }
    var total := keywordWeight.value + vectorWeight.value;
    if total <= 0.0 { return Refused(ZeroTotal); }
    parsed := Accepted(Weights(keywordWeight.value / total, vectorWeight.value / total));
  }

  // ---------------------------------------------------------------- modes and reasons

  datatype Active = Active(mode: Mode, fallback: bool)

  function ResolveActiveMode(requested: Mode, query: string, embedding: bool): Active {
    if query != "" && requested != Keyword && !embedding then Active(Keyword, true) else Active(requested, false)
  }

  datatype Reason =
    | KeywordMatchFallback | KeywordFallback | SemanticMatch | HybridBoth | HybridKeyword | HybridVector
    | KeywordRelevance | SortedResult | SortedBy(sort: string)

  function BuildMatchReason(active: Mode, keyword: real, vector: real, fallback: bool): Reason {
    if fallback then if keyword > 0.0 then KeywordMatchFallback else KeywordFallback
    else if active == Vector then SemanticMatch
    else if active == Hybrid then
      if keyword > 0.0 && vector > 0.0 then HybridBoth else if keyword > 0.0 then HybridKeyword else HybridVector
    else if keyword > 0.0 then KeywordRelevance
    else SortedResult
  }
}
