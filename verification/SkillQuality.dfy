/** Marketplace quality of a SKILL.md: `validate_skill_md` of app/quality/skill_quality.py. */
module SkillQuality {
  import opened Basics
  import opened Text
  import opened Frontmatter

  /** One constructor for each warning text of the source. */
  datatype Warning =
    | MissingFrontmatter
    | DescriptionMultiline
    | BodyFallback
    | MissingDescription
    | DescriptionTooShort
    | DescriptionTooLong
    | MustBeStringOrList(key: Field)
    | InvalidModel
    | BodyTooLong

  datatype Quality = Quality(ok: bool, score: int, errors: seq<string>, warnings: seq<Warning>)

  const TOOL_KEYS: seq<Field> := [AllowedTools, AllowedToolsUnderscored, Tools]

  /** What each warning costs. */
  function Penalty(warning: Warning): nat {
    match warning
    case MissingFrontmatter => 5
    case DescriptionTooLong => 5
    case InvalidModel => 5
    case MissingDescription => 15
    case _ => 10
  }

  function Penalties(warnings: seq<Warning>): nat {
    if warnings == [] then 0
    else Penalties(warnings[..|warnings| - 1]) + Penalty(warnings[|warnings| - 1])
  }

  const ERROR_PENALTY := 40

  function Clamp(score: int): int { if score < 0 then 0 else if score > 100 then 100 else score }

  /** The description that counts, and whether it had to be taken from the body. */
  function Stated(doc: Doc): Option<string> {
    var d := AsStr(Get(doc.metadata, Description));
    if d.Some? then d else AsStr(Get(doc.metadata, Summary))
  }

  function FrontmatterWarnings(doc: Doc): seq<Warning> {
    if doc.raw == "" then [MissingFrontmatter]
    else if doc.multilineDescription then [DescriptionMultiline]
    else []
  }

  function LengthWarnings(description: Option<string>): seq<Warning> {
    if description.None? then [MissingDescription]
    else if |description.value| < 20 then [DescriptionTooShort]
    else if |description.value| > 1024 then [DescriptionTooLong]
    else []
  }

  function DescriptionWarnings(doc: Doc): seq<Warning> {
    var first := FirstParagraph(doc.lines);
    if Stated(doc).Some? then LengthWarnings(Stated(doc))
    else if first.Some? then [BodyFallback] + LengthWarnings(first)
    else LengthWarnings(None)
  }

  function ToolWarnings(m: Mapping, keys: seq<Field>): seq<Warning> {
    if keys == [] then []
    else
      var key := keys[|keys| - 1];
      var before := ToolWarnings(m, keys[..|keys| - 1]);
      if key in m && !m[key].Str? && !m[key].List? then before + [MustBeStringOrList(key)] else before
  }

  const ALLOWED_MODELS := {"haiku", "sonnet", "opus", "inherit"}

  predicate ForeignModel(m: Mapping) {
    var model := AsStr(Get(m, Model));
    model.Some? && Lower(model.value) !in ALLOWED_MODELS
  }

  function ModelWarnings(m: Mapping): seq<Warning> { if ForeignModel(m) then [InvalidModel] else [] }

  function SizeWarnings(lines: seq<string>): seq<Warning> {
    if |lines| > 500 then [BodyTooLong] else []
  }

  function Warnings(doc: Doc): seq<Warning> {
    FrontmatterWarnings(doc) + DescriptionWarnings(doc) + ToolWarnings(doc.metadata, TOOL_KEYS)
      + ModelWarnings(doc.metadata) + SizeWarnings(doc.lines)
  }

  function Errors(doc: Doc): seq<string> { if doc.error == "" then [] else [doc.error] }

  /** The assessment: the score is what the reported errors and warnings leave of 100. */
  function Assess(doc: Doc): Quality {
    Quality(Errors(doc) == [],
            Clamp(100 - ERROR_PENALTY * |Errors(doc)| - Penalties(Warnings(doc))),
            Errors(doc), Warnings(doc))
  }

  lemma {:induction false} PenaltiesAdd(a: seq<Warning>, b: seq<Warning>)
    ensures Penalties(a + b) == Penalties(a) + Penalties(b)
  {
    if b == [] {
      assert a + b == a;
    } else {
      var n := |b| - 1;
      assert (a + b)[..|a + b| - 1] == a + b[..n];
      PenaltiesAdd(a, b[..n]);
    }
  }

  lemma OnePenalty(w: Warning)
    ensures Penalties([w]) == Penalty(w)
  {
    assert [w][..0] == [];
  }

  /** What the tool fields can cost at most. */
  lemma ToolPenalties(m: Mapping)
    ensures Penalties(ToolWarnings(m, TOOL_KEYS)) <= 30
  {
    ToolPenaltiesUpTo(m, TOOL_KEYS);
  }

  lemma {:induction false} ToolPenaltiesUpTo(m: Mapping, keys: seq<Field>)
    requires keys <= TOOL_KEYS
    ensures Penalties(ToolWarnings(m, keys)) <= 10 * |keys|
  {
    if keys == [] {
    } else {
      var pre, key := keys[..|keys| - 1], keys[|keys| - 1];
      ToolPenaltiesUpTo(m, pre);
      var w := MustBeStringOrList(key);
      PenaltiesAdd(ToolWarnings(m, pre), [w]);
      OnePenalty(w);
    }
  }

  lemma DescriptionPenalties(doc: Doc)
    ensures Penalties(DescriptionWarnings(doc)) <= 20
  {
    var stated, first := Stated(doc), FirstParagraph(doc.lines);
    var d := if stated.Some? then stated else first;
    var l := LengthWarnings(d);
    if l != [] { OnePenalty(l[0]); assert l == [l[0]]; }
    if stated.None? && first.Some? {
      OnePenalty(BodyFallback);
      PenaltiesAdd([BodyFallback], l);
    }
  }

  lemma SinglePenalties(doc: Doc)
    ensures Penalties(FrontmatterWarnings(doc)) <= 10
    ensures Penalties(ModelWarnings(doc.metadata)) <= 5
    ensures Penalties(SizeWarnings(doc.lines)) <= 10
  {
    OnePenalty(MissingFrontmatter);
    OnePenalty(DescriptionMultiline);
    OnePenalty(InvalidModel);
    OnePenalty(BodyTooLong);
  }

  /** A skill without errors scores at least 25. */
  lemma ErrorFreeScore(doc: Doc)
    requires Assess(doc).ok
    ensures 25 <= Assess(doc).score <= 100
  {
    var a, b, c, d, e := FrontmatterWarnings(doc), DescriptionWarnings(doc), ToolWarnings(doc.metadata, TOOL_KEYS),
      ModelWarnings(doc.metadata), SizeWarnings(doc.lines);
    PenaltiesAdd(a, b);
    PenaltiesAdd(a + b, c);
    PenaltiesAdd(a + b + c, d);
    PenaltiesAdd(a + b + c + d, e);
    SinglePenalties(doc);
    DescriptionPenalties(doc);
    ToolPenalties(doc.metadata);
  }

  /** A document with every warning it can have at once, and no error. */
  function WorstErrorFree(): Doc {
    Doc(map[AllowedTools := Null, AllowedToolsUnderscored := Null, Tools := Null, Model := Str("gpt")],
        seq(501, _ => "short"), "raw", "", true)
  }

  lemma WorstDescription()
    ensures DescriptionWarnings(WorstErrorFree()) == [BodyFallback] + [DescriptionTooShort]
  {
    StripTrims("short");
    assert WorstErrorFree().lines[0] == "short";
    assert FirstParagraph(WorstErrorFree().lines) == Some("short");
  }

  lemma WorstModel()
    ensures ModelWarnings(WorstErrorFree().metadata) == [InvalidModel]
  {
    StripTrims("gpt");
    assert Lower("gpt") == "gpt";
  }

  lemma OneMoreTool(m: Mapping, keys: seq<Field>, key: Field)
    requires key in m && m[key] == Null
    ensures ToolWarnings(m, keys + [key]) == ToolWarnings(m, keys) + [MustBeStringOrList(key)]
  {
    assert (keys + [key])[..|keys|] == keys;
  }

  lemma ToolWarned(m: Mapping, keys: seq<Field>, key: Field)
    requires key in m && m[key] == Null
    ensures Penalties(ToolWarnings(m, keys + [key])) == Penalties(ToolWarnings(m, keys)) + 10
  {
    OneMoreTool(m, keys, key);
    OneMoreWarning(ToolWarnings(m, keys), MustBeStringOrList(key));
  }

  lemma WorstTools()
    ensures Penalties(ToolWarnings(WorstErrorFree().metadata, TOOL_KEYS)) == 30
  {
    var m := WorstErrorFree().metadata;
    ToolWarned(m, [], AllowedTools);
    ToolWarned(m, [] + [AllowedTools], AllowedToolsUnderscored);
    ToolWarned(m, [] + [AllowedTools] + [AllowedToolsUnderscored], Tools);
    assert TOOL_KEYS == [] + [AllowedTools] + [AllowedToolsUnderscored] + [Tools];
  }

  /** And no less can be promised: this document scores exactly 25. */
  lemma ErrorFreeScoreIsReached()
    ensures Assess(WorstErrorFree()).ok && Assess(WorstErrorFree()).score == 25
  {
    var doc := WorstErrorFree();
    WorstDescription();
    WorstModel();
    WorstTools();
    PenaltiesOfSingles();
    PenaltiesAdd([BodyFallback], [DescriptionTooShort]);
    FiveAdd(FrontmatterWarnings(doc), DescriptionWarnings(doc), ToolWarnings(doc.metadata, TOOL_KEYS),
            ModelWarnings(doc.metadata), SizeWarnings(doc.lines));
    PenaltiesAdd(ModelWarnings(doc.metadata), SizeWarnings(doc.lines));
  }

  lemma PenaltiesOfSingles()
    ensures Penalties([DescriptionMultiline]) == Penalties([BodyFallback]) == Penalties([DescriptionTooShort]) ==
            Penalties([BodyTooLong]) == 10
    ensures Penalties([InvalidModel]) == 5
  {
    OnePenalty(DescriptionMultiline);
    OnePenalty(BodyFallback);
    OnePenalty(DescriptionTooShort);
    OnePenalty(BodyTooLong);
    OnePenalty(InvalidModel);
  }

  /** The search of the body for a usable description. */
  method FallbackDescription(lines: seq<string>) returns (description: Option<string>)
    ensures description == FirstParagraph(lines)
  {
    description := None;
    for i := 0 to |lines|
      invariant description == None && FirstParagraph(lines) == FirstParagraph(lines[i..])
    {
      var text := Strip(lines[i]);
      assert lines[i..][1..] == lines[i + 1..];
      if text == "" || MarkdownConstruct(text) {
        continue;
      }
      return Some(text);
    }
  }

  lemma OneMoreWarning(warnings: seq<Warning>, w: Warning)
    ensures Penalties(warnings + [w]) == Penalties(warnings) + Penalty(w)
  {
    assert (warnings + [w])[..|warnings|] == warnings;
  }

  method CheckFrontmatter(doc: Doc, score0: int) returns (warnings: seq<Warning>, score: int)
    ensures warnings == FrontmatterWarnings(doc) && score == score0 - Penalties(warnings)
  {
    OnePenalty(MissingFrontmatter);
    OnePenalty(DescriptionMultiline);
    warnings, score := [], score0;
    if doc.raw == "" {
      warnings := warnings + [MissingFrontmatter];
      score := score - 5;
    } else if doc.multilineDescription {
      warnings := warnings + [DescriptionMultiline];
      score := score - 10;
    }
  }

  method CheckLength(description: Option<string>, score0: int) returns (warnings: seq<Warning>, score: int)
    ensures warnings == LengthWarnings(description) && score == score0 - Penalties(warnings)
  {
    OnePenalty(MissingDescription);
    OnePenalty(DescriptionTooShort);
    OnePenalty(DescriptionTooLong);
    warnings, score := [], score0;
    if description.None? {
      warnings := warnings + [MissingDescription];
      score := score - 15;
    } else {
      if |description.value| < 20 {
        warnings := warnings + [DescriptionTooShort];
        score := score - 10;
      }
      if |description.value| > 1024 {
        warnings := warnings + [DescriptionTooLong];
        score := score - 5;
      }
    }
  }

  method CheckDescription(doc: Doc, score0: int) returns (warnings: seq<Warning>, score: int)
    ensures warnings == DescriptionWarnings(doc) && score == score0 - Penalties(warnings)
  {
    var description := Stated(doc);
    score := score0;
    if description.None? {
      description := FallbackDescription(doc.lines);
      if description.Some? {
        warnings, score := CheckLength(description, score - 10);
        OnePenalty(BodyFallback);
        PenaltiesAdd([BodyFallback], warnings);
        warnings := [BodyFallback] + warnings;
        return;
      }
    }
    warnings, score := CheckLength(description, score);
  }

  method CheckToolFields(m: Mapping, keys: seq<Field>, score0: int) returns (warnings: seq<Warning>, score: int)
    ensures warnings == ToolWarnings(m, keys) && score == score0 - Penalties(warnings)
  {
    warnings, score := [], score0;
    for k := 0 to |keys|
      invariant warnings == ToolWarnings(m, keys[..k]) && score == score0 - Penalties(warnings)
    {
      var key := keys[k];
      assert keys[..k + 1][..k] == keys[..k];
      if key in m && !m[key].Str? && !m[key].List? {
        OneMoreWarning(warnings, MustBeStringOrList(key));
        warnings := warnings + [MustBeStringOrList(key)];
        score := score - 10;
      }
    }
    assert keys[..|keys|] == keys;
  }

  method CheckModelAndSize(doc: Doc, score0: int) returns (warnings: seq<Warning>, score: int)
    ensures warnings == ModelWarnings(doc.metadata) + SizeWarnings(doc.lines) && score == score0 - Penalties(warnings)
  {
    warnings, score := [], score0;
    if ForeignModel(doc.metadata) {
      OneMoreWarning(warnings, InvalidModel);
      warnings := warnings + [InvalidModel];
      score := score - 5;
    }
    if |doc.lines| > 500 {
      OneMoreWarning(warnings, BodyTooLong);
      warnings := warnings + [BodyTooLong];
      score := score - 10;
    }
  }

  lemma FiveAdd(a: seq<Warning>, b: seq<Warning>, c: seq<Warning>, d: seq<Warning>, e: seq<Warning>)
    ensures a + b + c + (d + e) == a + b + c + d + e
    ensures Penalties(a + b + c + (d + e)) == Penalties(a) + Penalties(b) + Penalties(c) + Penalties(d + e)
  {
    PenaltiesAdd(a, b);
    PenaltiesAdd(a + b, c);
    PenaltiesAdd(a + b + c, d + e);
  }

  /** Lists and score put together. */
  lemma Assessed(doc: Doc, w1: seq<Warning>, w2: seq<Warning>, w3: seq<Warning>, w45: seq<Warning>, score: int)
    requires w1 == FrontmatterWarnings(doc) && w2 == DescriptionWarnings(doc)
             && w3 == ToolWarnings(doc.metadata, TOOL_KEYS)
    requires w45 == ModelWarnings(doc.metadata) + SizeWarnings(doc.lines)
    requires score ==
             100 - ERROR_PENALTY * |Errors(doc)| - Penalties(w1) - Penalties(w2) - Penalties(w3) - Penalties(w45)
    ensures Assess(doc) == Quality(Errors(doc) == [], Clamp(score), Errors(doc), w1 + w2 + w3 + w45)
  {
    hide FrontmatterWarnings, DescriptionWarnings, ToolWarnings, ModelWarnings, SizeWarnings, Penalties;
    FiveAdd(w1, w2, w3, ModelWarnings(doc.metadata), SizeWarnings(doc.lines));
  }

  /** The validation as the source runs it: lists appended to, and a score counted down. */
  method ValidateSkillMd(doc: Doc) returns (q: Quality)
    ensures q == Assess(doc)
  {
    hide FrontmatterWarnings, DescriptionWarnings, ToolWarnings, ModelWarnings, SizeWarnings, Penalties;
    var errors: seq<string>, score := [], 100;
    if doc.error != "" {
      errors := errors + [doc.error];
      score := score - 40;
    }
    var w1, w2, w3, w45;
    w1, score := CheckFrontmatter(doc, score);
    w2, score := CheckDescription(doc, score);
    w3, score := CheckToolFields(doc.metadata, TOOL_KEYS, score);
    w45, score := CheckModelAndSize(doc, score);
    Assessed(doc, w1, w2, w3, w45, score);
    q := Quality(errors == [], Clamp(score), errors, w1 + w2 + w3 + w45);
  }
}
