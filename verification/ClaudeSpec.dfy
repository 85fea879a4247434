/** Validation and normalisation of SKILL.md frontmatter under the lax and the strict profile:
    app/quality/claude_skill_spec.py. */
module ClaudeSpec {
  import opened Basics
  import opened Text
  import opened Frontmatter
  import opened Sorting
  import SkillUrls

  // ---------------------------------------------------------------- findings

  /** One constructor for each text the source reports. */
  datatype Code =
    | FrontmatterError(text: string)
    | MustBeMapping
    | MissingFrontmatter
    | UnknownFields
    | InvalidNameFormat
    | BodyFallback
    | MissingDescription
    | MustBeBool(field: Field)
    | ToolsMustBeStringOrList
    | ToolsListMustContainStrings
    | ToolsEmpty
    | ContextMustBeFork
    | AgentRequiresFork
    | HooksMustBeMapping
    | BodyTooLong

  /** An error under both profiles; an error only under strict; a warning; a warning only under strict. */
  datatype Grade = Always | Graded | Advice | StrictAdvice

  datatype Finding = Finding(code: Code, grade: Grade)

  predicate IsError(f: Finding, strict: bool) { f.grade == Always || (f.grade == Graded && strict) }

  predicate IsWarning(f: Finding, strict: bool) {
    f.grade == Advice || (f.grade == Graded && !strict) || (f.grade == StrictAdvice && strict)
  }

  function Errors(fs: seq<Finding>, strict: bool): seq<Code> {
    if fs == [] then []
    else
      var pre, f := Errors(fs[..|fs| - 1], strict), fs[|fs| - 1];
      if IsError(f, strict) then pre + [f.code] else pre
  }

  function Warnings(fs: seq<Finding>, strict: bool): seq<Code> {
    if fs == [] then []
    else
      var pre, f := Warnings(fs[..|fs| - 1], strict), fs[|fs| - 1];
      if IsWarning(f, strict) then pre + [f.code] else pre
  }

  // ---------------------------------------------------------------- allowed tools

  function CommaItems(parts: seq<string>): seq<string> {
    if parts == [] then []
    else
      var pre, p := CommaItems(parts[..|parts| - 1]), Strip(parts[|parts| - 1]);
      if p == "" then pre else pre + [p]
  }

  /** The leading items of a list that are non-blank strings. */
  function LeadingStrings(items: seq<Value>): seq<string> {
    if items == [] || AsStr(items[0]).None? then [] else [AsStr(items[0]).value] + LeadingStrings(items[1..])
  }

  predicate AllStrings(items: seq<Value>) { forall v | v in items :: AsStr(v).Some? }

  /** Later repetitions dropped. */
  function Deduplicated(items: seq<string>): seq<string> {
    if items == [] then []
    else
      var pre, x := Deduplicated(items[..|items| - 1]), items[|items| - 1];
      if x in pre then pre else pre + [x]
  }

  function ToolItems(v: Value): seq<string> {
    match v
    case Str(s) => CommaItems(Split(s, ','))
    case List(items) => LeadingStrings(items)
    case _ => []
  }

  function NormalizedTools(v: Value): Option<seq<string>> {
    if v.Str? || v.List? then Some(Deduplicated(ToolItems(v))) else None
  }

  function If(raised: bool, f: Finding): seq<Finding> { if raised then [f] else [] }

  function ToolFindings(v: Value): seq<Finding> {
    If(v.List? && !AllStrings(v.items), Finding(ToolsListMustContainStrings, Graded))
    + If(!v.Null? && !v.Str? && !v.List?, Finding(ToolsMustBeStringOrList, Graded))
    + If((v.Str? || v.List?) && ToolItems(v) == [], Finding(ToolsEmpty, Advice))
  }

  // ---------------------------------------------------------------- the specification

  datatype Top = Mapped(m: Mapping) | NotAMapping

  function Fields(top: Top): Mapping { if top.Mapped? then top.m else map[] }

  predicate NameFormat(name: string) {
    1 <= |name| <= 64 && forall c | c in name :: 'a' <= c <= 'z' || '0' <= c <= '9' || c == '-'
  }

  predicate Unknown(f: Field) { f in {Summary, AllowedToolsUnderscored, Tools} || f.Other? }

  function DerivedDescription(m: Mapping, doc: Doc): Option<string> {
    var d := AsStr(Get(m, Description));
    if d.Some? then d else FirstParagraph(doc.lines)
  }

  predicate BadBool(m: Mapping, f: Field) { f in m && AsBool(m[f]).None? }

  predicate Forked(m: Mapping) { AsStr(Get(m, Context)) == Some("fork") }

  function ReadFindings(top: Top, doc: Doc): seq<Finding> {
    If(doc.error != "", Finding(FrontmatterError(doc.error), Always))
    + If(doc.raw == "", Finding(MissingFrontmatter, Advice))
    + If(top.NotAMapping?, Finding(MustBeMapping, Always))
  }

  predicate HasUnknown(m: Mapping) { exists f | f in m :: Unknown(f) }

  function UnknownFindings(m: Mapping): seq<Finding> { If(HasUnknown(m), Finding(UnknownFields, StrictAdvice)) }

  function TextFindings(m: Mapping, doc: Doc): seq<Finding> {
    var name, described := AsStr(Get(m, Name)), DerivedDescription(m, doc);
    If(name.Some? && !NameFormat(name.value), Finding(InvalidNameFormat, Graded))
    + If(AsStr(Get(m, Description)).None? && described.Some?, Finding(BodyFallback, Advice))
    + If(described.None?, Finding(MissingDescription, Advice))
  }

  function BoolFindings(m: Mapping): seq<Finding> {
    If(BadBool(m, DisableModelInvocation), Finding(MustBeBool(DisableModelInvocation), Graded))
    + If(BadBool(m, UserInvocable), Finding(MustBeBool(UserInvocable), Graded))
  }

  function AgentFindings(m: Mapping): seq<Finding> {
    If(AsStr(Get(m, Context)).Some? && !Forked(m), Finding(ContextMustBeFork, Graded))
    + If(AsStr(Get(m, Agent)).Some? && !Forked(m), Finding(AgentRequiresFork, Advice))
  }

  function HookAndSizeFindings(m: Mapping, doc: Doc): seq<Finding> {
    If(!Get(m, Hooks).Null? && !Get(m, Hooks).Dict?, Finding(HooksMustBeMapping, Graded))
    + If(|doc.lines| > 500, Finding(BodyTooLong, Advice))
  }

  /** What is reported of single fields: graded by the profile, or advice. */
  function FieldFindings(m: Mapping, doc: Doc): seq<Finding> {
    TextFindings(m, doc) + BoolFindings(m) + ToolFindings(Get(m, AllowedTools)) + AgentFindings(m)
        + HookAndSizeFindings(m, doc)
  }

  /** Everything there is to report, in the order the source reports it. */
  function Findings(top: Top, doc: Doc): seq<Finding> {
    ReadFindings(top, doc) + UnknownFindings(Fields(top)) + FieldFindings(Fields(top), doc)
  }

  function Stripped(v: Value): Option<Value> { if AsStr(v).Some? then Some(Str(AsStr(v).value)) else None }

  function Boolean(m: Mapping, f: Field, default: bool): Option<Value> {
    if BadBool(m, f) then None
    else Some(Bool(if f in m then AsBool(m[f]).value else default))
  }

  function ToolList(v: Value): Option<Value> {
    var tools := NormalizedTools(v);
    if tools.None? then None
    else Some(List(seq(|tools.value|, i requires 0 <= i < |tools.value| => Str(tools.value[i]))))
  }

  /** What normalisation keeps of one field. */
  function NormalizedField(m: Mapping, f: Field): Option<Value> {
    match f
    case ArgumentHint => Stripped(Get(m, f))
    case DisableModelInvocation => Boolean(m, f, false)
    case UserInvocable => Boolean(m, f, true)
    case AllowedTools => ToolList(Get(m, f))
    case Model => Stripped(Get(m, f))
    case Context => Stripped(Get(m, f))
    case Agent => Stripped(Get(m, f))
    case Hooks => if Get(m, f).Dict? then Some(Get(m, f)) else None
    case _ => None
  }

  const NORMAL_FIELDS: set<Field> :=
      {ArgumentHint, DisableModelInvocation, UserInvocable, AllowedTools, Model, Context, Agent, Hooks}

  function Normalized(m: Mapping): Mapping {
    map f | f in NORMAL_FIELDS && NormalizedField(m, f).Some? :: NormalizedField(m, f).value
  }

  /** How a field is written. */
  function FieldName(f: Field): string {
    match f
    case Name => "name"
    case Description => "description"
    case Summary => "summary"
    case ArgumentHint => "argument-hint"
    case DisableModelInvocation => "disable-model-invocation"
    case UserInvocable => "user-invocable"
    case AllowedTools => "allowed-tools"
    case AllowedToolsUnderscored => "allowed_tools"
    case Tools => "tools"
    case Model => "model"
    case Context => "context"
    case Agent => "agent"
    case Hooks => "hooks"
    case Other(name) => name
  }

  function UnknownNames(m: Mapping): set<string> { set f | f in m && Unknown(f) :: FieldName(f) }

  function Strings(items: seq<string>): seq<Value> { seq(|items|, i requires 0 <= i < |items| => Str(items[i])) }

  const UNKNOWN_FIELDS := Other("unknown_fields")

  /** What strict adds to the normalised mapping: the unknown fields, sorted. */
  function UnknownEntry(m: Mapping, strict: bool): Mapping {
    if strict && HasUnknown(m) then map[UNKNOWN_FIELDS := List(Strings(InOrder(UnknownNames(m))))] else map[]
  }

  /** The profile named by a setting: everything but "strict" is lax. */
  predicate IsStrict(profile: string) { Lower(Strip(profile)) == "strict" }

  datatype Spec = Spec(ok: bool, errors: seq<Code>, warnings: seq<Code>, normalized: Mapping,
                       derivedName: Option<string>, derivedDescription: Option<string>)

  /** The directory after the last "skills" segment of the path of a canonical URL. */
  function NameFromUrl(url: string): Option<string> {
    var parts := SkillUrls.Parts(SkillUrls.Scrub(url));
    var i := LastSkills(parts);
    if |parts| < 7 || i + 1 >= |parts| || Strip(parts[i + 1]) == "" then None else Some(Strip(parts[i + 1]))
  }

  /** Position of the last segment reading "skills"; the length when there is none. */
  function LastSkills(parts: seq<string>): (i: nat)
    ensures i <= |parts|
  {
    LastSkillsIn(parts, |parts|)
  }

  function LastSkillsIn(parts: seq<string>, n: nat): (i: nat)
    requires n <= |parts|
    ensures i < n || i == |parts|
  {
    if n == 0 then |parts| else if Lower(parts[n - 1]) == "skills" then n - 1 else LastSkillsIn(parts, n - 1)
  }

  function Assess(top: Top, doc: Doc, url: string, strict: bool): Spec {
    var m, fs := Fields(top), Findings(top, doc);
    var name := AsStr(Get(m, Name));
    Spec(Errors(fs, strict) == [], Errors(fs, strict), Warnings(fs, strict), Normalized(m) + UnknownEntry(m, strict),
         if name.Some? then name else NameFromUrl(url), DerivedDescription(m, doc))
  }

  // ---------------------------------------------------------------- gradual rollout

  /** The codes reported under strict alone. */
  function OnlyStrict(fs: seq<Finding>): seq<Code> {
    if fs == [] then []
    else
      var pre, f := OnlyStrict(fs[..|fs| - 1]), fs[|fs| - 1];
      if f.grade == StrictAdvice then pre + [f.code] else pre
  }

  lemma {:induction false} CountReports(fs: seq<Finding>, c: Code)
    ensures multiset(Errors(fs, true))[c] + multiset(Warnings(fs, true))[c] ==
            multiset(Errors(fs, false))[c] + multiset(Warnings(fs, false))[c] + multiset(OnlyStrict(fs))[c]
    ensures multiset(Errors(fs, false))[c] <= multiset(Errors(fs, true))[c]
  {
    if fs == [] {
    } else {
      var pre, f := fs[..|fs| - 1], fs[|fs| - 1];
      CountReports(pre, c);
      CountLast(Errors(pre, true), f.code, c);
      CountLast(Warnings(pre, true), f.code, c);
      CountLast(Errors(pre, false), f.code, c);
      CountLast(Warnings(pre, false), f.code, c);
      CountLast(OnlyStrict(pre), f.code, c);
    }
  }

  lemma CountLast(codes: seq<Code>, last: Code, c: Code)
    ensures multiset(codes + [last])[c] == multiset(codes)[c] + if c == last then 1 else 0
  {
  }

  lemma ProfilesPartition(fs: seq<Finding>)
    ensures multiset(Errors(fs, true)) + multiset(Warnings(fs, true)) ==
            multiset(Errors(fs, false)) + multiset(Warnings(fs, false)) + multiset(OnlyStrict(fs))
    ensures multiset(Errors(fs, false)) <= multiset(Errors(fs, true))
  {
    forall c
      ensures multiset(Errors(fs, true))[c] + multiset(Warnings(fs, true))[c] ==
              multiset(Errors(fs, false))[c] + multiset(Warnings(fs, false))[c] + multiset(OnlyStrict(fs))[c]
      ensures multiset(Errors(fs, false))[c] <= multiset(Errors(fs, true))[c]
    {
      CountReports(fs, c);
    }
  }

  lemma {:induction false} ReportsAdd(a: seq<Finding>, b: seq<Finding>, strict: bool)
    ensures Errors(a + b, strict) == Errors(a, strict) + Errors(b, strict)
    ensures Warnings(a + b, strict) == Warnings(a, strict) + Warnings(b, strict)
    ensures OnlyStrict(a + b) == OnlyStrict(a) + OnlyStrict(b)
  {
    if b == [] {
      assert a + b == a;
    } else {
      var n := |b| - 1;
      assert (a + b)[..|a + b| - 1] == a + b[..n];
      ReportsAdd(a, b[..n], strict);
    }
  }

  lemma ReportOne(raised: bool, f: Finding, strict: bool)
    ensures Errors(If(raised, f), strict) == if raised && IsError(f, strict) then [f.code] else []
    ensures Warnings(If(raised, f), strict) == if raised && IsWarning(f, strict) then [f.code] else []
    ensures OnlyStrict(If(raised, f)) == if raised && f.grade == StrictAdvice then [f.code] else []
  {
    assert [f][..0] == [];
  }

  predicate Milder(fs: seq<Finding>) { forall f | f in fs :: f.grade == Graded || f.grade == Advice }

  lemma {:induction false} MilderReports(fs: seq<Finding>)
    requires Milder(fs)
    ensures Errors(fs, false) == [] && OnlyStrict(fs) == []
  {
    if fs == [] {
    } else {
      assert fs[|fs| - 1] in fs;
      MilderReports(fs[..|fs| - 1]);
    }
  }

  lemma MilderAdd(a: seq<Finding>, b: seq<Finding>)
    requires Milder(a) && Milder(b)
    ensures Milder(a + b)
  {
  }

  lemma TextIsMilder(m: Mapping, doc: Doc)
    ensures Milder(TextFindings(m, doc))
  {
  }

  lemma ToolsAreMilder(v: Value)
    ensures Milder(ToolFindings(v))
  {
  }

  lemma TwoAreMilder(m: Mapping, doc: Doc)
    ensures Milder(BoolFindings(m)) && Milder(AgentFindings(m)) && Milder(HookAndSizeFindings(m, doc))
  {
  }

  /** Everything reported of single fields is graded or advice. */
  lemma FieldFindingsAreMilder(m: Mapping, doc: Doc)
    ensures Milder(FieldFindings(m, doc))
  {
    var v := Get(m, AllowedTools);
    TextIsMilder(m, doc);
    ToolsAreMilder(v);
    TwoAreMilder(m, doc);
    MilderAdd(TextFindings(m, doc), BoolFindings(m));
    MilderAdd(TextFindings(m, doc) + BoolFindings(m), ToolFindings(v));
    MilderAdd(TextFindings(m, doc) + BoolFindings(m) + ToolFindings(v), AgentFindings(m));
    MilderAdd(TextFindings(m, doc) + BoolFindings(m) + ToolFindings(v) + AgentFindings(m), HookAndSizeFindings(m, doc));
  }

  /** Strict reports what lax reports, warnings turned into errors at most, plus at most the warning
      about unknown fields; and no error of lax is lost. */
  lemma StrictRefinesLax(top: Top, doc: Doc, url: string)
    ensures var strict, lax := Assess(top, doc, url, true), Assess(top, doc, url, false);
            && multiset(strict.errors) + multiset(strict.warnings) ==
                 multiset(lax.errors) + multiset(lax.warnings)
                     + (if HasUnknown(Fields(top)) then multiset{UnknownFields} else multiset{})
            && multiset(lax.errors) <= multiset(strict.errors)
            && (strict.ok ==> lax.ok)
  {
    var fs := Findings(top, doc);
    ProfilesPartition(fs);
    OnlyUnknown(top, doc);
    if Errors(fs, true) == [] {
      assert |multiset(Errors(fs, false))| == |Errors(fs, false)|;
    }
  }

  function Code1(raised: bool, f: Finding, counts: bool): seq<Code> { if raised && counts then [f.code] else [] }

  /** Three checks in a row. */
  lemma ThreeReports(r1: bool, f1: Finding, r2: bool, f2: Finding, r3: bool, f3: Finding, strict: bool)
    ensures var fs := If(r1, f1) + If(r2, f2) + If(r3, f3);
            && Errors(fs, strict) ==
                 Code1(r1, f1, IsError(f1, strict)) + Code1(r2, f2, IsError(f2, strict))
                     + Code1(r3, f3, IsError(f3, strict))
            && Warnings(fs, strict) ==
                 Code1(r1, f1, IsWarning(f1, strict)) + Code1(r2, f2, IsWarning(f2, strict))
                     + Code1(r3, f3, IsWarning(f3, strict))
            && OnlyStrict(fs) ==
                 Code1(r1, f1, f1.grade == StrictAdvice) + Code1(r2, f2, f2.grade == StrictAdvice)
                     + Code1(r3, f3, f3.grade == StrictAdvice)
  {
    var a, b, c := If(r1, f1), If(r2, f2), If(r3, f3);
    ReportsAdd(a, b, strict);
    ReportsAdd(a + b, c, strict);
    ReportOne(r1, f1, strict);
    ReportOne(r2, f2, strict);
    ReportOne(r3, f3, strict);
  }

  lemma ReadReports(top: Top, doc: Doc)
    ensures OnlyStrict(ReadFindings(top, doc)) == []
    ensures Errors(ReadFindings(top, doc), false) ==
            (if doc.error != "" then [FrontmatterError(doc.error)] else [])
                + (if top.NotAMapping? then [MustBeMapping] else [])
  {
    ThreeReports(
        doc.error != "", Finding(FrontmatterError(doc.error), Always),
        doc.raw == "", Finding(MissingFrontmatter, Advice),
        top.NotAMapping?, Finding(MustBeMapping, Always), false);
  }

  lemma OnlyUnknown(top: Top, doc: Doc)
    ensures OnlyStrict(Findings(top, doc)) == if HasUnknown(Fields(top)) then [UnknownFields] else []
    ensures Errors(Findings(top, doc), false) ==
            (if doc.error != "" then [FrontmatterError(doc.error)] else [])
                + (if top.NotAMapping? then [MustBeMapping] else [])
  {
    hide ReadFindings, FieldFindings, Errors, Warnings, OnlyStrict, If, HasUnknown;
    var m := Fields(top);
    var read, unknown, rest := ReadFindings(top, doc), UnknownFindings(m), FieldFindings(m, doc);
    ReportsAdd(read, unknown, false);
    ReportsAdd(read + unknown, rest, false);
    FieldFindingsAreMilder(m, doc);
    MilderReports(rest);
    ReadReports(top, doc);
    ReportOne(HasUnknown(m), Finding(UnknownFields, StrictAdvice), false);
  }

  /** Under lax only a frontmatter that could not be read is an error. */
  lemma LaxOk(top: Top, doc: Doc, url: string)
    ensures Assess(top, doc, url, false).ok <==> doc.error == "" && top.Mapped?
  {
    OnlyUnknown(top, doc);
  }

  // ---------------------------------------------------------------- normalisation settles

  lemma {:induction false} DeduplicatedKeeps(items: seq<string>)
    ensures forall i, j | 0 <= i < j < |Deduplicated(items)| :: Deduplicated(items)[i] != Deduplicated(items)[j]
    ensures forall x :: x in Deduplicated(items) <==> x in items
  {
    if items == [] {
    } else {
      DeduplicatedKeeps(items[..|items| - 1]);
      assert items == items[..|items| - 1] + [items[|items| - 1]];
    }
  }

  lemma {:induction false} DeduplicatedStable(items: seq<string>)
    requires Distinct(items)
    ensures Deduplicated(items) == items
  {
    if items == [] {
    } else {
      DeduplicatedStable(items[..|items| - 1]);
      assert items == items[..|items| - 1] + [items[|items| - 1]];
    }
  }

  /** Non-blank, and stripped already. */
  predicate Settled(items: seq<string>) { forall x | x in items :: x != "" && Strip(x) == x }

  lemma {:induction false} CommaItemsSettled(parts: seq<string>)
    ensures Settled(CommaItems(parts))
  {
    if parts == [] {
    } else {
      CommaItemsSettled(parts[..|parts| - 1]);
      var p := parts[|parts| - 1];
      StripTrims(p);
      StripTrims(Strip(p));
    }
  }

  lemma {:induction false} LeadingStringsSettled(items: seq<Value>)
    ensures Settled(LeadingStrings(items))
  {
    if items == [] || AsStr(items[0]).None? {
    } else {
      LeadingStringsSettled(items[1..]);
      StripTrims(items[0].s);
      StripTrims(Strip(items[0].s));
    }
  }

  lemma {:induction false} LeadingStringsBack(items: seq<string>)
    requires Settled(items)
    ensures LeadingStrings(Strings(items)) == items
  {
    if items == [] {
    } else {
      assert items[0] in items;
      assert Strings(items)[1..] == Strings(items[1..]);
      forall x | x in items[1..] ensures x != "" && Strip(x) == x { assert x in items; }
      LeadingStringsBack(items[1..]);
      assert items == [items[0]] + items[1..];
    }
  }

  lemma SettledToolsStable(tools: seq<string>)
    requires Settled(tools) && Distinct(tools)
    ensures ToolList(List(Strings(tools))) == Some(List(Strings(tools)))
  {
    LeadingStringsBack(tools);
    DeduplicatedStable(tools);
  }

  lemma ToolItemsSettled(v: Value)
    ensures Settled(ToolItems(v))
  {
    if v.Str? { CommaItemsSettled(Split(v.s, ',')); }
    if v.List? { LeadingStringsSettled(v.items); }
  }

  /** A normalised tool list is normalised already. */
  lemma ToolListStable(v: Value)
    ensures ToolList(v).Some? ==> ToolList(ToolList(v).value) == ToolList(v)
  {
    if v.Str? || v.List? {
      var tools := Deduplicated(ToolItems(v));
      ToolItemsSettled(v);
      DeduplicatedKeeps(ToolItems(v));
      SettledToolsStable(tools);
      assert ToolList(v).value == List(Strings(tools));
    }
  }

  lemma FieldStable(m: Mapping, f: Field)
    requires f in NORMAL_FIELDS && NormalizedField(m, f).Some?
    ensures NormalizedField(Normalized(m), f) == NormalizedField(m, f)
  {
    var n := Normalized(m);
    assert f in n && n[f] == NormalizedField(m, f).value;
    StrippedIsStable(Get(m, f));
    if f == AllowedTools { ToolListStable(Get(m, f)); }
  }

  lemma FieldAbsent(m: Mapping, f: Field)
    requires f in NORMAL_FIELDS && NormalizedField(m, f).None?
    ensures f !in Normalized(m)
    ensures NormalizedField(Normalized(m), f) ==
            if f == DisableModelInvocation then Some(Bool(false))
            else if f == UserInvocable then Some(Bool(true))
            else None
  {
    assert f !in Normalized(m);
  }

  /** Normalising twice settles: a third pass changes nothing. */
  lemma NormalizationSettles(m: Mapping)
    ensures Normalized(Normalized(Normalized(m))) == Normalized(Normalized(m))
  {
    var n := Normalized(m);
    var nn := Normalized(n);
    forall f | f in NORMAL_FIELDS
      ensures NormalizedField(nn, f) == NormalizedField(n, f)
    {
      if NormalizedField(n, f).Some? {
        FieldStable(n, f);
      } else {
        if NormalizedField(m, f).Some? { FieldStable(m, f); } else { FieldAbsent(m, f); }
        FieldAbsent(n, f);
      }
    }
    SameFieldsSameMap(nn, n);
  }

  /** One pass is enough exactly when both boolean fields are absent or readable as booleans. */
  lemma OnePassSettles(m: Mapping)
    ensures Normalized(Normalized(m)) == Normalized(m) <==>
            !BadBool(m, DisableModelInvocation) && !BadBool(m, UserInvocable)
  {
    var n := Normalized(m);
    if BadBool(m, DisableModelInvocation) {
      BadBoolAppears(m, DisableModelInvocation);
    } else if BadBool(m, UserInvocable) {
      BadBoolAppears(m, UserInvocable);
    } else {
      forall f | f in NORMAL_FIELDS ensures NormalizedField(n, f) == NormalizedField(m, f) {
        if NormalizedField(m, f).Some? { FieldStable(m, f); } else { FieldAbsent(m, f); }
      }
      SameFieldsSameMap(n, m);
    }
  }

  /** Strict normalises as lax does, and lists every unknown field once, by name and in order. */
  lemma StrictNormalizesAlike(top: Top, doc: Doc, url: string)
    ensures var m, strict, lax :=
            Fields(top), Assess(top, doc, url, true).normalized, Assess(top, doc, url, false).normalized;
            && strict - {UNKNOWN_FIELDS} == lax == Normalized(m)
            && (UNKNOWN_FIELDS in strict <==> HasUnknown(m))
            && (HasUnknown(m) ==> exists names :: strict[UNKNOWN_FIELDS] == List(Strings(names)) && Listed(names, m))
  {
    var m := Fields(top);
    assert UNKNOWN_FIELDS !in Normalized(m);
    assert Listed(InOrder(UnknownNames(m)), m);
    assert (Normalized(m) + UnknownEntry(m, true)) - {UNKNOWN_FIELDS} == Normalized(m);
    assert Normalized(m) + UnknownEntry(m, false) == Normalized(m);
  }

  /** The names of exactly the unknown fields, sorted and without repetition. */
  predicate Listed(names: seq<string>, m: Mapping) {
    Elements(names) == UnknownNames(m) && Sorted(names, StringLe) && Distinct(names)
  }

  lemma BadBoolAppears(m: Mapping, f: Field)
    requires BadBool(m, f) && (f == DisableModelInvocation || f == UserInvocable)
    ensures f !in Normalized(m) && f in Normalized(Normalized(m))
  {
    FieldAbsent(m, f);
  }

  lemma SameFieldsSameMap(a: Mapping, b: Mapping)
    requires forall f | f in NORMAL_FIELDS :: NormalizedField(a, f) == NormalizedField(b, f)
    ensures Normalized(a) == Normalized(b)
  {
  }

  // ---------------------------------------------------------------- the validator as the source runs it

  lemma {:induction false} LeadingStringsAll(items: seq<Value>)
    ensures AllStrings(items) <==> |LeadingStrings(items)| == |items|
    ensures |LeadingStrings(items)| <= |items|
  {
    if items == [] {
    } else {
      LeadingStringsAll(items[1..]);
      assert items == [items[0]] + items[1..];
    }
  }

  /** De-duplication in the order of first occurrence. */
  method DropRepeats(items: seq<string>) returns (distinct: seq<string>)
    ensures distinct == Deduplicated(items)
  {
    var seen: set<string> := {};
    distinct := [];
    for i := 0 to |items|
      invariant distinct == Deduplicated(items[..i]) && seen == set x | x in distinct
    {
      assert items[..i + 1][..i] == items[..i];
      if items[i] !in seen {
        seen := seen + {items[i]};
        distinct := distinct + [items[i]];
      }
    }
    assert items[..|items|] == items;
  }

  method StringItems(s: string) returns (items: seq<string>)
    ensures items == CommaItems(Split(s, ','))
  {
    var parts := Split(s, ',');
    items := [];
    for i := 0 to |parts|
      invariant items == CommaItems(parts[..i])
    {
      assert parts[..i + 1][..i] == parts[..i];
      var p := Strip(parts[i]);
      if p != "" { items := items + [p]; }
    }
    assert parts[..|parts|] == parts;
  }

  method ListItems(values: seq<Value>) returns (items: seq<string>, clean: bool)
    ensures items == LeadingStrings(values) && clean == AllStrings(values)
  {
    items := [];
    LeadingStringsAll(values);
    for i := 0 to |values|
      invariant items + LeadingStrings(values[i..]) == LeadingStrings(values) && |items| == i
    {
      assert values[i..][1..] == values[i + 1..];
      if AsStr(values[i]).None? {
        return items, false;
      }
      items := items + [AsStr(values[i]).value];
    }
    clean := true;
  }

  method NormalizeAllowedTools(v: Value) returns (tools: Option<seq<string>>, errors: seq<Code>, warnings: seq<Code>)
    ensures tools == NormalizedTools(v)
    ensures errors == Errors(ToolFindings(v), true)
    ensures warnings == Warnings(ToolFindings(v), true)
  {
    ToolReports(v);
    if v.Null? { return None, [], []; }
    var items: seq<string>;
    errors, warnings := [], [];
    if v.Str? {
      items := StringItems(v.s);
    } else if v.List? {
      var clean;
      items, clean := ListItems(v.items);
      if !clean { errors := [ToolsListMustContainStrings]; }
    } else {
      return None, [ToolsMustBeStringOrList], [];
    }
    if items == [] { return Some([]), errors, [ToolsEmpty]; }
    var distinct := DropRepeats(items);
    tools := Some(distinct);
  }

  /** What three checks in a row come to when graded findings are errors, and when they are warnings. */
  lemma ToolReportsOf(noString: bool, noList: bool, empty: bool, strict: bool)
    ensures var fs := If(noString, Finding(ToolsListMustContainStrings, Graded))
                      + If(noList, Finding(ToolsMustBeStringOrList, Graded)) + If(empty, Finding(ToolsEmpty, Advice));
            var graded :=
                (if noString then [ToolsListMustContainStrings] else [])
                    + (if noList then [ToolsMustBeStringOrList] else []);
            var advice := if empty then [ToolsEmpty] else [];
            && Errors(fs, strict) == (if strict then graded else [])
            && Warnings(fs, strict) == (if strict then advice else graded + advice)
  {
    ThreeReports(
        noString, Finding(ToolsListMustContainStrings, Graded),
        noList, Finding(ToolsMustBeStringOrList, Graded),
        empty, Finding(ToolsEmpty, Advice), strict);
  }

  /** What the tool findings come to when graded findings are errors. */
  lemma ToolReports(v: Value)
    ensures Errors(ToolFindings(v), true) ==
            if v.List? && !AllStrings(v.items) then [ToolsListMustContainStrings]
            else if !v.Null? && !v.Str? && !v.List? then [ToolsMustBeStringOrList] else []
    ensures Warnings(ToolFindings(v), true) == if (v.Str? || v.List?) && ToolItems(v) == [] then [ToolsEmpty] else []
  {
    ToolReportsOf(v.List? && !AllStrings(v.items), !v.Null? && !v.Str? && !v.List?,
        (v.Str? || v.List?) && ToolItems(v) == [], true);
  }

  /** Under lax the tool errors and then the tool warnings go to the warnings. */
  lemma ToolReportsLax(v: Value)
    ensures Errors(ToolFindings(v), false) == []
    ensures Warnings(ToolFindings(v), false) == Errors(ToolFindings(v), true) + Warnings(ToolFindings(v), true)
  {
    var r1, r2, r3 :=
        v.List? && !AllStrings(v.items), !v.Null? && !v.Str? && !v.List?, (v.Str? || v.List?) && ToolItems(v) == [];
    ToolReportsOf(r1, r2, r3, true);
    ToolReportsOf(r1, r2, r3, false);
  }

  /** One check: append its code to the list its grade and the profile choose. */
  method Report(
      raised: bool, f: Finding, strict: bool, ghost fs: seq<Finding>, errors0: seq<Code>, warnings0: seq<Code>)
    returns (errors: seq<Code>, warnings: seq<Code>)
    requires errors0 == Errors(fs, strict) && warnings0 == Warnings(fs, strict)
    ensures errors == Errors(fs + If(raised, f), strict) && warnings == Warnings(fs + If(raised, f), strict)
  {
    ReportsAdd(fs, If(raised, f), strict);
    ReportOne(raised, f, strict);
    errors, warnings := errors0, warnings0;
    if raised {
      if IsError(f, strict) { errors := errors + [f.code]; }
      if IsWarning(f, strict) { warnings := warnings + [f.code]; }
    }
  }

  function NormalizedOn(m: Mapping, fields: set<Field>): Mapping {
    map f | f in fields && NormalizedField(m, f).Some? :: NormalizedField(m, f).value
  }

  method Keep(normalized0: Mapping, m: Mapping, f: Field, ghost done: set<Field>) returns (normalized: Mapping)
    requires normalized0 == NormalizedOn(m, done)
    ensures normalized == NormalizedOn(m, done + {f})
  {
    normalized := normalized0;
    var v := NormalizedField(m, f);
    if v.Some? { normalized := normalized[f := v.value]; }
  }

  method NormalizeFields(m: Mapping) returns (normalized: Mapping)
    ensures normalized == Normalized(m)
  {
    hide NormalizedField;
    ghost var done: set<Field> := {};
    normalized := map[];
    normalized := Keep(normalized, m, ArgumentHint, done);
    done := done + {ArgumentHint};
    normalized := Keep(normalized, m, DisableModelInvocation, done);
    done := done + {DisableModelInvocation};
    normalized := Keep(normalized, m, UserInvocable, done);
    done := done + {UserInvocable};
    normalized := Keep(normalized, m, AllowedTools, done);
    done := done + {AllowedTools};
    normalized := Keep(normalized, m, Model, done);
    done := done + {Model};
    normalized := Keep(normalized, m, Context, done);
    done := done + {Context};
    normalized := Keep(normalized, m, Agent, done);
    done := done + {Agent};
    normalized := Keep(normalized, m, Hooks, done);
    assert done + {Hooks} == NORMAL_FIELDS;
  }

  lemma GradedAppended(fs: seq<Finding>, more: seq<Finding>, strict: bool)
    requires Errors(more, false) == [] && Warnings(more, false) == Errors(more, true) + Warnings(more, true)
    ensures Errors(fs + more, strict) == if strict then Errors(fs, strict) + Errors(more, true) else Errors(fs, strict)
    ensures Warnings(fs + more, strict) ==
            (if strict then Warnings(fs, strict) else Warnings(fs, strict) + Errors(more, true)) + Warnings(more, true)
  {
    ReportsAdd(fs, more, strict);
  }

  method ReportTools(v: Value, strict: bool, ghost fs: seq<Finding>, errors0: seq<Code>, warnings0: seq<Code>)
    returns (errors: seq<Code>, warnings: seq<Code>)
    requires errors0 == Errors(fs, strict) && warnings0 == Warnings(fs, strict)
    ensures errors == Errors(fs + ToolFindings(v), strict) && warnings == Warnings(fs + ToolFindings(v), strict)
  {
    var _, toolErrors, toolWarnings := NormalizeAllowedTools(v);
    ToolReportsLax(v);
    GradedAppended(fs, ToolFindings(v), strict);
    errors, warnings := errors0, warnings0;
    if strict { errors := errors + toolErrors; } else { warnings := warnings + toolErrors; }
    warnings := warnings + toolWarnings;
  }

  lemma TwoAppended(fs: seq<Finding>, a: seq<Finding>, b: seq<Finding>)
    ensures fs + a + b == fs + (a + b)
  {
  }

  lemma ThreeAppended(fs: seq<Finding>, a: seq<Finding>, b: seq<Finding>, c: seq<Finding>)
    ensures fs + a + b + c == fs + (a + b + c)
  {
  }

  method ReportText(
      m: Mapping, doc: Doc, strict: bool, ghost fs: seq<Finding>, errors0: seq<Code>, warnings0: seq<Code>)
    returns (errors: seq<Code>, warnings: seq<Code>)
    requires errors0 == Errors(fs, strict) && warnings0 == Warnings(fs, strict)
    ensures errors == Errors(fs + TextFindings(m, doc), strict)
            && warnings == Warnings(fs + TextFindings(m, doc), strict)
  {
    ghost var a :=
        If(AsStr(Get(m, Name)).Some? && !NameFormat(AsStr(Get(m, Name)).value), Finding(InvalidNameFormat, Graded));
    ghost var b :=
        If(AsStr(Get(m, Description)).None? && DerivedDescription(m, doc).Some?, Finding(BodyFallback, Advice));
    ghost var c := If(DerivedDescription(m, doc).None?, Finding(MissingDescription, Advice));
    errors, warnings := Report(AsStr(Get(m, Name)).Some? && !NameFormat(AsStr(Get(m, Name)).value),
                               Finding(InvalidNameFormat, Graded), strict, fs, errors0, warnings0);
    errors, warnings := Report(AsStr(Get(m, Description)).None? && DerivedDescription(m, doc).Some?,
                               Finding(BodyFallback, Advice), strict, fs + a, errors, warnings);
    errors, warnings := Report(DerivedDescription(m, doc).None?,
                               Finding(MissingDescription, Advice), strict, fs + a + b, errors, warnings);
    ThreeAppended(fs, a, b, c);
  }

  method ReportBools(m: Mapping, strict: bool, ghost fs: seq<Finding>, errors0: seq<Code>, warnings0: seq<Code>)
    returns (errors: seq<Code>, warnings: seq<Code>)
    requires errors0 == Errors(fs, strict) && warnings0 == Warnings(fs, strict)
    ensures errors == Errors(fs + BoolFindings(m), strict) && warnings == Warnings(fs + BoolFindings(m), strict)
  {
    ghost var a := If(BadBool(m, DisableModelInvocation), Finding(MustBeBool(DisableModelInvocation), Graded));
    ghost var b := If(BadBool(m, UserInvocable), Finding(MustBeBool(UserInvocable), Graded));
    errors, warnings := Report(BadBool(m, DisableModelInvocation),
                               Finding(MustBeBool(DisableModelInvocation), Graded), strict, fs, errors0, warnings0);
    errors, warnings := Report(BadBool(m, UserInvocable),
                               Finding(MustBeBool(UserInvocable), Graded), strict, fs + a, errors, warnings);
    TwoAppended(fs, a, b);
  }

  method ReportAgent(m: Mapping, strict: bool, ghost fs: seq<Finding>, errors0: seq<Code>, warnings0: seq<Code>)
    returns (errors: seq<Code>, warnings: seq<Code>)
    requires errors0 == Errors(fs, strict) && warnings0 == Warnings(fs, strict)
    ensures errors == Errors(fs + AgentFindings(m), strict) && warnings == Warnings(fs + AgentFindings(m), strict)
  {
    ghost var a := If(AsStr(Get(m, Context)).Some? && !Forked(m), Finding(ContextMustBeFork, Graded));
    ghost var b := If(AsStr(Get(m, Agent)).Some? && !Forked(m), Finding(AgentRequiresFork, Advice));
    errors, warnings := Report(AsStr(Get(m, Context)).Some? && !Forked(m),
                               Finding(ContextMustBeFork, Graded), strict, fs, errors0, warnings0);
    errors, warnings := Report(AsStr(Get(m, Agent)).Some? && !Forked(m),
                               Finding(AgentRequiresFork, Advice), strict, fs + a, errors, warnings);
    TwoAppended(fs, a, b);
  }

  method ReportHooksAndSize(
      m: Mapping, doc: Doc, strict: bool, ghost fs: seq<Finding>, errors0: seq<Code>, warnings0: seq<Code>)
    returns (errors: seq<Code>, warnings: seq<Code>)
    requires errors0 == Errors(fs, strict) && warnings0 == Warnings(fs, strict)
    ensures errors == Errors(fs + HookAndSizeFindings(m, doc), strict)
            && warnings == Warnings(fs + HookAndSizeFindings(m, doc), strict)
  {
    ghost var a := If(!Get(m, Hooks).Null? && !Get(m, Hooks).Dict?, Finding(HooksMustBeMapping, Graded));
    ghost var b := If(|doc.lines| > 500, Finding(BodyTooLong, Advice));
    errors, warnings := Report(!Get(m, Hooks).Null? && !Get(m, Hooks).Dict?,
                               Finding(HooksMustBeMapping, Graded), strict, fs, errors0, warnings0);
    errors, warnings := Report(|doc.lines| > 500, Finding(BodyTooLong, Advice), strict, fs + a, errors, warnings);
    TwoAppended(fs, a, b);
  }

  lemma FiveAppended(
      fs: seq<Finding>, a: seq<Finding>, b: seq<Finding>, c: seq<Finding>, d: seq<Finding>, e: seq<Finding>)
    ensures fs + a + b + c + d + e == fs + (a + b + c + d + e)
  {
    assert fs + a + b == fs + (a + b);
    assert fs + a + b + c == fs + (a + b + c);
    assert fs + a + b + c + d == fs + (a + b + c + d);
  }

  method ReportFields(
      m: Mapping, doc: Doc, strict: bool, ghost fs: seq<Finding>, errors0: seq<Code>, warnings0: seq<Code>)
    returns (errors: seq<Code>, warnings: seq<Code>)
    requires errors0 == Errors(fs, strict) && warnings0 == Warnings(fs, strict)
    ensures errors == Errors(fs + FieldFindings(m, doc), strict)
            && warnings == Warnings(fs + FieldFindings(m, doc), strict)
  {
    var tools := Get(m, AllowedTools);
    errors, warnings := ReportText(m, doc, strict, fs, errors0, warnings0);
    ghost var text := fs + TextFindings(m, doc);
    errors, warnings := ReportBools(m, strict, text, errors, warnings);
    ghost var bools := text + BoolFindings(m);
    errors, warnings := ReportTools(tools, strict, bools, errors, warnings);
    ghost var tooled := bools + ToolFindings(tools);
    errors, warnings := ReportAgent(m, strict, tooled, errors, warnings);
    errors, warnings := ReportHooksAndSize(m, doc, strict, tooled + AgentFindings(m), errors, warnings);
    FiveAppended(fs, TextFindings(m, doc), BoolFindings(m), ToolFindings(tools), AgentFindings(m),
        HookAndSizeFindings(m, doc));
  }

  /** Strict lists the unknown fields. */
  method ListUnknown(normalized0: Mapping, m: Mapping, strict: bool) returns (normalized: Mapping)
    requires normalized0 == Normalized(m)
    ensures normalized == Normalized(m) + UnknownEntry(m, strict)
  {
    hide NormalizedField;
    normalized := normalized0;
    if HasUnknown(m) && strict {
      var names := SortedElements(UnknownNames(m));
      OrderIsUnique(names, InOrder(UnknownNames(m)));
      normalized := normalized[UNKNOWN_FIELDS := List(Strings(names))];
    }
  }

  /** The validation: errors and warnings appended check by check, the normalised mapping filled field by field. */
  method ValidateFrontmatter(top: Top, doc: Doc, url: string, profile: string) returns (spec: Spec)
    ensures spec == Assess(top, doc, url, IsStrict(profile))
  {
    hide Normalized, UnknownEntry, FieldFindings;
    var strict := IsStrict(profile);
    var m := Fields(top);
    ghost var fs: seq<Finding> := [];
    var errors, warnings := Report(doc.error != "", Finding(FrontmatterError(doc.error), Always), strict, fs, [], []);
    fs := fs + If(doc.error != "", Finding(FrontmatterError(doc.error), Always));
    errors, warnings := Report(doc.raw == "", Finding(MissingFrontmatter, Advice), strict, fs, errors, warnings);
    fs := fs + If(doc.raw == "", Finding(MissingFrontmatter, Advice));
    errors, warnings := Report(top.NotAMapping?, Finding(MustBeMapping, Always), strict, fs, errors, warnings);
    fs := fs + If(top.NotAMapping?, Finding(MustBeMapping, Always));
    assert fs == ReadFindings(top, doc);
    var unknown := HasUnknown(m);
    errors, warnings := Report(unknown, Finding(UnknownFields, StrictAdvice), strict, fs, errors, warnings);
    fs := fs + If(unknown, Finding(UnknownFields, StrictAdvice));
    errors, warnings := ReportFields(m, doc, strict, fs, errors, warnings);
    var normalized := NormalizeFields(m);
    normalized := ListUnknown(normalized, m, strict);
    var name := AsStr(Get(m, Name));
    spec := Spec(errors == [], errors, warnings, normalized,
                 if name.Some? then name else NameFromUrl(url), DerivedDescription(m, doc));
  }
}
