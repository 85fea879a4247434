/** A parsed SKILL.md: its frontmatter as a mapping of values, and its body as lines
    (what app/parsers/skillmd_parser.py hands on). */
module Frontmatter {
  import opened Basics
  import opened Text

  datatype Value =
    | Null
    | Bool(b: bool)
    | Num(n: real)
    | Str(s: string)
    | List(items: seq<Value>)
    | Dict(fields: map<string, Value>)

  /** The frontmatter fields the validators look at; any other field by its name. */
  datatype Field =
    | Name | Description | Summary | ArgumentHint | DisableModelInvocation | UserInvocable
    | AllowedTools | AllowedToolsUnderscored | Tools | Model | Context | Agent | Hooks
    | Other(name: string)

  type Mapping = map<Field, Value>

  /** `raw` and `error` are empty when the source has None; `multilineDescription` tells whether the
      raw frontmatter has a YAML block indicator after `description:`. */
  datatype Doc = Doc(metadata: Mapping, lines: seq<string>, raw: string, error: string, multilineDescription: bool)

  /** `dict.get`. */
  function Get(m: Mapping, key: Field): Value { if key in m then m[key] else Null }

  /** The stripped text of a non-blank string. */
  function AsStr(v: Value): Option<string> {
    if v.Str? && Strip(v.s) != "" then Some(Strip(v.s)) else None
  }

  function AsBool(v: Value): Option<bool> {
    match v
    case Bool(b) => Some(b)
    case Str(s) =>
      var raw := Lower(Strip(s));
      if raw == "true" || raw == "yes" || raw == "y" || raw == "1" then Some(true)
      else if raw == "false" || raw == "no" || raw == "n" || raw == "0" then Some(false)
      else None
    case Num(n) => if n == 0.0 then Some(false) else if n == 1.0 then Some(true) else None
    case _ => None
  }

  predicate MarkdownConstruct(text: string) {
    "#" <= text || "-" <= text || "*" <= text || "```" <= text || ">" <= text
  }

  /** The first plain-text line. */
  function FirstParagraph(lines: seq<string>): Option<string> {
    if lines == [] then None
    else
      var text := Strip(lines[0]);
      if text == "" || MarkdownConstruct(text) then FirstParagraph(lines[1..]) else Some(text)
  }

  lemma StrippedIsStable(v: Value)
    ensures AsStr(v).Some? ==> AsStr(Str(AsStr(v).value)) == AsStr(v)
  {
    if v.Str? {
      StripTrims(v.s);
      StripTrims(Strip(v.s));
    }
  }
}
