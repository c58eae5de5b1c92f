/**
 * The Gemini request types (src/types/gemini.rs) and the request shape the
 * automations build: roles, parts, the generation config and its default,
 * and the names these take on the wire.
 */
module GeminiTypes {
  import opened Wrappers

  datatype Role = User | Model

  datatype Part = Part(text: string)

  datatype ResponseMimeType = Text | Json

  /** `temperature` is an `f32` in the source; here the exact decimal. */
  datatype GenerationConfig = GenerationConfig(temperature: real, response_mime_type: ResponseMimeType)

  /** `GeminiAPIPromptContent` (and the automations' `GeminiAPIChatContent`): one turn. */
  datatype PromptContent = PromptContent(role: Option<Role>, parts: seq<Part>)

  /** `GeminiAPIPrompt` as src/types/gemini.rs declares it: the system instruction is a string. */
  datatype Prompt = Prompt(contents: seq<PromptContent>, system_instruction: Option<string>, generation_config: Option<GenerationConfig>)

  /** `GeminiAPIPrompt` as the automations build it: the system instruction is a turn. */
  datatype ChatPrompt = ChatPrompt(contents: seq<PromptContent>, system_instruction: Option<PromptContent>, generation_config: Option<GenerationConfig>)

  /** The model a generation call asks for. */
  datatype GeminiModel = Gemini3Flash | Gemini3Pro

  /** `ResponseMimeType::default()`. */
  function DefaultMimeType(): ResponseMimeType
  {
    Text
  }

  /** `GenerationConfig::default()`: temperature 0.8 and a JSON response. */
  function DefaultConfig(): (c: GenerationConfig)
    ensures c.response_mime_type == Json && c.temperature == 0.8
  {
    GenerationConfig(0.8, Json)
  }

  /** The config's default asks for JSON, unlike the mime type's own default. */
  lemma DefaultsDiffer()
    ensures DefaultConfig().response_mime_type != DefaultMimeType()
  {
  }

  /** One turn of role `User` holding `parts`. */
  function UserTurn(parts: seq<Part>): (t: PromptContent)
    ensures t.role == Some(User) && t.parts == parts
  {
    PromptContent(Some(User), parts)
  }

  /** The texts of a turn's parts, in order. */
  function Texts(parts: seq<Part>): (r: seq<string>)
    ensures |r| == |parts| && forall i :: 0 <= i < |parts| ==> r[i] == parts[i].text
  {
    seq(|parts|, i requires 0 <= i < |parts| => parts[i].text)
  }

  /** One part per text, in order. */
  function PartsOf(texts: seq<string>): (r: seq<Part>)
    ensures Texts(r) == texts
  {
    seq(|texts|, i requires 0 <= i < |texts| => Part(texts[i]))
  }

  // ----- wire names -----

  function AsciiLowerChar(c: char): char
  {
    if 'A' <= c <= 'Z' then (c as int + 32) as char else c
  }

  /** `to_ascii_lowercase`: serde's `rename_all = "lowercase"` applied to a variant name. */
  function AsciiLower(s: string): (r: string)
    ensures |r| == |s| && forall i :: 0 <= i < |s| ==> r[i] == AsciiLowerChar(s[i])
  {
    seq(|s|, i requires 0 <= i < |s| => AsciiLowerChar(s[i]))
  }

  /** The fields of `GeminiAPIPrompt` and of `GenerationConfig`. */
  datatype Field = Contents | SystemInstruction | GenerationConfigField | Temperature | ResponseMimeTypeField

  /** The name a field is written with: both structs rename their fields to camelCase. */
  function FieldWireName(f: Field): string
  {
    match f
    case Contents => "contents"
    case SystemInstruction => "systemInstruction"
    case GenerationConfigField => "generationConfig"
    case Temperature => "temperature"
    case ResponseMimeTypeField => "responseMimeType"
  }

  function RoleVariantName(r: Role): string
  {
    match r
    case User => "User"
    case Model => "Model"
  }

  /** How a role is written on the wire. */
  function RoleWireName(r: Role): string
  {
    AsciiLower(RoleVariantName(r))
  }

  /** How a mime type is written on the wire. */
  function MimeWireName(m: ResponseMimeType): string
  {
    match m
    case Text => "text/plain"
    case Json => "application/json"
  }

  /** Role names are the lower-cased variant names, and they tell the roles apart. */
  lemma RoleWireNames()
    ensures RoleWireName(User) == "user" && RoleWireName(Model) == "model"
    ensures forall r1, r2 :: RoleWireName(r1) == RoleWireName(r2) ==> r1 == r2
  {
    assert RoleWireName(User) == "user";
    assert RoleWireName(Model) == "model";
  }

  /** The mime wire names, which tell the two types apart. */
  lemma MimeWireNames()
    ensures MimeWireName(Text) == "text/plain" && MimeWireName(Json) == "application/json"
    ensures forall m1, m2 :: MimeWireName(m1) == MimeWireName(m2) ==> m1 == m2
  {
  }

  /** The renamed field names carry no `_` and tell the fields apart. */
  lemma FieldWireNames()
    ensures forall f :: '_' !in FieldWireName(f)
    ensures forall f1, f2 :: FieldWireName(f1) == FieldWireName(f2) ==> f1 == f2
  {
  }
}
