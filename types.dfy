/**
 * The shared records of the application (src/types/index.ts) and the
 * `AI_MODELS` configuration table. JSON-borne enumerations (`model`,
 * `action`) are kept as strings, since the request handlers receive whatever
 * the client sent; the declared unions are the constants below.
 */
module Types {
  import opened Wrappers

  /** The values `ProcessingOptions.model` is declared to take, in declaration order. */
  const MODEL_IDS: seq<string> :=
    ["gemini-2.0-flash-exp", "gemini-1.5-flash-latest", "gemini-1.5-flash", "openai", "claude"]

  /** The three Gemini variants among them. */
  const GEMINI_IDS: seq<string> := MODEL_IDS[..3]

  /** The values `ProcessingOptions.action` is declared to take. */
  const ACTIONS: seq<string> := ["summarize", "expand", "validate"]

  datatype InputKind = Url | Text

  datatype ContentInput = ContentInput(kind: InputKind, content: string)

  datatype ProcessingOptions = ProcessingOptions(
    model: string,
    action: string,
    includeOriginal: bool,
    generateCitations: bool)
  {
    /** The options satisfy their declared TypeScript type. */
    predicate WellTyped() {
      model in MODEL_IDS && action in ACTIONS
    }
  }

  datatype Metadata = Metadata(description: Option<string>, image: Option<string>, siteName: Option<string>)

  datatype ExtractedContent = ExtractedContent(
    title: string,
    author: Option<string>,
    publishedDate: Option<string>,
    content: string,
    url: Option<string>,
    metadata: Option<Metadata>)

  datatype Citation = Citation(
    id: string,
    title: string,
    url: Option<string>,
    author: Option<string>,
    publishedDate: Option<string>,
    description: Option<string>)

  /** An outline entry; `children` is optional, as in the declared interface. */
  datatype TOCItem = TOCItem(id: string, title: string, level: int, children: Children)

  /** `children?: TOCItem[]`: absent, or a (possibly empty) list. */
  datatype Children = NoChildren | Children(items: seq<TOCItem>)

  datatype EnhancedContent = EnhancedContent(
    original: ExtractedContent,
    enhanced: string,
    action: string,
    model: string,
    citations: Option<seq<Citation>>,
    tableOfContents: Option<seq<TOCItem>>)

  /** Render options as received; an absent field is `None`. */
  datatype PdfOptions = PdfOptions(
    includeTableOfContents: Option<bool>,
    includeCitations: Option<bool>,
    includeOriginal: Option<bool>)

  datatype PdfGenerationRequest = PdfGenerationRequest(content: Option<EnhancedContent>, options: Option<PdfOptions>)

  /** The uniform response envelope `{ success, data?, error? }`. */
  datatype ApiResponse<T> = Success(data: T) | Failure(error: string)

  /** What a `catch` receives: an `Error` with its message, or any other thrown value. */
  datatype Thrown = ErrorObject(message: string) | NotAnError

  /** `error instanceof Error ? error.message : fallback` */
  function MessageOr(t: Thrown, fallback: string): (m: string)
    ensures t.ErrorObject? ==> m == t.message
    ensures t.NotAnError? ==> m == fallback
  {
    match t
    case ErrorObject(message) => message
    case NotAnError => fallback
  }

  /** An awaited call either returns or throws. */
  datatype Outcome<T> = Returned(value: T) | Raised(thrown: Thrown)

  datatype Provider = GeminiProvider | OpenAIProvider | ClaudeProvider

  datatype ModelConfig = ModelConfig(
    name: string,
    provider: Provider,
    model: string,
    maxTokens: nat,
    isDefault: Option<bool>,
    requiresApiKey: Option<bool>,
    description: Option<string>)

  const AI_MODELS: map<string, ModelConfig> := map[
    "gemini-2.0-flash-exp" := ModelConfig(
      "Gemini 2.0 Flash (Experimental)", GeminiProvider, "gemini-2.0-flash-exp", 8192, Some(true), Some(false),
      Some("Latest experimental Gemini model with enhanced capabilities (free)")),
    "gemini-1.5-flash-latest" := ModelConfig(
      "Gemini 1.5 Flash (Latest)", GeminiProvider, "gemini-1.5-flash-latest", 8192, None, Some(false),
      Some("Latest Gemini 1.5 Flash with most recent updates (free)")),
    "gemini-1.5-flash" := ModelConfig(
      "Gemini 1.5 Flash", GeminiProvider, "gemini-1.5-flash", 8192, None, Some(false),
      Some("Fast, reliable Gemini model for most use cases (free)")),
    "gpt-4" := ModelConfig(
      "GPT-4 Turbo", OpenAIProvider, "gpt-4-turbo-preview", 4096, None, Some(true),
      Some("Premium OpenAI model (requires API key)")),
    "claude-3" := ModelConfig(
      "Claude 3 Sonnet", ClaudeProvider, "claude-3-sonnet-20240229", 4096, None, Some(true),
      Some("Premium Anthropic model (requires API key)"))
  ]

  /** The declared model ids are five distinct strings, and the actions three. */
  lemma DeclaredUnions()
    ensures |MODEL_IDS| == 5 && forall i, j :: 0 <= i < j < 5 ==> MODEL_IDS[i] != MODEL_IDS[j]
    ensures |ACTIONS| == 3 && forall i, j :: 0 <= i < j < 3 ==> ACTIONS[i] != ACTIONS[j]
  {
  }

  /** Exactly one table entry is marked default: the experimental Gemini 2.0 model. */
  lemma ExactlyOneDefault()
    ensures forall k :: k in AI_MODELS ==> (AI_MODELS[k].isDefault == Some(true) <==> k == "gemini-2.0-flash-exp")
  {
  }

  /** Every Gemini entry names itself as its model, allows 8192 tokens and needs no key. */
  lemma GeminiEntries()
    ensures forall k :: k in AI_MODELS && AI_MODELS[k].provider == GeminiProvider ==>
      AI_MODELS[k].model == k && AI_MODELS[k].maxTokens == 8192 && AI_MODELS[k].requiresApiKey == Some(false)
    ensures forall k :: k in GEMINI_IDS ==> k in AI_MODELS && AI_MODELS[k].provider == GeminiProvider
  {
  }

  /** The two premium entries allow 4096 tokens and need a key. */
  lemma PremiumEntries()
    ensures "gpt-4" in AI_MODELS && AI_MODELS["gpt-4"].provider == OpenAIProvider
    ensures "claude-3" in AI_MODELS && AI_MODELS["claude-3"].provider == ClaudeProvider
    ensures forall k :: k in AI_MODELS && AI_MODELS[k].provider != GeminiProvider ==>
      AI_MODELS[k].maxTokens == 4096 && AI_MODELS[k].requiresApiKey == Some(true)
  {
  }

  /** The option ids `openai` and `claude` are not keys of the table, so looking them up finds nothing. */
  lemma OptionIdsMissFromTable()
    ensures "openai" in MODEL_IDS && "openai" !in AI_MODELS
    ensures "claude" in MODEL_IDS && "claude" !in AI_MODELS
    ensures forall k :: k in AI_MODELS ==> (k in MODEL_IDS <==> AI_MODELS[k].provider == GeminiProvider)
  {
  }
}
