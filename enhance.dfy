/**
 * The enhancement route (src/app/api/enhance/route.ts): the prompt for each
 * action, the dispatch from a model id to one of three provider families,
 * each provider's guards and fallbacks, the citation policy and the
 * assembly of the enhanced record. The providers themselves are inputs: a
 * function from the request the route sends to what the call returned or
 * threw, with a flag per provider saying whether its key is configured.
 */
module Enhance {
  import opened Wrappers
  import opened Strings
  import opened Types
  import opened TableOfContents

  // ---------------------------------------------------------------------------
  // generatePrompt

  const SUMMARIZE_INSTRUCTION := "Please provide a comprehensive summary of the following article. Include the main points, key arguments, and conclusions. Structure your response with clear headings and bullet points where appropriate."
  const EXPAND_INSTRUCTION := "Please expand on the following article by adding more detailed explanations, examples, and context. Enhance the content while maintaining accuracy and providing valuable insights. Use proper markdown formatting with headings and sections."
  const VALIDATE_INTRO := "Please analyze the following article for factual accuracy and provide a detailed validation report. Include:"
  const FACT_CHECKING := "1. Fact-checking of key claims"
  const BIASES := "2. Identification of potential biases or unsupported statements"
  const FURTHER_RESEARCH := "3. Suggestions for additional research or verification"
  const CREDIBILITY := "4. Overall credibility assessment"
  const VALIDATE_FORMAT := "Format your response with clear sections and use markdown formatting."
  const VALIDATE_INSTRUCTION := VALIDATE_INTRO + "\n" + FACT_CHECKING + "\n" + BIASES + "\n" + FURTHER_RESEARCH + "\n" +
    CREDIBILITY + "\n\n" + VALIDATE_FORMAT
  const DEFAULT_INSTRUCTION := "Please analyze and improve the following content:"
  const PARAGRAPH_BREAK := "\n\n"

  /** `Title: ...\nAuthor: ...\nContent: ...`, the author defaulting to `Unknown` when absent or empty. */
  function BaseInfo(content: ExtractedContent): (info: string)
    ensures Present(content.author) ==> info == "Title: " + content.title + "\nAuthor: " + content.author.value + "\nContent: " + content.content
    ensures !Present(content.author) ==> info == "Title: " + content.title + "\nAuthor: Unknown\nContent: " + content.content
  {
    "Title: " + content.title + "\nAuthor: " + OrElse(content.author, "Unknown") + "\nContent: " + content.content
  }

  /** The instruction of each action; an unknown action gets the generic one. */
  function Instruction(action: string): string {
    if action == "summarize" then SUMMARIZE_INSTRUCTION
    else if action == "expand" then EXPAND_INSTRUCTION
    else if action == "validate" then VALIDATE_INSTRUCTION
    else DEFAULT_INSTRUCTION
  }

  /**
   * `generatePrompt`: the action's instruction, a blank line, then the
   * article's title, author and text.
   */
  function GeneratePrompt(content: ExtractedContent, options: ProcessingOptions): (prompt: string)
    ensures StartsWith(prompt, Instruction(options.action) + PARAGRAPH_BREAK)
    ensures EndsWith(prompt, PARAGRAPH_BREAK + BaseInfo(content))
    ensures |prompt| == |Instruction(options.action)| + |PARAGRAPH_BREAK| + |BaseInfo(content)|
  {
    var ins := Instruction(options.action);
    var head := ins + PARAGRAPH_BREAK;
    var base := BaseInfo(content);
    StartsWithPrefix(head, base);
    EndsWithSuffix(ins, PARAGRAPH_BREAK + base);
    ConcatAssoc(ins, PARAGRAPH_BREAK, base);
    head + base
  }

  /** The validation instructions list the four numbered parts of the report. */
  lemma ValidateRequirements()
    ensures Contains(VALIDATE_INSTRUCTION, FACT_CHECKING) && Contains(VALIDATE_INSTRUCTION, BIASES)
    ensures Contains(VALIDATE_INSTRUCTION, FURTHER_RESEARCH) && Contains(VALIDATE_INSTRUCTION, CREDIBILITY)
  {
    var s1 := VALIDATE_INTRO + "\n" + FACT_CHECKING;
    var s2 := s1 + "\n" + BIASES;
    var s3 := s2 + "\n" + FURTHER_RESEARCH;
    var s4 := s3 + "\n" + CREDIBILITY;
    var s5 := s4 + "\n\n";
    assert VALIDATE_INSTRUCTION == s5 + VALIDATE_FORMAT;
    ContainsSuffix(VALIDATE_INTRO + "\n", FACT_CHECKING);
    ContainsSuffix(s1 + "\n", BIASES);
    ContainsSuffix(s2 + "\n", FURTHER_RESEARCH);
    ContainsSuffix(s3 + "\n", CREDIBILITY);
    ContainsExtend(s1, FACT_CHECKING, "\n");
    ContainsExtend(s1 + "\n", FACT_CHECKING, BIASES);
    ContainsExtend(s2, FACT_CHECKING, "\n");
    ContainsExtend(s2, BIASES, "\n");
    ContainsExtend(s2 + "\n", FACT_CHECKING, FURTHER_RESEARCH);
    ContainsExtend(s2 + "\n", BIASES, FURTHER_RESEARCH);
    ContainsExtend(s3, FACT_CHECKING, "\n");
    ContainsExtend(s3, BIASES, "\n");
    ContainsExtend(s3, FURTHER_RESEARCH, "\n");
    ContainsExtend(s3 + "\n", FACT_CHECKING, CREDIBILITY);
    ContainsExtend(s3 + "\n", BIASES, CREDIBILITY);
    ContainsExtend(s3 + "\n", FURTHER_RESEARCH, CREDIBILITY);
    ContainsExtend(s4, FACT_CHECKING, "\n\n");
    ContainsExtend(s4, BIASES, "\n\n");
    ContainsExtend(s4, FURTHER_RESEARCH, "\n\n");
    ContainsExtend(s4, CREDIBILITY, "\n\n");
    ContainsExtend(s5, FACT_CHECKING, VALIDATE_FORMAT);
    ContainsExtend(s5, BIASES, VALIDATE_FORMAT);
    ContainsExtend(s5, FURTHER_RESEARCH, VALIDATE_FORMAT);
    ContainsExtend(s5, CREDIBILITY, VALIDATE_FORMAT);
  }

  /** A prompt for `validate` asks for the four numbered parts of the report. */
  lemma ValidatePromptRequirements(content: ExtractedContent, options: ProcessingOptions)
    requires options.action == "validate"
    ensures var p := GeneratePrompt(content, options);
      Contains(p, FACT_CHECKING) && Contains(p, BIASES) && Contains(p, FURTHER_RESEARCH) && Contains(p, CREDIBILITY)
  {
    var p := GeneratePrompt(content, options);
    var head := VALIDATE_INSTRUCTION + PARAGRAPH_BREAK;
    assert StartsWith(p, head);
    ValidateRequirements();
    ContainsExtend(VALIDATE_INSTRUCTION, FACT_CHECKING, PARAGRAPH_BREAK);
    ContainsExtend(VALIDATE_INSTRUCTION, BIASES, PARAGRAPH_BREAK);
    ContainsExtend(VALIDATE_INSTRUCTION, FURTHER_RESEARCH, PARAGRAPH_BREAK);
    ContainsExtend(VALIDATE_INSTRUCTION, CREDIBILITY, PARAGRAPH_BREAK);
    ContainsInPrefix(p, head, FACT_CHECKING);
    ContainsInPrefix(p, head, BIASES);
    ContainsInPrefix(p, head, FURTHER_RESEARCH);
    ContainsInPrefix(p, head, CREDIBILITY);
  }

  // ---------------------------------------------------------------------------
  // Providers

  /** What the route sends a provider: model, system text, user text, token cap and temperature in tenths. */
  datatype ProviderRequest = ProviderRequest(
    model: string,
    system: Option<string>,
    user: string,
    maxTokens: Option<nat>,
    temperatureTenths: Option<nat>)

  /** The first block of a Claude message: text, another kind, or no block at all. */
  datatype ClaudeBlock = TextBlock(text: string) | OtherBlock | NoBlock

  /** Which keys are configured; the Gemini client is always built, so it needs no flag. */
  datatype Credentials = Credentials(openAI: bool, anthropic: bool)

  /** One provider request the route made. */
  datatype Call = Call(provider: Provider, request: ProviderRequest)

  const SYSTEM_PROMPT := "You are an expert content analyst and writer. Provide high-quality, well-structured responses using markdown formatting. Be thorough, accurate, and professional."
  const NO_RESPONSE := "No response generated"
  const NO_GEMINI_RESPONSE := "No response generated from Gemini"
  const GEMINI_FAILED := "Gemini processing failed: "
  const OPENAI_KEY_MISSING := "OpenAI API key not configured"
  const ANTHROPIC_KEY_MISSING := "Anthropic API key not configured"
  /** What reading `type` of the missing first block throws. */
  const MISSING_BLOCK := "Cannot read properties of undefined (reading 'type')"

  function OpenAIRequest(prompt: string): ProviderRequest {
    ProviderRequest("gpt-4-turbo-preview", Some(SYSTEM_PROMPT), prompt, Some(4096), Some(3))
  }

  function ClaudeRequest(prompt: string): ProviderRequest {
    ProviderRequest("claude-3-sonnet-20240229", Some(SYSTEM_PROMPT), prompt, Some(4096), Some(3))
  }

  /** Gemini gets the system text in front of the prompt and the option's own model id. */
  function GeminiRequest(model: string, prompt: string): ProviderRequest {
    ProviderRequest(model, None, SYSTEM_PROMPT + PARAGRAPH_BREAK + prompt, None, None)
  }

  /**
   * `response.choices[0]?.message?.content || 'No response generated'`, where
   * `reply` is that content (`None` when any link is missing or null). A
   * returned text is never empty.
   */
  function OpenAIText(reply: Outcome<Option<string>>): (r: Outcome<string>)
    ensures reply.Raised? ==> r == Raised(reply.thrown)
    ensures reply.Returned? ==> r.Returned? && r.value != ""
    ensures reply.Returned? && Present(reply.value) ==> r.value == reply.value.value
    ensures reply.Returned? && !Present(reply.value) ==> r.value == NO_RESPONSE
  {
    match reply
    case Raised(t) => Raised(t)
    case Returned(content) => Returned(OrElse(content, NO_RESPONSE))
  }

  /**
   * `content.type === 'text' ? content.text : 'No response generated'` on the
   * first block; an empty text block comes back empty, and a message with no
   * block throws a `TypeError`.
   */
  function ClaudeText(reply: Outcome<ClaudeBlock>): (r: Outcome<string>)
    ensures reply.Raised? ==> r == Raised(reply.thrown)
    ensures reply == Returned(NoBlock) ==> r == Raised(ErrorObject(MISSING_BLOCK))
    ensures reply.Returned? && reply.value.TextBlock? ==> r == Returned(reply.value.text)
    ensures reply == Returned(OtherBlock) ==> r == Returned(NO_RESPONSE)
  {
    match reply
    case Raised(t) => Raised(t)
    case Returned(TextBlock(text)) => Returned(text)
    case Returned(OtherBlock) => Returned(NO_RESPONSE)
    case Returned(NoBlock) => Raised(ErrorObject(MISSING_BLOCK))
  }

  /**
   * `text || 'No response generated from Gemini'`, and any failure rethrown
   * as an `Error` whose message names Gemini. A returned text is never empty.
   */
  function GeminiText(reply: Outcome<string>): (r: Outcome<string>)
    ensures reply.Raised? ==> r.Raised? && r.thrown.ErrorObject? && StartsWith(r.thrown.message, GEMINI_FAILED)
    ensures reply.Raised? ==> r.thrown.message == GEMINI_FAILED + MessageOr(reply.thrown, "Unknown error")
    ensures reply.Returned? ==> r.Returned? && r.value != ""
    ensures reply.Returned? && reply.value != "" ==> r.value == reply.value
  {
    match reply
    case Raised(t) =>
      StartsWithPrefix(GEMINI_FAILED, MessageOr(t, "Unknown error"));
      Raised(ErrorObject(GEMINI_FAILED + MessageOr(t, "Unknown error")))
    case Returned(text) => Returned(if text != "" then text else NO_GEMINI_RESPONSE)
  }

  // ---------------------------------------------------------------------------
  // generateValidationCitations

  const ORIGINAL_SOURCE := "Original source article"

  /** The citation of the source article itself. */
  function SourceCitation(content: ExtractedContent, id: string): (c: Citation)
    ensures c.id == id && c.title == content.title && c.url == content.url && c.author == content.author
    ensures c.publishedDate == content.publishedDate && c.description == Some(ORIGINAL_SOURCE)
  {
    Citation(id, content.title, content.url, content.author, content.publishedDate, Some(ORIGINAL_SOURCE))
  }

  /**
   * `generateValidationCitations`: one citation of the source article when
   * it has a url, none otherwise. `id` stands for the fresh value of
   * `generateCitationId()`.
   */
  method GenerateValidationCitations(content: ExtractedContent, id: string) returns (citations: seq<Citation>)
    ensures |citations| == (if Present(content.url) then 1 else 0)
    ensures forall c :: c in citations ==> c == SourceCitation(content, id)
  {
    citations := [];
    if Present(content.url) {
      citations := citations + [SourceCitation(content, id)];
    }
  }

  // ---------------------------------------------------------------------------
  // POST

  /** The request body: the two fields as parsed (`None` when missing), or what `request.json()` threw. */
  datatype EnhanceBody = Received(content: Option<ExtractedContent>, options: Option<ProcessingOptions>) | Unreadable(thrown: Thrown)

  const FIELDS_REQUIRED := "Content and processing options are required"
  const INVALID_MODEL := "Invalid AI model selected"
  const ENHANCE_FAILED := "Failed to enhance content"

  /** The model ids the `switch` routes to a provider. */
  predicate Routed(model: string) {
    model == "openai" || model == "claude" || model in GEMINI_IDS
  }

  /** The record the route answers with, from the enhanced text and the citations it made. */
  function Assemble(content: ExtractedContent, options: ProcessingOptions, text: string, citations: seq<Citation>): (e: EnhancedContent)
    ensures e.original == content && e.enhanced == text && e.action == options.action && e.model == options.model
    ensures e.citations.Some? <==> |citations| > 0
    ensures e.citations.Some? ==> e.citations.value == citations
    ensures e.tableOfContents.Some? <==> FlatToc(text) != []
    ensures e.tableOfContents.Some? ==> e.tableOfContents.value == Outline(text)
  {
    OutlineEmpty(text);
    var toc := Outline(text);
    EnhancedContent(content, text, options.action, options.model,
      if |citations| > 0 then Some(citations) else None,
      if |toc| > 0 then Some(toc) else None)
  }

  /**
   * The provider requests the `switch` makes for `model`: one for a routed
   * model whose key is configured, none otherwise.
   */
  function Requests(model: string, keys: Credentials, prompt: string): (calls: seq<Call>)
    ensures |calls| <= 1
  {
    if model == "openai" then (if keys.openAI then [Call(OpenAIProvider, OpenAIRequest(prompt))] else [])
    else if model == "claude" then (if keys.anthropic then [Call(ClaudeProvider, ClaudeRequest(prompt))] else [])
    else if model in GEMINI_IDS then [Call(GeminiProvider, GeminiRequest(model, prompt))]
    else []
  }

  /** The error the route answers with when `Requests` makes no call. */
  function Refusal(model: string, keys: Credentials): string {
    if !Routed(model) then INVALID_MODEL
    else if model == "openai" then OPENAI_KEY_MISSING
    else ANTHROPIC_KEY_MISSING
  }

  /** The text a provider call yields, after the provider helper's own fallbacks. */
  function Reply(c: Call, openAI: ProviderRequest -> Outcome<Option<string>>,
                 claude: ProviderRequest -> Outcome<ClaudeBlock>,
                 gemini: ProviderRequest -> Outcome<string>): Outcome<string>
  {
    match c.provider
    case OpenAIProvider => OpenAIText(openAI(c.request))
    case ClaudeProvider => ClaudeText(claude(c.request))
    case GeminiProvider => GeminiText(gemini(c.request))
  }

  /**
   * A call is made exactly when the model is routed and its key (if it
   * needs one) is configured; every model reaches its own provider, and a
   * Gemini model is passed on as the request's model id.
   */
  lemma Routing(model: string, keys: Credentials, prompt: string)
    ensures var calls := Requests(model, keys, prompt);
      (calls != [] <==> Routed(model) && (model == "openai" ==> keys.openAI) && (model == "claude" ==> keys.anthropic)) &&
      (calls != [] ==> (calls[0].provider == OpenAIProvider <==> model == "openai")) &&
      (calls != [] ==> (calls[0].provider == ClaudeProvider <==> model == "claude")) &&
      (calls != [] ==> (calls[0].provider == GeminiProvider <==> model in GEMINI_IDS)) &&
      (calls != [] && model in GEMINI_IDS ==> calls[0].request.model == model)
    ensures Requests(model, keys, prompt) == [] ==>
      (Refusal(model, keys) == INVALID_MODEL <==> !Routed(model)) &&
      (Refusal(model, keys) == OPENAI_KEY_MISSING <==> model == "openai") &&
      (Refusal(model, keys) == ANTHROPIC_KEY_MISSING <==> model == "claude")
  {
  }

  /** The citations the route attaches to its answer. */
  function ValidationCitations(content: ExtractedContent, options: ProcessingOptions, id: string): (cs: seq<Citation>)
    ensures |cs| <= 1
    ensures cs != [] <==> options.generateCitations && options.action == "validate" && Present(content.url)
    ensures cs != [] ==> cs[0] == SourceCitation(content, id)
  {
    if options.generateCitations && options.action == "validate" && Present(content.url)
    then [SourceCitation(content, id)]
    else []
  }

  /** The `switch` on the model id, with the provider helpers it calls. */
  method Dispatch(model: string, keys: Credentials, prompt: string,
                  openAI: ProviderRequest -> Outcome<Option<string>>,
                  claude: ProviderRequest -> Outcome<ClaudeBlock>,
                  gemini: ProviderRequest -> Outcome<string>)
    returns (text: Outcome<string>, calls: seq<Call>)
    ensures calls == Requests(model, keys, prompt)
    ensures calls != [] ==> text == Reply(calls[0], openAI, claude, gemini)
    ensures calls == [] && Routed(model) ==> text == Raised(ErrorObject(Refusal(model, keys)))
  {
    calls := [];
    if model == "openai" {
      if !keys.openAI {
        text := Raised(ErrorObject(OPENAI_KEY_MISSING));
      } else {
        var request := OpenAIRequest(prompt);
        calls := [Call(OpenAIProvider, request)];
        text := OpenAIText(openAI(request));
      }
    } else if model == "claude" {
      if !keys.anthropic {
        text := Raised(ErrorObject(ANTHROPIC_KEY_MISSING));
      } else {
        var request := ClaudeRequest(prompt);
        calls := [Call(ClaudeProvider, request)];
        text := ClaudeText(claude(request));
      }
    } else if model in GEMINI_IDS {
      var request := GeminiRequest(model, prompt);
      calls := [Call(GeminiProvider, request)];
      text := GeminiText(gemini(request));
    } else {
      text := Raised(ErrorObject(INVALID_MODEL));
    }
  }

  /**
   * `POST /api/enhance`. The route answers and reports the provider
   * requests it made (`calls`): those `Requests` prescribes for the model,
   * and none when the body is unreadable or incomplete.
   */
  method Post(body: EnhanceBody, keys: Credentials,
              openAI: ProviderRequest -> Outcome<Option<string>>,
              claude: ProviderRequest -> Outcome<ClaudeBlock>,
              gemini: ProviderRequest -> Outcome<string>,
              citationId: string)
    returns (response: ApiResponse<EnhancedContent>, calls: seq<Call>)
    ensures body.Unreadable? ==> response == Failure(MessageOr(body.thrown, ENHANCE_FAILED)) && calls == []
    ensures body.Received? && (body.content.None? || body.options.None?) ==> response == Failure(FIELDS_REQUIRED) && calls == []
    ensures body.Received? && body.content.Some? && body.options.Some? ==>
      calls == Requests(body.options.value.model, keys, GeneratePrompt(body.content.value, body.options.value))
    ensures body.Received? && body.content.Some? && body.options.Some? && calls == [] ==>
      response == Failure(Refusal(body.options.value.model, keys))
    ensures calls != [] ==>
      var content, options := body.content.value, body.options.value;
      var text := Reply(calls[0], openAI, claude, gemini);
      (text.Raised? ==> response == Failure(MessageOr(text.thrown, ENHANCE_FAILED))) &&
      (text.Returned? ==> response == Success(Assemble(content, options, text.value, ValidationCitations(content, options, citationId))))
  {
    calls := [];
    if body.Unreadable? {
      response := Failure(MessageOr(body.thrown, ENHANCE_FAILED));
      return;
    }
    if body.content.None? || body.options.None? {
      response := Failure(FIELDS_REQUIRED);
      return;
    }
    var content, options := body.content.value, body.options.value;
    var prompt := GeneratePrompt(content, options);
    var text: Outcome<string>;
    text, calls := Dispatch(options.model, keys, prompt, openAI, claude, gemini);
    if !Routed(options.model) {
      response := Failure(INVALID_MODEL);
      return;
    }
    if text.Raised? {
      response := Failure(MessageOr(text.thrown, ENHANCE_FAILED));
      return;
    }
    var citations: seq<Citation> := [];
    if options.generateCitations && options.action == "validate" {
      citations := GenerateValidationCitations(content, citationId);
      if citations != [] {
        assert citations[0] in citations;
        assert citations == [SourceCitation(content, citationId)];
      }
    }
    assert citations == ValidationCitations(content, options, citationId);
    response := Success(Assemble(content, options, text.value, citations));
  }
}
