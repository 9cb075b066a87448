/**
 * `useContentProcessor`: the client's processing state and the operations
 * that drive it. A server round trip is a parameter that yields the
 * decoded `APIResponse`, or what `fetch`/`json()` threw.
 */
module ContentProcessor {
  import opened Wrappers
  import opened Types
  import PdfRoute = GeneratePdf

  datatype Step = Idle | Extracting | Enhancing | Complete

  /** The string the hook exposes as `currentStep`. */
  function StepName(step: Step): string {
    match step
    case Idle => "idle"
    case Extracting => "extracting"
    case Enhancing => "enhancing"
    case Complete => "complete"
  }

  /** The five fields of `ContentProcessorState`; `null` is `None`. */
  datatype State = State(
    isProcessing: bool,
    currentStep: Step,
    extractedContent: Option<ExtractedContent>,
    enhancedContent: Option<EnhancedContent>,
    error: Option<string>)

  const INITIAL := State(false, Idle, None, None, None)

  /** What a request to one of the routes gave the client. */
  datatype Reply<T> = Answered(response: ApiResponse<T>) | Threw(thrown: Thrown)

  /** The body `extractContent`/`enhanceContent` posts `{url?, text?}` with. */
  datatype Input = Input(url: Option<string>, text: Option<string>)

  /** What `POST /api/generate-pdf` gave: an ok response, a non-ok one, or an exception. */
  datatype PdfReply = Downloaded | NotOk | PdfThrew(thrown: Thrown)

  const EXTRACT_FAILED := "Failed to extract content"
  const ENHANCE_FAILED := "Failed to enhance content"
  const PDF_FAILED := "Failed to generate PDF"

  // ---------------------------------------------------------------------------
  // The transitions, on values

  /**
   * What the awaited call returns: the data of a successful response;
   * otherwise it throws an `Error` carrying the response's error (or
   * `fallback` when that is empty), or rethrows what the request threw.
   */
  function Result<T>(reply: Reply<T>, fallback: string): (r: Outcome<T>)
    ensures r.Returned? <==> reply.Answered? && reply.response.Success?
    ensures r.Returned? ==> r.value == reply.response.data
    ensures reply.Threw? ==> r == Raised(reply.thrown)
    ensures reply.Answered? && reply.response.Failure? ==>
      r.Raised? && r.thrown.ErrorObject? &&
      (reply.response.error != "" ==> r.thrown.message == reply.response.error) &&
      (reply.response.error == "" ==> r.thrown.message == fallback)
  {
    match reply
    case Answered(Success(data)) => Returned(data)
    case Answered(Failure(e)) => Raised(ErrorObject(if e != "" then e else fallback))
    case Threw(t) => Raised(t)
  }

  /** The first `setState`: processing starts, the step is `step` and the error is cleared. */
  function Begin(s: State, step: Step): State {
    s.(isProcessing := true, currentStep := step, error := None)
  }

  /** The state after `extractContent` settles. */
  function AfterExtract(s: State, reply: Reply<ExtractedContent>): State {
    var b := Begin(s, Extracting);
    match Result(reply, EXTRACT_FAILED)
    case Returned(data) => b.(extractedContent := Some(data), currentStep := Idle, isProcessing := false)
    case Raised(t) => b.(error := Some(MessageOr(t, EXTRACT_FAILED)), isProcessing := false, currentStep := Idle)
  }

  /** The state after `enhanceContent` settles. */
  function AfterEnhance(s: State, reply: Reply<EnhancedContent>): State {
    var b := Begin(s, Enhancing);
    match Result(reply, ENHANCE_FAILED)
    case Returned(data) => b.(enhancedContent := Some(data), currentStep := Complete, isProcessing := false)
    case Raised(t) => b.(error := Some(MessageOr(t, ENHANCE_FAILED)), isProcessing := false, currentStep := Idle)
  }

  /** What `generatePDF` throws, if anything. */
  function PdfFailure(reply: PdfReply): Option<Thrown> {
    match reply
    case Downloaded => None
    case NotOk => Some(ErrorObject(PDF_FAILED))
    case PdfThrew(t) => Some(t)
  }

  /** How `generatePDF` reads an answer that arrived: `response.ok` holds for a status from 200 to 299. */
  function ReplyOfStatus(status: nat): (reply: PdfReply)
    ensures reply == Downloaded <==> 200 <= status <= 299
    ensures reply != Downloaded ==> reply == NotOk
  {
    if 200 <= status <= 299 then Downloaded else NotOk
  }

  /** The state after `generatePDF` settles. */
  function AfterPdf(s: State, reply: PdfReply): State {
    match PdfFailure(reply)
    case None => s
    case Some(t) => s.(error := Some(MessageOr(t, PDF_FAILED)))
  }

  // ---------------------------------------------------------------------------
  // Properties of the transitions

  /** The state the hook keeps between operations: processing exactly while extracting or enhancing, and `complete` only with a result. */
  predicate Consistent(s: State) {
    (s.isProcessing <==> s.currentStep == Extracting || s.currentStep == Enhancing) &&
    (s.currentStep == Complete ==> s.enhancedContent.Some?)
  }

  lemma InitialConsistent()
    ensures Consistent(INITIAL)
    ensures !INITIAL.isProcessing && INITIAL.currentStep == Idle
    ensures INITIAL.extractedContent.None? && INITIAL.enhancedContent.None? && INITIAL.error.None?
  {
  }

  /** Starting a request shows it in progress and keeps both contents. */
  lemma BeginShowsProgress(s: State, step: Step)
    requires step == Extracting || step == Enhancing
    ensures Consistent(Begin(s, step))
    ensures Begin(s, step).extractedContent == s.extractedContent && Begin(s, step).enhancedContent == s.enhancedContent
    ensures Begin(s, step).error.None?
  {
  }

  /**
   * `extractContent` settles idle and not processing; it stores the data
   * exactly on success and the error exactly on failure, and never touches
   * the enhanced result.
   */
  lemma ExtractSettles(s: State, reply: Reply<ExtractedContent>)
    requires Consistent(s)
    ensures var t := AfterExtract(s, reply);
      Consistent(t) && !t.isProcessing && t.currentStep == Idle && t.enhancedContent == s.enhancedContent &&
      (t.error.None? <==> Result(reply, EXTRACT_FAILED).Returned?) &&
      (Result(reply, EXTRACT_FAILED).Returned? ==> t.extractedContent == Some(Result(reply, EXTRACT_FAILED).value)) &&
      (Result(reply, EXTRACT_FAILED).Raised? ==> t.extractedContent == s.extractedContent)
  {
  }

  /**
   * `enhanceContent` stops processing; it completes with the data on
   * success, and on failure returns to idle with the error and the
   * previous contents.
   */
  lemma EnhanceSettles(s: State, reply: Reply<EnhancedContent>)
    requires Consistent(s)
    ensures var t := AfterEnhance(s, reply);
      Consistent(t) && !t.isProcessing && t.extractedContent == s.extractedContent &&
      (t.currentStep == Complete <==> Result(reply, ENHANCE_FAILED).Returned?) &&
      (t.error.None? <==> Result(reply, ENHANCE_FAILED).Returned?) &&
      (Result(reply, ENHANCE_FAILED).Returned? ==> t.enhancedContent == Some(Result(reply, ENHANCE_FAILED).value)) &&
      (Result(reply, ENHANCE_FAILED).Raised? ==> t.enhancedContent == s.enhancedContent && t.currentStep == Idle)
  {
  }

  /** `generatePDF` changes the error alone, and only when it fails. */
  lemma PdfTouchesOnlyError(s: State, reply: PdfReply)
    requires Consistent(s)
    ensures var t := AfterPdf(s, reply);
      Consistent(t) && t.(error := s.error) == s &&
      (t == s <== reply == Downloaded) &&
      (reply != Downloaded ==> t.error.Some?)
  {
  }

  /**
   * The PDF route answers its errors with status 200, so `generatePDF` takes
   * an error for a download: it throws nothing and leaves the error unset.
   */
  lemma RouteErrorTakenForDownload(body: PdfRoute.RequestBody, date: string, styles: string, renderFailure: Option<Thrown>, s: State)
    requires PdfRoute.Post(body, date, styles, renderFailure).Failure?
    ensures var reply := ReplyOfStatus(PdfRoute.HttpStatus(PdfRoute.Post(body, date, styles, renderFailure)));
      reply == Downloaded && PdfFailure(reply) == None && AfterPdf(s, reply) == s
  {
  }

  /** A failure reported by the route reaches the state as the route's own message. */
  lemma ServerMessageShown(s: State, message: string)
    requires message != ""
    ensures AfterExtract(s, Answered(Failure(message))).error == Some(message)
    ensures AfterEnhance(s, Answered(Failure(message))).error == Some(message)
  {
  }

  // ---------------------------------------------------------------------------
  // The hook

  class Processor {
    var isProcessing: bool
    var currentStep: Step
    var extractedContent: Option<ExtractedContent>
    var enhancedContent: Option<EnhancedContent>
    var error: Option<string>

    function Snapshot(): State
      reads this
    {
      State(isProcessing, currentStep, extractedContent, enhancedContent, error)
    }

    /** `useState` with the initial state. */
    constructor()
      ensures Snapshot() == INITIAL
    {
      isProcessing := false;
      currentStep := Idle;
      extractedContent := None;
      enhancedContent := None;
      error := None;
    }

    method BeginStep(step: Step)
      modifies this
      ensures Snapshot() == Begin(old(Snapshot()), step)
    {
      isProcessing := true;
      currentStep := step;
      error := None;
    }

    /** `extractContent`: returns the extracted record or rethrows. */
    method ExtractContent(input: Input, server: Input -> Reply<ExtractedContent>) returns (result: Outcome<ExtractedContent>)
      modifies this
      ensures result == Result(server(input), EXTRACT_FAILED)
      ensures Snapshot() == AfterExtract(old(Snapshot()), server(input))
    {
      BeginStep(Extracting);
      result := Result(server(input), EXTRACT_FAILED);
      match result
      case Returned(data) =>
        extractedContent := Some(data);
        currentStep := Idle;
        isProcessing := false;
      case Raised(t) =>
        error := Some(MessageOr(t, EXTRACT_FAILED));
        isProcessing := false;
        currentStep := Idle;
    }

    /** `enhanceContent`: returns the enhanced record or rethrows. */
    method EnhanceContent(content: ExtractedContent, options: ProcessingOptions,
                          server: (ExtractedContent, ProcessingOptions) -> Reply<EnhancedContent>)
      returns (result: Outcome<EnhancedContent>)
      modifies this
      ensures result == Result(server(content, options), ENHANCE_FAILED)
      ensures Snapshot() == AfterEnhance(old(Snapshot()), server(content, options))
    {
      BeginStep(Enhancing);
      result := Result(server(content, options), ENHANCE_FAILED);
      match result
      case Returned(data) =>
        enhancedContent := Some(data);
        currentStep := Complete;
        isProcessing := false;
      case Raised(t) =>
        error := Some(MessageOr(t, ENHANCE_FAILED));
        isProcessing := false;
        currentStep := Idle;
    }

    /**
     * `processContent`: extraction, then enhancement of exactly the
     * extracted record; a failed extraction is rethrown and nothing is
     * enhanced. `enhancedFrom` is the record enhancement was asked for.
     */
    method ProcessContent(input: Input, options: ProcessingOptions,
                          extract: Input -> Reply<ExtractedContent>,
                          enhance: (ExtractedContent, ProcessingOptions) -> Reply<EnhancedContent>)
      returns (result: Outcome<EnhancedContent>, enhancedFrom: Option<ExtractedContent>)
      modifies this
      ensures var extracted := Result(extract(input), EXTRACT_FAILED);
        (enhancedFrom.Some? <==> extracted.Returned?) &&
        (extracted.Raised? ==>
           result == Raised(extracted.thrown) &&
           Snapshot() == AfterExtract(old(Snapshot()), extract(input))) &&
        (extracted.Returned? ==>
           enhancedFrom == Some(extracted.value) &&
           result == Result(enhance(extracted.value, options), ENHANCE_FAILED) &&
           Snapshot() == AfterEnhance(AfterExtract(old(Snapshot()), extract(input)), enhance(extracted.value, options)))
    {
      var extracted := ExtractContent(input, extract);
      if extracted.Raised? {
        result, enhancedFrom := Raised(extracted.thrown), None;
        return;
      }
      enhancedFrom := Some(extracted.value);
      result := EnhanceContent(extracted.value, options, enhance);
    }

    /** `generatePDF`: the download itself is not modelled; a failure is recorded and rethrown. */
    method GeneratePdf(content: EnhancedContent, reply: PdfReply) returns (failure: Option<Thrown>)
      modifies this
      ensures failure == PdfFailure(reply)
      ensures Snapshot() == AfterPdf(old(Snapshot()), reply)
    {
      failure := PdfFailure(reply);
      if failure.Some? {
        error := Some(MessageOr(failure.value, PDF_FAILED));
      }
    }

    /** `reset`: back to the initial state. */
    method Reset()
      modifies this
      ensures Snapshot() == INITIAL
    {
      isProcessing := false;
      currentStep := Idle;
      extractedContent := None;
      enhancedContent := None;
      error := None;
    }

    /** `clearError`: the error is cleared and nothing else changes. */
    method ClearError()
      modifies this
      ensures Snapshot() == old(Snapshot()).(error := None)
    {
      error := None;
    }
  }
}
