/**
 * `ContentInputForm`: the form's validation and what it hands to
 * `onSubmit`. `isValidUrl` is the parameter `validUrl`; the rendering is
 * not modelled.
 */
module ContentInputForm {
  import opened Wrappers
  import opened Strings
  import opened Types
  import ContentProcessor

  /** The options the form starts with. */
  const DEFAULT_OPTIONS := ProcessingOptions("gemini-2.0-flash-exp", "summarize", false, true)

  lemma DefaultOptionsWellTyped()
    ensures DEFAULT_OPTIONS.WellTyped()
    ensures DEFAULT_OPTIONS.model == MODEL_IDS[0] && DEFAULT_OPTIONS.model in AI_MODELS
    ensures AI_MODELS[DEFAULT_OPTIONS.model].isDefault == Some(true)
  {
  }

  const URL_REQUIRED := "URL is required"
  const URL_INVALID := "Please enter a valid URL"
  const TEXT_REQUIRED := "Text content is required"
  const TEXT_TOO_SHORT := "Text content must be at least 50 characters long"
  const MIN_TEXT := 50

  /** The errors `validateForm` records, keyed by field. */
  function FormErrors(inputType: InputKind, url: string, text: string, validUrl: string -> bool): map<string, string> {
    match inputType
    case Url =>
      if Trim(url) == "" then map["url" := URL_REQUIRED]
      else if !validUrl(url) then map["url" := URL_INVALID]
      else map[]
    case Text =>
      if Trim(text) == "" then map["text" := TEXT_REQUIRED]
      else if |Trim(text)| < MIN_TEXT then map["text" := TEXT_TOO_SHORT]
      else map[]
  }

  /**
   * At most one error, on the field of the chosen mode. A url is accepted
   * exactly when it is not blank and `isValidUrl` accepts it as typed (not
   * trimmed); a text exactly when it has at least 50 characters after
   * trimming.
   */
  lemma FormErrorsFacts(inputType: InputKind, url: string, text: string, validUrl: string -> bool)
    ensures var errors := FormErrors(inputType, url, text, validUrl);
      |errors| <= 1 &&
      (inputType == Url ==>
         errors.Keys <= {"url"} && (errors == map[] <==> Trim(url) != "" && validUrl(url))) &&
      (inputType == Text ==>
         errors.Keys <= {"text"} && (errors == map[] <==> |Trim(text)| >= MIN_TEXT))
  {
  }

  /** The form's state; `options` is edited by the controls, which are not modelled. */
  class Form {
    var inputType: InputKind
    var url: string
    var text: string
    var options: ProcessingOptions
    var errors: map<string, string>

    /** The initial `useState` values. */
    constructor()
      ensures inputType == Url && url == "" && text == "" && options == DEFAULT_OPTIONS && errors == map[]
    {
      inputType := Url;
      url := "";
      text := "";
      options := DEFAULT_OPTIONS;
      errors := map[];
    }

    /** `validateForm`: records the errors and reports whether there are none. */
    method ValidateForm(validUrl: string -> bool) returns (valid: bool)
      modifies this
      ensures errors == FormErrors(inputType, url, text, validUrl)
      ensures valid <==> errors == map[]
      ensures inputType == old(inputType) && url == old(url) && text == old(text) && options == old(options)
    {
      var newErrors: map<string, string> := map[];
      if inputType == Url {
        if Trim(url) == "" {
          newErrors := newErrors["url" := URL_REQUIRED];
        } else if !validUrl(url) {
          newErrors := newErrors["url" := URL_INVALID];
        }
      } else {
        if Trim(text) == "" {
          newErrors := newErrors["text" := TEXT_REQUIRED];
        } else if |Trim(text)| < MIN_TEXT {
          newErrors := newErrors["text" := TEXT_TOO_SHORT];
        }
      }
      errors := newErrors;
      valid := |newErrors.Keys| == 0;
    }

    /**
     * `handleSubmit`: on a valid form, the input for `onSubmit` (the
     * trimmed field of the chosen mode, and only that one) and the
     * options; nothing when the form is invalid.
     */
    method HandleSubmit(validUrl: string -> bool) returns (submitted: Option<(ContentProcessor.Input, ProcessingOptions)>)
      modifies this
      ensures errors == FormErrors(inputType, url, text, validUrl)
      ensures submitted.Some? <==> errors == map[]
      ensures submitted.Some? && inputType == Url ==> submitted.value == (ContentProcessor.Input(Some(Trim(url)), None), options)
      ensures submitted.Some? && inputType == Text ==> submitted.value == (ContentProcessor.Input(None, Some(Trim(text))), options)
      ensures inputType == old(inputType) && url == old(url) && text == old(text) && options == old(options)
    {
      var valid := ValidateForm(validUrl);
      if !valid {
        return None;
      }
      var input := if inputType == Url then ContentProcessor.Input(Some(Trim(url)), None)
        else ContentProcessor.Input(None, Some(Trim(text)));
      submitted := Some((input, options));
    }
  }

  /** `getStepText`: the progress label for `currentStep`. */
  function GetStepText(currentStep: string): string {
    match currentStep
    case "extracting" => "Extracting content..."
    case "enhancing" => "Enhancing with AI..."
    case "complete" => "Processing complete!"
    case _ => ""
  }

  /** Every step but `idle` has a label, and the three labels differ. */
  lemma StepTextOfSteps(step: ContentProcessor.Step)
    ensures GetStepText(ContentProcessor.StepName(step)) == "" <==> step == ContentProcessor.Idle
    ensures forall a, b :: a != b && a != ContentProcessor.Idle && b != ContentProcessor.Idle ==>
      GetStepText(ContentProcessor.StepName(a)) != GetStepText(ContentProcessor.StepName(b))
  {
  }

  /** A submitted text passes the length check, and a submitted url is not blank. */
  lemma SubmittedInputMeetsChecks(inputType: InputKind, url: string, text: string, validUrl: string -> bool)
    requires FormErrors(inputType, url, text, validUrl) == map[]
    ensures inputType == Text ==> |Trim(text)| >= MIN_TEXT
    ensures inputType == Url ==> Trim(url) != "" && validUrl(url)
  {
    FormErrorsFacts(inputType, url, text, validUrl);
  }
}
