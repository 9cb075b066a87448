/**
 * `src/lib/api-utils.ts`: which providers have a key, and the display
 * record of a model. The process environment is the map `env`; a missing
 * variable is a missing key.
 */
module ApiUtils {

  const DUMMY_KEY := "dummy_key_for_testing"

  /** `!!process.env[name] && process.env[name] !== 'dummy_key_for_testing'` */
  predicate KeyConfigured(env: map<string, string>, name: string) {
    name in env && env[name] != "" && env[name] != DUMMY_KEY
  }

  datatype ApiAvailability = ApiAvailability(openai: bool, claude: bool, gemini: bool)

  /** `checkApiAvailability`: the two paid providers follow their keys; Gemini is always available. */
  function CheckApiAvailability(env: map<string, string>): (a: ApiAvailability)
    ensures a.gemini
    ensures a.openai <==> KeyConfigured(env, "OPENAI_API_KEY")
    ensures a.claude <==> KeyConfigured(env, "ANTHROPIC_API_KEY")
  {
    ApiAvailability(KeyConfigured(env, "OPENAI_API_KEY"), KeyConfigured(env, "ANTHROPIC_API_KEY"), true)
  }

  const AVAILABLE := "AVAILABLE"
  const KEY_REQUIRED := "API KEY REQUIRED"
  const GREEN := "green"
  const ORANGE := "orange"

  datatype DisplayInfo = DisplayInfo(name: string, status: string, statusColor: string, available: bool, description: string)

  const GEMINI_PRO := "Gemini Pro"
  const GEMINI_FREE := "Free Google AI model (included by default)"
  const GPT4_TURBO := "GPT-4 Turbo"
  const OPENAI_CONFIGURED := "Premium OpenAI model (API key configured)"
  const OPENAI_NEEDS_KEY := "Premium OpenAI model (requires API key)"
  const CLAUDE_SONNET := "Claude 3 Sonnet"
  const CLAUDE_CONFIGURED := "Premium Anthropic model (API key configured)"
  const CLAUDE_NEEDS_KEY := "Premium Anthropic model (requires API key)"
  const UNKNOWN := DisplayInfo("Unknown Model", "UNAVAILABLE", "red", false, "Unknown model")

  /** A paid model's record: status, colour and description follow whether it is available. */
  function Paid(name: string, available: bool, configured: string, needsKey: string): (d: DisplayInfo)
    ensures d.name == name && d.available == available
    ensures available ==> d.status == AVAILABLE && d.statusColor == GREEN && d.description == configured
    ensures !available ==> d.status == KEY_REQUIRED && d.statusColor == ORANGE && d.description == needsKey
  {
    DisplayInfo(name, if available then AVAILABLE else KEY_REQUIRED, if available then GREEN else ORANGE,
      available, if available then configured else needsKey)
  }

  /** `getModelDisplayInfo` */
  function GetModelDisplayInfo(model: string, env: map<string, string>): DisplayInfo {
    var availability := CheckApiAvailability(env);
    match model
    case "gemini" => DisplayInfo(GEMINI_PRO, "FREE", GREEN, true, GEMINI_FREE)
    case "openai" => Paid(GPT4_TURBO, availability.openai, OPENAI_CONFIGURED, OPENAI_NEEDS_KEY)
    case "claude" => Paid(CLAUDE_SONNET, availability.claude, CLAUDE_CONFIGURED, CLAUDE_NEEDS_KEY)
    case _ => UNKNOWN
  }

  /**
   * `gemini` is free and available whatever the environment; `openai` and
   * `claude` are available exactly when their key is configured, and the
   * status and colour agree with that; any other id, the Gemini variant
   * ids included, is unknown and unavailable.
   */
  lemma DisplayInfoFacts(model: string, env: map<string, string>)
    ensures var d := GetModelDisplayInfo(model, env);
      (model == "gemini" ==> d.status == "FREE" && d.statusColor == GREEN && d.available) &&
      (model == "openai" ==> (d.available <==> KeyConfigured(env, "OPENAI_API_KEY"))) &&
      (model == "claude" ==> (d.available <==> KeyConfigured(env, "ANTHROPIC_API_KEY"))) &&
      (model != "gemini" ==> (d.status == AVAILABLE <==> d.available) && (d.statusColor == GREEN <==> d.available)) &&
      (model != "gemini" && model != "openai" && model != "claude" ==> d == UNKNOWN)
  {
  }

  /** The table's own Gemini ids get the unknown record. */
  lemma GeminiVariantsUnknown(env: map<string, string>)
    ensures GetModelDisplayInfo("gemini-2.0-flash-exp", env) == UNKNOWN
    ensures GetModelDisplayInfo("gemini-1.5-flash", env) == UNKNOWN
  {
  }
}
