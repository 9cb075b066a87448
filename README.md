# AI Content-to-PDF Enhancer — a verified Dafny model

This project models the server core and the client-side state logic of the
AI Content-to-PDF Enhancer. That is the Next.js application that:

- extracts an article from a URL or from pasted text;
- asks an AI provider (Gemini, OpenAI or Claude) to summarise, expand or
  validate it;
- builds a table of contents and citations;
- renders everything into one HTML page that becomes a PDF.

Each source file of the core is one Dafny module:

| module | file | form |
|---|---|---|
| `Wrappers` | — | `Option`; JavaScript truthiness of optional strings (`Present`), `a \|\| b` (`OrElse`) |
| `Strings` | — | JavaScript `\s`, line terminators, `trim`, ASCII `toLowerCase`/`toUpperCase`, decimal printing, global `replace` of a literal |
| `Types` | `src/types/index.ts` | the records of the wire format as datatypes; the `AI_MODELS` table as a map |
| `ContentUtils` | `src/lib/content-utils.ts` | the text helpers as functions; `validateContent` as a method that pushes messages |
| `TableOfContents` | `src/lib/content-utils.ts` | the heading scan and `buildHierarchicalTOC` as methods with loops, proved against recursive reference functions |
| `Extract` | `src/app/api/extract/route.ts` | the POST handler as a method; the selector loop as a method |
| `Enhance` | `src/app/api/enhance/route.ts` | prompt building, provider dispatch and the POST handler |
| `GeneratePdf` | `src/app/api/generate-pdf/route.ts` | the HTML page, the markdown conversion, the TOC and citation markup, the file name and the POST handler |
| `ModelsRoute` | `src/app/api/models/route.ts` | the GET handler over an environment map |
| `ApiUtils` | `src/lib/api-utils.ts` | availability and display information over an environment map |
| `ContentProcessor` | `src/hooks/useContentProcessor.ts` | the hook as a class whose fields are the React state; each operation is a method, specified by a pure transition function |
| `ContentInputForm` | `src/components/forms/ContentInputForm.tsx` | the form as a class with its `useState` fields; `validateForm` and `handleSubmit` as methods |

## How the environment is modelled

Everything outside the program becomes an input:

- the clock becomes a `date` string;
- `isValidUrl` becomes an uninterpreted predicate `validUrl`;
- `new URL(url).hostname` becomes a function `hostname`;
- `fetch` plus cheerio become a function from a URL to a `Fetched` value. Its `Page` record holds what each CSS selector yields.
- The three AI SDK clients are functions from a `ProviderRequest` to an `Outcome`.
- The environment variables are a `map<string, string>` or a `Credentials` record.
- The generated citation id is a parameter.
- Puppeteer's failure is an optional `Thrown`.
- `request.json()` becomes a body datatype with an "unreadable" alternative, which carries what it threw.

A thrown value is `Thrown`: either an `Error` object with its message or
some other value. That is how `error instanceof Error ? error.message :
fallback` is reproduced (`Types.MessageOr`).

## Behaviour of the code as written

The model follows the code, including the following behaviours:

- **Anchors do not resolve.** The markdown converter gives body headings no `id`, so the links in the generated TOC (`#heading-1`, ...) point at nothing.
- **Bold and italic are greedy.** `\*\*(.*)\*\*` matches from the first `**` to the last one on a line (`GeneratePdf.BoldIsGreedy`).
- **Heading whitespace crosses lines.** In the heading regular expression, `\s+` may cross a line break, so the text `#\n# b` yields one heading titled `# b` (`TableOfContents.WhiteSpaceCrossesLines`).
- **Gemini availability differs between two places.** The models route reports Gemini as unavailable without `GEMINI_API_KEY`, although the enhance route then falls back to a built-in key. `checkApiAvailability` always reports Gemini as available (`ModelsRoute.AvailabilityAgrees`).
- **Display information does not know the Gemini ids.** `getModelDisplayInfo` knows the ids `gemini`, `openai` and `claude`. Any other Gemini id, such as the `gemini-2.0-flash-exp` of `AI_MODELS`, falls through to "Unknown Model" (`ApiUtils.GeminiVariantsUnknown`).
- **`AI_MODELS` is keyed differently from the options.** `AI_MODELS` uses the keys `gpt-4` and `claude-3`, while `ProcessingOptions.model` uses `openai` and `claude` (`Types.OptionIdsMissFromTable`).
- **An empty children array still renders a nested list.** `buildHierarchicalTOC` gives every item `children: []`. An empty array is truthy, so the TOC markup renders an empty nested `<ul>` under every leaf. The model keeps that: `Children([])` differs from `NoChildren`.
- **The heading breaks can bring back a triple newline.** `formatMarkdownContent` limits newline runs first and adds the heading breaks afterwards. A blank line before a heading therefore becomes two: `a\n\n# b` gives `a\n\n\n# b` (`ContentUtils.HeadingBreakRestoresTripleNewline`).
- **PDF errors are downloaded as a PDF.** The PDF route answers its errors without a `status`, so with 200. The hook's `response.ok` check then passes: the JSON error body is saved as the `.pdf` file and no error is shown (`ContentProcessor.RouteErrorTakenForDownload`).

## Model

| member | source | states |
|---|---|---|
| `Types.MessageOr` | src/app/api/extract/route.ts:152 | an `Error` yields its own message; any other thrown value yields the fallback |
| `Types.DeclaredUnions` | src/types/index.ts:6-11 | the model union has five distinct ids and the action union has three distinct actions |
| `Types.ExactlyOneDefault` | src/types/index.ts:76-118 | exactly one entry of `AI_MODELS`, `gemini-2.0-flash-exp`, is marked default |
| `Types.GeminiEntries` | src/types/index.ts:77-101 | every Google entry is keyed by its own model name, allows 8192 tokens and needs no API key; every Gemini option id is such an entry |
| `Types.PremiumEntries` | src/types/index.ts:102-117 | `gpt-4` is the OpenAI entry and `claude-3` is the Anthropic entry; every non-Google entry allows 4096 tokens and needs a key |
| `Types.OptionIdsMissFromTable` | src/types/index.ts:7 | `openai` and `claude` are option ids without a table entry; a table key is an option id exactly when it is a Google entry |
| `Strings.Lower` | src/lib/content-utils.ts:121 | the result has the same length and maps each character to its ASCII lower case |
| `Strings.Upper` | src/app/api/generate-pdf/route.ts:151 | the result has the same length and maps each character to its ASCII upper case |
| `Strings.Trim` | src/lib/content-utils.ts:19 | `String.prototype.trim`: leading, then trailing white space removed (its shape is stated by `Strings.TrimShape`) |
| `Strings.TrimShape` | src/lib/content-utils.ts:19 | `trim` returns a slice of its input with only white space cut from either end, and the slice neither starts nor ends with white space |
| `Strings.TrimEmpty` | src/lib/content-utils.ts:87 | the trimmed string is empty exactly when the input is all white space |
| `Strings.TrimNoop` | src/lib/content-utils.ts:74 | trimming a trimmed string changes nothing |
| `Strings.TrimStartRemovesSpace` | src/lib/content-utils.ts:19 | everything cut from the front is white space |
| `Strings.TrimEndRemovesSpace` | src/lib/content-utils.ts:19 | everything cut from the back is white space |
| `Strings.NatToString` | src/lib/content-utils.ts:31 | a decimal numeral is a non-empty string of digits without a leading zero |
| `Strings.NatToStringRoundTrip` | src/lib/content-utils.ts:31 | reading a printed numeral back gives the number |
| `Strings.NatToStringInjective` | src/lib/content-utils.ts:31 | different numbers print differently, so the `heading-N` ids are distinct |
| `Strings.ReplaceCharRemoves` | src/app/api/generate-pdf/route.ts:431 | replacing every occurrence of a character by text free of it leaves no occurrence |
| `Strings.ReplaceAllAbsent` | src/app/api/generate-pdf/route.ts:430-431 | a global replace whose pattern does not occur changes nothing |
| `Strings.ReplaceAllChars` | src/app/api/generate-pdf/route.ts:430-431 | every character of a replacement result comes from the input or the replacement text |
| `Strings.LineEnd` | src/lib/content-utils.ts:24 | `$` with the `m` flag: the end of the line is at or after the position, and is the end of the text or a line terminator |
| `Strings.LineEndUnique` | src/lib/content-utils.ts:24 | the line end is the first line terminator at or after the position |
| `ContentUtils.FindCI` | src/lib/content-utils.ts:15-16 | the search with the `i` flag finds the leftmost case-insensitive match at or after a position |
| `ContentUtils.ReplaceTags` | src/lib/content-utils.ts:17 | replacing tags never lengthens the text; text without `>` stays without `>` |
| `ContentUtils.ReplaceTagsLeavesNoTag` | src/lib/content-utils.ts:17 | after the replace no `<...>` tag remains |
| `ContentUtils.CollapseSpaces` | src/lib/content-utils.ts:18 | every white-space character left is a single space, no two white-space characters are adjacent, and the text is empty exactly when the input was |
| `ContentUtils.ElementMatchEnd` | src/lib/content-utils.ts:15-16 | a match of `<name[^>]*>[\s\S]*?</name>` at the start ends inside the input and is not empty; none without the opening tag, its `>` or a closing tag |
| `ContentUtils.RemoveElements` | src/lib/content-utils.ts:15-16 | every complete script or style element is deleted, scanning left to right; the result is never longer than the input |
| `ContentUtils.ExtractTextContent` | src/lib/content-utils.ts:12-20 | `extractTextContent`: script and style elements removed, tags replaced by spaces, white space collapsed, then trimmed |
| `ContentUtils.ExtractTextContentNormalised` | src/lib/content-utils.ts:12-20 | the extracted text is trimmed and single-spaced |
| `ContentUtils.TrimKeepsSingleSpaced` | src/lib/content-utils.ts:19 | trimming single-spaced text keeps it single-spaced |
| `ContentUtils.SplitOnSpace` | src/lib/content-utils.ts:107 | `split(/\s+/)`: the pieces between maximal white-space runs, empty ends included, and always at least one piece |
| `ContentUtils.SplitOnSpacePiece` | src/lib/content-utils.ts:107 | every piece of `split(/\s+/)` is free of white space |
| `ContentUtils.SplitJoinCollapses` | src/lib/content-utils.ts:107 | joining the pieces with single spaces gives the input with each white-space run collapsed |
| `ContentUtils.SplitJoinRoundTrip` | src/lib/content-utils.ts:107 | splitting words joined by single spaces gives the words back |
| `ContentUtils.EstimateReadingTime` | src/lib/content-utils.ts:105-109 | the minutes are the ceiling of the piece count over 200 words per minute, and at least one |
| `ContentUtils.ReadingTimeOfEmpty` | src/lib/content-utils.ts:107-108 | the empty text still splits into one piece and reads in one minute |
| `ContentUtils.ReadingTimeOfWords` | src/lib/content-utils.ts:105-109 | n non-empty words separated by single spaces read in the ceiling of n / 200 minutes; 400 words in two |
| `ContentUtils.TruncateText` | src/lib/content-utils.ts:111-114 | a short text is returned unchanged; a long one becomes a prefix of itself plus `...`, `maxLength` long (3 long when `maxLength` < 3, as `substr` with a negative length keeps nothing) |
| `ContentUtils.DashNonAlnum` | src/lib/content-utils.ts:118 | every character that is not an ASCII letter or digit becomes `-`, and nothing else changes |
| `ContentUtils.DashNonAlnumFacts` | src/lib/content-utils.ts:118 | the result holds only letters, digits and dashes, with the same letters and digits in the same order |
| `ContentUtils.CollapseDashes` | src/lib/content-utils.ts:119 | `/-+/g` to `-`: never longer than its input (runs and kept letters in `ContentUtils.CollapseDashesFacts`) |
| `ContentUtils.CollapseDashesFacts` | src/lib/content-utils.ts:119 | runs of dashes become one dash; the ends and the letters and digits are kept |
| `ContentUtils.StripEdgeDashes` | src/lib/content-utils.ts:120 | `/^-\|-$/g` to nothing: one leading and one trailing dash removed, never longer than its input (a slice per `ContentUtils.StripEdgeDashesSlice`) |
| `ContentUtils.StripEdgeDashesFacts` | src/lib/content-utils.ts:120 | removing one edge dash at each end leaves a name without edge dashes and with the same letters and digits |
| `ContentUtils.LowerAlnums` | src/lib/content-utils.ts:121 | lower-casing commutes with keeping the letters and digits |
| `ContentUtils.SanitizeFilename` | src/lib/content-utils.ts:116-122 | `sanitizeFilename`: non-alphanumerics to dashes, dash runs collapsed, one edge dash stripped at each end, lower-cased |
| `ContentUtils.SanitizeFilenameClean` | src/lib/content-utils.ts:116-122 | the file name holds only lower-case letters, digits and single inner dashes, keeps the input's letters and digits lower-cased, is empty exactly when the input has none, and is no longer than the input |
| `ContentUtils.SanitizeFilenameIdempotent` | src/lib/content-utils.ts:116-122 | sanitizing a sanitized name changes nothing |
| `ContentUtils.LimitNewlinesBound` | src/lib/content-utils.ts:72 | no three consecutive newlines remain, and a leading newline stays a leading newline |
| `ContentUtils.AddHeadingBreaksOnlyInsertsNewlines` | src/lib/content-utils.ts:73 | the heading pass only inserts newlines: with the newlines removed, the text is the input |
| `ContentUtils.LimitNewlines` | src/lib/content-utils.ts:72 | `.replace(/\n{3,}/g, '\n\n')`: each run of three or more newlines becomes two; never lengthens the text |
| `ContentUtils.AddHeadingBreaks` | src/lib/content-utils.ts:73 | `.replace(/^#{1,6}\s+/gm, ...)`: a newline goes in front of each heading marker at a line start |
| `ContentUtils.FormatMarkdownContent` | src/lib/content-utils.ts:69-75 | `formatMarkdownContent`: the newline limit, then the heading breaks, then `trim` |
| `ContentUtils.FormatMarkdownContentShape` | src/lib/content-utils.ts:69-75 | the formatted markdown is trimmed; the newline-limit pass leaves no triple newline; the heading breaks only add newlines |
| `ContentUtils.LimitKeepsExample` | src/lib/content-utils.ts:72 | the text `a\n\n# b` has no run of three newlines, so the limit keeps it |
| `ContentUtils.HeadingBreaksOfExample` | src/lib/content-utils.ts:73 | in `a\n\n# b` the heading pass puts a newline in front of `# `, giving `a\n\n\n# b` |
| `ContentUtils.HeadingBreakRestoresTripleNewline` | src/lib/content-utils.ts:69-75 | `formatMarkdownContent` turns `a\n\n# b` into `a\n\n\n# b`, which holds three newlines in a row |
| `ContentUtils.Messages` | src/lib/content-utils.ts:85-97 | each message is present exactly when its condition holds; the list is empty exactly when none holds, has at most three entries and keeps the order title, length, URL |
| `ContentUtils.ValidateContent` | src/lib/content-utils.ts:81-103 | the errors are the messages for a blank title, content under 50 characters after trimming and a present URL that fails `isValidUrl`; the result is valid exactly when there are none |
| `TableOfContents.HeadingAt` | src/lib/content-utils.ts:24 | a match at a line start has one to six hashes and text that starts after the white space |
| `TableOfContents.HeadingAtSound` | src/lib/content-utils.ts:24 | every match found satisfies the regular expression `^(#{1,6})\s+(.+)$` with the `m` flag |
| `TableOfContents.HeadingAtComplete` | src/lib/content-utils.ts:24 | whenever the regular expression can match at a position, a match is found there, with the greedy choice of white space |
| `TableOfContents.NoHeadingWithoutMarker` | src/lib/content-utils.ts:24 | more than six hashes, or no white space after them, means no heading |
| `TableOfContents.NextHeading` | src/lib/content-utils.ts:28 | a match from `lastIndex` starts at or after it, lies inside the content and has a level from 1 to 6 |
| `TableOfContents.NextHeadingLeftmost` | src/lib/content-utils.ts:28 | `exec` returns the leftmost match at or after `lastIndex` |
| `TableOfContents.NextHeadingNone` | src/lib/content-utils.ts:28 | when `exec` returns null there is no later match |
| `TableOfContents.Toc` | src/lib/content-utils.ts:22-38 | the entries of the matches from a position on, numbered from a counter (ids proved by `TableOfContents.TocEntryId`) |
| `TableOfContents.FlatToc` | src/lib/content-utils.ts:22-38 | the flat heading list of the content, numbered from `heading-1`; the loop `TableOfContents.CollectHeadings` computes exactly it |
| `TableOfContents.CollectHeadings` | src/lib/content-utils.ts:22-38 | the scanning loop produces exactly the flat list of matches in order |
| `TableOfContents.TocEntryId` | src/lib/content-utils.ts:31 | the i-th heading found has id `heading-` followed by its 1-based number |
| `TableOfContents.TocEntryShape` | src/lib/content-utils.ts:29-37 | every entry has a level from 1 to 6, a trimmed title and no children |
| `TableOfContents.FlatTocIds` | src/lib/content-utils.ts:31 | ids are numbered from 1 and pairwise distinct |
| `TableOfContents.FlatTocEmpty` | src/lib/content-utils.ts:22-38 | the list is empty exactly when no position matches |
| `TableOfContents.PopWhileNotBelow` | src/lib/content-utils.ts:49-51 | popping the stack leaves exactly the prefix of levels below the new level |
| `TableOfContents.Insert` | src/lib/content-utils.ts:53-63 | an entry goes under the last root of a lower level, recursively among its children, and otherwise after the roots |
| `TableOfContents.Hierarchy` | src/lib/content-utils.ts:43-67 | the reference outline: each flat entry, given `children: []`, inserted in turn |
| `TableOfContents.BuildHierarchicalToc` | src/lib/content-utils.ts:43-67 | the stack loop builds the forest obtained by inserting each item under the rightmost open item of a lower level |
| `TableOfContents.InsertIsAppendUnder` | src/lib/content-utils.ts:55-61 | inserting an item appends it at the depth of the right spine that the stack of open items describes |
| `TableOfContents.HierarchySpine` | src/lib/content-utils.ts:45 | the levels along the right spine (the stack) strictly increase |
| `TableOfContents.HierarchyPreorder` | src/lib/content-utils.ts:43-67 | the preorder of the forest is the flat list, each item given `children: []` |
| `TableOfContents.HierarchyWellFormed` | src/lib/content-utils.ts:53-61 | every child is deeper than its parent, and every item has a children array |
| `TableOfContents.LastRootIsMinimal` | src/lib/content-utils.ts:55-56 | the last root has the least level seen so far |
| `TableOfContents.HierarchyRoots` | src/lib/content-utils.ts:55-56 | the roots are exactly the items whose level is at most every earlier level |
| `TableOfContents.Outline` | src/lib/content-utils.ts:22-41 | the outline of a text: the hierarchy of its flat list of headings |
| `TableOfContents.GenerateTableOfContents` | src/lib/content-utils.ts:22-41 | the result is the outline of the content |
| `TableOfContents.OutlineEmpty` | src/lib/content-utils.ts:40 | the outline is empty exactly when no heading is found |
| `TableOfContents.OutlinePreorder` | src/lib/content-utils.ts:22-67 | reading the outline in preorder gives the headings in text order, and the outline is well formed |
| `TableOfContents.WhiteSpaceCrossesLines` | src/lib/content-utils.ts:24 | the text `#\n# b` gives the single heading `# b` at level 1 |
| `Extract.FirstPresent` | src/app/api/extract/route.ts:69-92 | an `\|\|` chain yields the first truthy candidate, or the fallback when there is none |
| `Extract.FirstPresentFrom` | src/app/api/extract/route.ts:69-92 | the chain's value is the fallback or one of the truthy candidates |
| `Extract.Title` | src/app/api/extract/route.ts:69-72 | the `\|\|` chain of `<title>`, `og:title`, the first `h1` and `Untitled` |
| `Extract.Description` | src/app/api/extract/route.ts:74-75 | the `\|\|` chain of the description meta tag, `og:description` and `''` |
| `Extract.Author` | src/app/api/extract/route.ts:77-80 | the `\|\|` chain of the author meta tag, `article:author`, `.author`, `[rel="author"]` and `''` |
| `Extract.PublishedDate` | src/app/api/extract/route.ts:82-85 | the `\|\|` chain of `article:published_time`, the first `time[datetime]` attribute, the first `time` text and `''` |
| `Extract.Image` | src/app/api/extract/route.ts:87-89 | the `\|\|` chain of `og:image`, `twitter:image` and `''` |
| `Extract.SiteName` | src/app/api/extract/route.ts:91-92 | `og:site_name`, or else the URL's host name |
| `Extract.TitleChain` | src/app/api/extract/route.ts:69-72 | the title is `<title>`, else `og:title`, else the first `h1`, else `Untitled`, and is never empty |
| `Extract.SiteNameChain` | src/app/api/extract/route.ts:91-92 | the site name is `og:site_name` when present, else the host name |
| `Extract.ChooseMain` | src/app/api/extract/route.ts:95-113 | the main content is empty or the markup of a selector that matched something |
| `Extract.Winner` | src/app/api/extract/route.ts:108-113 | the position of the selector whose markup the loop kept last, if any, and it is a valid position |
| `Extract.WinnerFacts` | src/app/api/extract/route.ts:108-113 | the last selector whose text is longer than the content chosen before it wins, and no later selector beats it |
| `Extract.FirstMatchTaken` | src/app/api/extract/route.ts:108-113 | the first selector with non-empty text is taken when it comes up |
| `Extract.SelectMainContent` | src/app/api/extract/route.ts:95-113 | the selector loop computes the choice above |
| `Extract.MainHtml` | src/app/api/extract/route.ts:116-118 | content shorter than 100 characters is replaced by the body markup |
| `Extract.UserText` | src/app/api/extract/route.ts:29-35 | pasted text becomes a record titled `User Provided Text`, by `User Input`, dated now, with no URL |
| `Extract.PageRecord` | src/app/api/extract/route.ts:130-141 | the record holds the cleaned main text, the URL, the trimmed title, the trimmed author when non-empty, and each metadata field only when non-empty |
| `Extract.Post` | src/app/api/extract/route.ts:17-155 | the handler's branches in order: unreadable body, neither field, text, invalid URL, failed fetch, not-ok response, too little content, success; the page is fetched exactly once, and only for a valid URL without text |
| `Extract.PageContent` | src/app/api/extract/route.ts:121-141 | a successful extraction has at least 100 characters and is trimmed and single-spaced |
| `Enhance.Instruction` | src/app/api/enhance/route.ts:106-117 | the instruction of `summarize`, `expand` and `validate`, and the generic one for any other action |
| `Enhance.BaseInfo` | src/app/api/enhance/route.ts:104 | the prompt's base holds title, author (or `Unknown`) and content |
| `Enhance.GeneratePrompt` | src/app/api/enhance/route.ts:103-119 | the prompt starts with the action's instruction and a blank line, ends with the base information, and is exactly as long as the two with the blank line between them, so it is nothing else |
| `Enhance.ValidateRequirements` | src/app/api/enhance/route.ts:113-114 | the validate instruction asks for fact-checking, biases, further research and credibility |
| `Enhance.ValidatePromptRequirements` | src/app/api/enhance/route.ts:103-119 | a validate prompt contains all four requests |
| `Enhance.OpenAIRequest` | src/app/api/enhance/route.ts:126-140 | model `gpt-4-turbo-preview`, the fixed system text, the prompt as the user message, 4096 tokens, temperature 0.3 |
| `Enhance.ClaudeRequest` | src/app/api/enhance/route.ts:150-161 | model `claude-3-sonnet-20240229`, the same system text, the prompt as the user message, 4096 tokens, temperature 0.3 |
| `Enhance.GeminiRequest` | src/app/api/enhance/route.ts:168-179 | the option's own model id, no system field, and the system text, a blank line and the prompt as the user text |
| `Enhance.OpenAIText` | src/app/api/enhance/route.ts:121-143 | a thrown error passes through; the reply text, or the fallback when it is missing or empty |
| `Enhance.ClaudeText` | src/app/api/enhance/route.ts:145-165 | a thrown error passes through; no first block throws; a text block gives its text; any other block gives the fallback |
| `Enhance.GeminiText` | src/app/api/enhance/route.ts:167-189 | failures are rethrown with the Gemini prefix and the original message; an empty reply gives the fallback |
| `Enhance.SourceCitation` | src/app/api/enhance/route.ts:196-205 | the citation copies the source's title, URL, author and date, with the description `Original source article` |
| `Enhance.GenerateValidationCitations` | src/app/api/enhance/route.ts:191-210 | one source citation when the content has a URL, none otherwise |
| `Enhance.Requests` | src/app/api/enhance/route.ts:53-64 | the provider requests the `switch` makes: at most one, for a routed model whose key is configured |
| `Enhance.Refusal` | src/app/api/enhance/route.ts:65-69 | `Invalid AI model selected` for a model outside the `switch`; otherwise the missing-key message that `processWithOpenAI` (line 123) or `processWithClaude` (line 147) throws |
| `Enhance.Reply` | src/app/api/enhance/route.ts:121-189 | the text a provider call yields after its helper's own fallbacks |
| `Enhance.Routing` | src/app/api/enhance/route.ts:53-70 | a provider is called exactly when the model is routed and its key is there; the provider matches the model; a refusal names the missing key or the invalid model |
| `Enhance.ValidationCitations` | src/app/api/enhance/route.ts:73-75 | citations appear exactly for the validate action with citations requested and a URL present |
| `Enhance.Assemble` | src/app/api/enhance/route.ts:78-87 | the record keeps the original, text, action and model; citations only when non-empty; a TOC exactly when the text has a heading, and then the outline |
| `Enhance.Dispatch` | src/app/api/enhance/route.ts:53-70 | the switch makes the routed provider call and returns its text, or raises the refusal |
| `Enhance.Post` | src/app/api/enhance/route.ts:35-101 | an unreadable body or missing fields answer with an error without calling a provider; otherwise the one call is the routed one, and its failure or its assembled record is the response |
| `GeneratePdf.ConvertMarkdownToHtml` | src/app/api/generate-pdf/route.ts:417-433 | `convertMarkdownToHTML`: the six heading rules, bold, italic, links, paragraph and line breaks, then the wrap of each line in a paragraph |
| `GeneratePdf.HeadingRule` | src/app/api/generate-pdf/route.ts:421-426 | one heading rule `^#{k} (.*$)` with flags `gim`: a line starting with `k` hashes and a space becomes the rest of the line in the `h<k>` tag (text with no such line start is left alone: `GeneratePdf.HeadingRuleNoop`) |
| `GeneratePdf.Headings` | src/app/api/generate-pdf/route.ts:421-426 | the six heading rules in order, `#` first (split at line boundaries by `GeneratePdf.HeadingsSplit`) |
| `GeneratePdf.StrongRule` | src/app/api/generate-pdf/route.ts:427 | `\*\*(.*)\*\*` greedy within a line: the first `**` of a line pairs with its last (`GeneratePdf.BoldIsGreedy`); no-op without `*` (`GeneratePdf.StrongRuleNoop`) |
| `GeneratePdf.EmRule` | src/app/api/generate-pdf/route.ts:428 | `\*(.*)\*` greedy within a line: the first `*` pairs with the line's last; no-op without `*` (`GeneratePdf.EmRuleNoop`) |
| `GeneratePdf.LinkRule` | src/app/api/generate-pdf/route.ts:429 | `[text](target)`: text to the first `]`, which must be followed by `(`, target to the next `)`; no-op without `[` (`GeneratePdf.LinkRuleNoop`) |
| `GeneratePdf.WrapLines` | src/app/api/generate-pdf/route.ts:432 | `^(.*)$` with `gim`: every line, empty ones included, wrapped in `<p>`; a single line is wrapped whole (`GeneratePdf.WrapOneLine`) |
| `GeneratePdf.ConvertedHasNoNewline` | src/app/api/generate-pdf/route.ts:417-433 | the converted markdown contains no newline |
| `GeneratePdf.PlainParagraphs` | src/app/api/generate-pdf/route.ts:430-432 | markdown without markup becomes one paragraph whose blank lines close paragraphs and whose single newlines become `<br>` |
| `GeneratePdf.HeadingLine` | src/app/api/generate-pdf/route.ts:421-426 | a line of k hashes, a space and plain text becomes an `hk` element inside a paragraph |
| `GeneratePdf.HeadingsOfLine` | src/app/api/generate-pdf/route.ts:421-426 | the six heading passes touch the line only at its own level |
| `GeneratePdf.HeadingsSplit` | src/app/api/generate-pdf/route.ts:421-426 | cut at a line boundary, the six heading passes on the whole are the passes on each part, and the boundary stays a line boundary |
| `GeneratePdf.HeadingLineInDocument` | src/app/api/generate-pdf/route.ts:421-426 | inside a document, a line of k hashes, a space and a plain title becomes the level-k heading tag around the title, and the lines before and after are converted on their own |
| `GeneratePdf.InlineNoop` | src/app/api/generate-pdf/route.ts:427-429 | text without `*` or `[` passes bold, italic and link untouched |
| `GeneratePdf.BoldIsGreedy` | src/app/api/generate-pdf/route.ts:427 | `**a** **b**` becomes one strong element `a** **b` |
| `GeneratePdf.Resolve` | src/app/api/generate-pdf/route.ts:124-128 | without options: TOC and citations on, original off; otherwise each flag takes its default unless set |
| `GeneratePdf.TocHtml` | src/app/api/generate-pdf/route.ts:369-383 | `generateTOCHTML`: the TOC frame around the rendered item list |
| `GeneratePdf.ItemPieces` | src/app/api/generate-pdf/route.ts:374-396 | each item opens, then a children array (an empty one too) becomes a nested list, then the item closes |
| `GeneratePdf.AnchorsArePreorder` | src/app/api/generate-pdf/route.ts:369-396 | the TOC markup lists the items' links in preorder |
| `GeneratePdf.OutlineMarkupFollowsText` | src/app/api/generate-pdf/route.ts:369-396 | the links of the rendered TOC follow the headings in text order |
| `GeneratePdf.TocItemMarkup` | src/app/api/generate-pdf/route.ts:374-379 | an item renders as its `li` and link, then its nested list when it has a children array |
| `GeneratePdf.PieceHtml` | src/app/api/generate-pdf/route.ts:374-394 | the markup of one piece of the contents list: the nested `ul` open or close, an item's `li` with its level class and anchor link, the item close, with the top-level or nested indentation |
| `GeneratePdf.RenderAppend` | src/app/api/generate-pdf/route.ts:379 | rendering distributes over concatenation, as `map(...).join('')` does |
| `GeneratePdf.CitationsHtml` | src/app/api/generate-pdf/route.ts:398-415 | `generateCitationsHTML`: the citations frame around the numbered citation blocks |
| `GeneratePdf.CitationHtml` | src/app/api/generate-pdf/route.ts:402-412 | one citation block: `[n]` and the title, then the author, URL, published and description lines each only when present |
| `GeneratePdf.CitationNumbering` | src/app/api/generate-pdf/route.ts:402-404 | the i-th citation block is headed `[i+1]` and its title, and that numeral reads back as i+1 |
| `GeneratePdf.CitationsSnoc` | src/app/api/generate-pdf/route.ts:402-412 | adding a citation appends exactly its own block, numbered after the others |
| `GeneratePdf.CoverHtml` | src/app/api/generate-pdf/route.ts:146-157 | the cover: title, author line, model upper-cased with the action, date, reading time and source line |
| `GeneratePdf.AuthorLine` | src/app/api/generate-pdf/route.ts:149 | the author line appears exactly when the author is truthy |
| `GeneratePdf.SourceLine` | src/app/api/generate-pdf/route.ts:154 | the source line appears exactly when the URL is truthy |
| `GeneratePdf.TocSection` | src/app/api/generate-pdf/route.ts:160 | the TOC section appears exactly when it is enabled and the content has a TOC |
| `GeneratePdf.NewlinesToParagraphs` | src/app/api/generate-pdf/route.ts:176 | the original text keeps no newline |
| `GeneratePdf.OriginalSection` | src/app/api/generate-pdf/route.ts:171-179 | the original section appears exactly when enabled |
| `GeneratePdf.AppendixAfterPageBreak` | src/app/api/generate-pdf/route.ts:172 | the original section starts on a new page |
| `GeneratePdf.CitationsSection` | src/app/api/generate-pdf/route.ts:182 | the citations section appears exactly when enabled and there is at least one citation |
| `GeneratePdf.SectionOrder` | src/app/api/generate-pdf/route.ts:133-185 | cover, TOC, body, original and citations occur in the page in this order, each intact |
| `GeneratePdf.GeneratePdfHtml` | src/app/api/generate-pdf/route.ts:123-188 | `generatePDFHTML`: the page from the cover, TOC, converted body, original and citations sections the resolved options select |
| `GeneratePdf.PageSections` | src/app/api/generate-pdf/route.ts:123-188 | the page is assembled from the sections the resolved options select |
| `GeneratePdf.SanitizedSuffix` | src/app/api/generate-pdf/route.ts:102 | the sanitized `title-enhanced` always ends in `enhanced` |
| `GeneratePdf.PdfFilename` | src/app/api/generate-pdf/route.ts:102 | the file name ends in `enhanced.pdf` and its stem is a clean name |
| `GeneratePdf.Download` | src/app/api/generate-pdf/route.ts:102-111 | the generated page, the file name `sanitizeFilename(title + "-enhanced") + ".pdf"` and the `attachment; filename="…"` header |
| `GeneratePdf.Post` | src/app/api/generate-pdf/route.ts:47-121 | missing content, an unreadable body and a render failure answer with the matching error; success exactly otherwise |
| `GeneratePdf.PostSuccess` | src/app/api/generate-pdf/route.ts:102-111 | a success carries the page HTML and an attachment header naming the sanitized file |
| `GeneratePdf.HttpStatus` | src/app/api/generate-pdf/route.ts:58 | every answer of the route, error or PDF, is sent with status 200, as no `status` is given (also lines 105 and 116) |
| `ModelsRoute.KeyAvailability` | src/app/api/models/route.ts:4-8 | each provider is available exactly when its key is set and not the dummy key |
| `ModelsRoute.Entry` | src/app/api/models/route.ts:12-70 | each entry's status, colour and description follow its availability |
| `ModelsRoute.Models` | src/app/api/models/route.ts:10-71 | the five model entries, each from its row and its provider's availability, one per row |
| `ModelsRoute.Get` | src/app/api/models/route.ts:73-79 | the response succeeds with the availability and five models |
| `ModelsRoute.ModelIds` | src/app/api/models/route.ts:12-70 | the models are the five option ids in order, and only the first is default |
| `ModelsRoute.ModelAvailability` | src/app/api/models/route.ts:12-70 | the Gemini entries follow the Gemini key, the others their own key |
| `ModelsRoute.AvailabilityAgrees` | src/lib/api-utils.ts:1-7 | OpenAI and Claude availability agree between the two places; without a Gemini key they disagree on Gemini |
| `ApiUtils.CheckApiAvailability` | src/lib/api-utils.ts:1-7 | Gemini is always available; the others exactly when their key is set and not the dummy key |
| `ApiUtils.Paid` | src/lib/api-utils.ts:21-40 | a premium model shows `AVAILABLE` in green or `API KEY REQUIRED` in orange, with the matching description |
| `ApiUtils.GetModelDisplayInfo` | src/lib/api-utils.ts:9-50 | `getModelDisplayInfo`: Gemini free, OpenAI and Claude by their key, any other id unknown |
| `ApiUtils.DisplayInfoFacts` | src/lib/api-utils.ts:9-50 | `gemini` is free and available; the premium models follow their key; any other id is unknown |
| `ApiUtils.GeminiVariantsUnknown` | src/lib/api-utils.ts:41-48 | Gemini ids other than the table's `gemini` are unknown models here |
| `ContentProcessor.Result` | src/hooks/useContentProcessor.ts:36-40 | a success gives its data; a failure raises the server's error or the fallback; a thrown fetch passes through |
| `ContentProcessor.AfterExtract` | src/hooks/useContentProcessor.ts:21-59 | after `extractContent`: the content stored and the step idle on success, the error set and the step idle otherwise |
| `ContentProcessor.AfterEnhance` | src/hooks/useContentProcessor.ts:61-99 | after `enhanceContent`: the content stored and the step complete on success, the error set and the step idle otherwise |
| `ContentProcessor.AfterPdf` | src/hooks/useContentProcessor.ts:111-140 | after `generatePDF`: unchanged on a download, the error set otherwise |
| `ContentProcessor.ReplyOfStatus` | src/hooks/useContentProcessor.ts:119-121 | a status from 200 to 299 is a download; any other status raises `Failed to generate PDF` |
| `ContentProcessor.InitialConsistent` | src/hooks/useContentProcessor.ts:13-19 | the initial state is idle, empty and error-free |
| `ContentProcessor.BeginShowsProgress` | src/hooks/useContentProcessor.ts:22-27 | starting a step clears the error and keeps the contents |
| `ContentProcessor.ExtractSettles` | src/hooks/useContentProcessor.ts:42-57 | extraction ends idle, stores the content on success and an error otherwise |
| `ContentProcessor.EnhanceSettles` | src/hooks/useContentProcessor.ts:82-97 | enhancement ends complete, with the content stored, on success; otherwise idle with an error |
| `ContentProcessor.PdfTouchesOnlyError` | src/hooks/useContentProcessor.ts:111-140 | PDF generation changes at most the error, and sets it when the download fails |
| `ContentProcessor.RouteErrorTakenForDownload` | src/hooks/useContentProcessor.ts:119-131 | an error answer of the PDF route passes the `response.ok` check, so it is downloaded, nothing is thrown and the error stays unset |
| `ContentProcessor.ServerMessageShown` | src/hooks/useContentProcessor.ts:39 | a non-empty server error is the message shown |
| `ContentProcessor.Processor.constructor` | src/hooks/useContentProcessor.ts:13-19 | the hook starts in the initial state |
| `ContentProcessor.Processor.BeginStep` | src/hooks/useContentProcessor.ts:22-27 | the state becomes the begun step |
| `ContentProcessor.Processor.ExtractContent` | src/hooks/useContentProcessor.ts:21-59 | the result and the new state are those of the server's reply |
| `ContentProcessor.Processor.EnhanceContent` | src/hooks/useContentProcessor.ts:61-99 | the result and the new state are those of the server's reply |
| `ContentProcessor.Processor.ProcessContent` | src/hooks/useContentProcessor.ts:101-109 | enhancement runs exactly when extraction succeeded, on the extracted content |
| `ContentProcessor.Processor.GeneratePdf` | src/hooks/useContentProcessor.ts:111-140 | the failure and new state follow the download reply |
| `ContentProcessor.Processor.Reset` | src/hooks/useContentProcessor.ts:142-150 | the state is the initial one again |
| `ContentProcessor.Processor.ClearError` | src/hooks/useContentProcessor.ts:152-154 | only the error is cleared |
| `ContentInputForm.DefaultOptionsWellTyped` | src/components/forms/ContentInputForm.tsx:25-30 | the default options are well typed and select the default model |
| `ContentInputForm.FormErrors` | src/components/forms/ContentInputForm.tsx:34-53 | the errors `validateForm` records: a blank or invalid URL, or blank text or text under 50 characters, for the active field |
| `ContentInputForm.FormErrorsFacts` | src/components/forms/ContentInputForm.tsx:34-53 | at most one error, for the active field only; none exactly when that field passes its checks |
| `ContentInputForm.Form.constructor` | src/components/forms/ContentInputForm.tsx:22-32 | the form starts on URL input, empty, with the default options and no errors |
| `ContentInputForm.Form.ValidateForm` | src/components/forms/ContentInputForm.tsx:34-53 | the errors are those the rules give, valid exactly when none, inputs unchanged |
| `ContentInputForm.Form.HandleSubmit` | src/components/forms/ContentInputForm.tsx:55-62 | submits the trimmed active field with the options exactly when the form is valid |
| `ContentInputForm.GetStepText` | src/components/forms/ContentInputForm.tsx:77-88 | the progress label of each step, and `''` for any other |
| `ContentInputForm.StepTextOfSteps` | src/components/forms/ContentInputForm.tsx:77-88 | only the idle step has no text, and the other steps have distinct texts |
| `ContentInputForm.SubmittedInputMeetsChecks` | src/components/forms/ContentInputForm.tsx:37-49 | a submitted input passed its field's checks |

## Left out

- Puppeteer (`getBrowser`, `page.setContent`, `page.pdf`, the header and footer templates, the margins): the rendering engine is outside the program; its failure is an input of `GeneratePdf.Post`.
- `getPDFStyles`: a constant style sheet, passed in as the parameter `styles`.
- `new Date().toISOString()` and `toLocaleDateString()`: clock and locale; the dates are parameters.
- The OpenAI, Anthropic and Google SDK clients: foreign code; they are function parameters. The hard-coded Gemini key means Gemini is always configured.
- `fetch` and cheerio's CSS selector engine: the network and an HTML parser; modelled as the `Page` record of what each selector yields.
- `isValidUrl` and `new URL(url).hostname`: WHATWG URL parsing is not modelled; they are parameters.
- `generateCitationId`: uses the clock and `Math.random`; the id is a parameter.
- `Content-Type`/`Content-Length` headers and the PDF bytes: the model keeps the HTML and the `Content-Disposition` value only.
- The browser download in `generatePDF` (blob, object URL, anchor click): DOM plumbing; the reply is a `PdfReply` value.
- The JSX of `ContentInputForm.tsx`, `getStepIcon`, `ContentPreview.tsx`, `src/app/page.tsx`, the OPTIONS (CORS) handlers and `next.config.ts`: presentation and configuration, no logic of the core.
- Console logging and the 45-second `setTimeout` warning: no effect on results.
- String lengths: the model counts Unicode scalar values; JavaScript counts UTF-16 code units.
- `Strings.Lower`: maps ASCII letters only, not the full Unicode case mapping of `toLowerCase`.
- `Strings.Upper`: maps ASCII letters only, not the full Unicode case mapping of `toUpperCase`.
- `GeneratePdf.Resolve`: JSON `null` and `undefined` are both `None`, so an option sent as `null` takes its default and turns its section on; in the source a destructuring default applies only to `undefined`, so a `null` flag is falsy and turns the section off. Values of the wrong JSON type are not modelled.
- `buildHierarchicalTOC`: the aliasing of `parent.children.push` through the stack is modelled as appending at a depth of the right spine, with the stack holding levels.
- `ContentProcessor.Processor`: React's asynchronous state updates are modelled as happening in program order; interleaving of concurrent calls is not modelled.
- `ContentUtils.ExtractTextContent`: the `[\s\S]*?` element removal is proved never to lengthen the text, but not to remove exactly the elements.
- `GeneratePdf.HeadingLine`: states the whole conversion for a heading line on its own. Inside a longer document, `GeneratePdf.HeadingLineInDocument` states the six heading passes line by line; the inline, paragraph and wrap passes are not stated line by line.
