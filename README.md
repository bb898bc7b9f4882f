# Social Pulse — a Dafny model of the search pipeline

Social Pulse is a single-page dashboard. A user types a topic. The app asks a
hosted language model, with web-search grounding, for a JSON analysis of the
public debate on that topic. It then shows the two opposing perspectives, the
neutral share and up to five web citations.

This project models the two pieces of that app that hold logic:

- `analyzeSocialPulse` in `services/geminiService.ts`, as pure functions
  (module `GeminiService`). It covers the prompt built from the topic, the
  citation list taken from the grounding chunks (only entries with a non-empty
  uri, at most five, in order), and the Markdown code-fence removal done by one
  global regex replace. It also covers the object spread that puts the
  filtered citations over the parsed reply, and the error handling that turns
  every failure into one message. The model call and `JSON.parse` are
  parameters (`generate`, `parse`). `generate` receives a `Request`: the model
  name, the topic whose prompt `BuildPrompt(topic)` is sent as `contents`, and
  the search-tool switch. The topic and the prompt determine each other
  (`PromptDeterminesTopic`), so a function of the request is a function of
  the text sent.
- The search form of `App.tsx`, as the class `SearchApp.App`. Its fields are
  the state slots `topic`, `loading`, `error`, `data` and `searchPhase`. It
  also counts the phase intervals that have not been cleared. `handleSearch`
  becomes a sequence of discrete events: `Submit` (up to the `await`), `Tick`
  (one firing of the 1500 ms interval) and `Settle` (the awaited call resolves
  or throws). `Search` runs one whole search. The `disabled` attributes and the
  render conditions are predicates on that state.

`PulseTypes` gives the record shapes of `types.ts`. It also gives a JSON value
type for parsed replies, and `AsPulseData`, which reads an object as
`PulseData`. The source never checks this shape; it only casts. `Wrappers` and
`Text` are small helpers: optional values, substring search, subsequences and
decimal numerals.

Results worth knowing:

- The fence stripper deletes every leftmost match of "```json\n" or "\n```"
  (or, with no "```json" in the reply, of "```\n" or "\n```"). So it unwraps
  "```json\n" + body + "\n```" to body only when no pattern occurs in body and
  none crosses its end. `GeminiService.JsonFenceStraddle` shows that a body
  ending in "```json" comes out as "```".
- On the failure path `handleSearch` never calls `clearInterval`. Each failed
  search leaves one interval running (`App.Settle`, `App.Search`). The next
  submit resets the phase to "Initializing sensors...", and every live
  interval then advances it (`App.Tick` applies one step per firing, whichever
  interval fires). With n live intervals the messages advance n times per
  period, so after one failure the next search shows them twice as fast.
- The service casts the parsed reply to `PulseData` without checking its
  shape (`AsPulseData` is only the reader's view of it). It neither checks nor
  rescales the three percentages. The component does not drop a response that
  arrives after a newer search began. And on failure it never clears the
  phase interval.

## Model

| member | source | states |
|---|---|---|
| `GeminiService.Fill` | services/geminiService.ts:16-46 | the template literal, which `BuildPrompt` fills with the verbatim text `SocialPulse`: the result is head, topic, middle, topic, tail in that order, each piece at its fixed offset, so its length grows by twice the topic's length |
| `GeminiService.HeadEndsWithTopicLead` | services/geminiService.ts:17 | in the prompt text, the piece before the first copy of the topic ends with `the following topic: "`, so that copy is the quoted topic of the instruction |
| `GeminiService.MiddleEndsWithTopicKey` | services/geminiService.ts:23-25 | the piece between the two copies ends with `"topic": "`, so the second copy is the value of the template's "topic" field |
| `GeminiService.FillDeterminesTopic` | services/geminiService.ts:16-46 | one template filled with two topics gives the same text only when the topics are equal |
| `GeminiService.PromptDeterminesTopic` | services/geminiService.ts:16-46 | different topics give different prompts (the topic can be read back from the prompt) |
| `GeminiService.RequestFor` | services/geminiService.ts:13-54 | the call asks for model "gemini-2.5-flash" with the Google Search tool, for the given topic |
| `GeminiService.GroundingChunks` | services/geminiService.ts:61 | a response with no candidates, an empty candidate list or no grounding metadata on the first candidate gives no chunks; otherwise the first candidate's chunk list passes through (or [] when it is absent) |
| `GeminiService.Webs` | services/geminiService.ts:63 | `map(chunk => chunk.web)`: one entry per chunk, in order |
| `GeminiService.KeepWithUri` | services/geminiService.ts:64 | every kept citation is present and has a non-empty uri, and the result is no longer than the input |
| `GeminiService.KeepWithUriMembers` | services/geminiService.ts:63-64 | a citation is kept exactly when it occurs in the input and has a non-empty uri (title not required) |
| `GeminiService.KeepWithUriConcat` | services/geminiService.ts:64 | the filter distributes over concatenation, so it keeps the input order |
| `GeminiService.ExtractSources` | services/geminiService.ts:61-65 | at most 5 sources, each with a non-empty uri, and they are the first min(5, n) of the n qualifying citations, in order |
| `GeminiService.CitationExample` | services/geminiService.ts:61-65 | citations a, "", title-only, none, b, c, d, e give exactly a, b, c, d, e |
| `GeminiService.DeleteAll` | services/geminiService.ts:70 | the global replace with '' never lengthens the text |
| `GeminiService.DeleteAllIsSubsequence` | services/geminiService.ts:70 | the replace only deletes characters: its output is a subsequence of its input |
| `GeminiService.DeleteAllNoMatch` | services/geminiService.ts:70 | with neither pattern in the text, the replace leaves it unchanged |
| `GeminiService.DeleteAllKeepsCleanPrefix` | services/geminiService.ts:70 | a prefix in which no match starts is kept as it is, followed by the replace of the rest |
| `GeminiService.StripFences` | services/geminiService.ts:68-73 | the text handed to the parser is never longer than the reply |
| `GeminiService.FenceFreeUnchanged` | services/geminiService.ts:68-73 | a reply without "```" reaches the parser unchanged |
| `GeminiService.StripOnlyDeletes` | services/geminiService.ts:68-73 | on every path, stripping only deletes characters from the reply |
| `GeminiService.JsonFenceUnwraps` | services/geminiService.ts:69-70 | "```json\n" + body + "\n```" becomes exactly body when body + "\n" contains no "```json\n" and body contains no "\n```" |
| `GeminiService.PlainFenceUnwraps` | services/geminiService.ts:71-72 | "```\n" + body + "\n```" becomes exactly body when body has no "```json", body + "\n" has no "```\n" and body has no "\n```" |
| `GeminiService.JsonFenceStraddle` | services/geminiService.ts:69-70 | a body ending in "```json" is not recovered: the wrapped text strips to "```" |
| `GeminiService.Indexed` | services/geminiService.ts:78 | an array's or string's spread has exactly the keys "0" .. "n-1", each mapped to the element at that index |
| `GeminiService.OwnProperties` | services/geminiService.ts:77-78 | the spread copies an object's own keys, an array's or string's index keys "0", "1", ..., and nothing from null, booleans or numbers |
| `GeminiService.Assemble` | services/geminiService.ts:77-80 | `sources` holds the filtered citations and every other key and value is the parsed reply's own, so a reply's own `sources` is overridden |
| `GeminiService.AssembledSourcesWin` | services/geminiService.ts:77-80 | whenever the result reads as PulseData, its sources are exactly the filtered citations |
| `GeminiService.AssembledMirrorsReply` | services/geminiService.ts:76-80 | a parsed reply carrying the fields of p (with or without extra keys or its own sources) reads back as p with the filtered sources |
| `GeminiService.ParseReply` | services/geminiService.ts:75-84 | fails exactly when parsing the stripped text fails, and then with "Failed to parse social analysis data."; on success the result is the spread of the parsed value with `sources` set to the filtered list |
| `GeminiService.AnalyzeSocialPulse` | services/geminiService.ts:11-89 | every failure (rejected call, missing text, parse error) surfaces as "Unable to connect to the social pulse network."; it succeeds exactly when the call resolves with text that parses, and then gives the assembled object |
| `GeminiService.ConformingReplySucceeds` | services/geminiService.ts:58-80 | a conforming reply succeeds, and its payload fields reach the caller unchanged with the first five uri-bearing citations as sources |
| `PulseTypes.AsPulseData` | types.ts:13-23 | a value read as PulseData has topic and summary strings equal to the record's, the three perspective keys, and a `sources` array with one entry per citation; no string `topic` means no PulseData |
| `PulseTypes.ObjectRoundTrip` | types.ts:13-23 | reading back the object that carries a PulseData gives the same record |
| `PulseTypes.PerspectiveRoundTrip` | types.ts:1-6 | the same for a Perspective, arguments in order |
| `PulseTypes.SourcesRoundTrip` | types.ts:8-11 | the same for a list of citations, with absent title or uri kept absent |
| `PulseTypes.ViewReadsPayloadAndSources` | types.ts:13-23 | the typed view depends only on the keys topic, summary, sideA, sideB, neutral and sources |
| `SearchApp.TrimStart` | App.tsx:16 | the result is a suffix of the input, everything removed is white space and it does not start with white space |
| `SearchApp.TrimEnd` | App.tsx:16 | the result is a prefix of the input, everything removed is white space and it does not end with white space |
| `SearchApp.TrimCut` | App.tsx:16 | trimming the start, then the end, leaves a slice of the input with only white space outside it |
| `SearchApp.Trim` | App.tsx:16 | `trim()` gives a slice of the input with only white space outside it, and the slice neither starts nor ends with white space |
| `SearchApp.IsBlank` | App.tsx:16 | `!topic.trim()` holds exactly when every character of the topic is white space |
| `SearchApp.NextPhase` | App.tsx:26-31 | Initializing goes to Scanning, Scanning to Analyzing and Analyzing to Synthesizing; every other value, Synthesizing included, stays as it is |
| `SearchApp.PhaseAfterTicks` | App.tsx:25-32 | after k ticks from the start of a search the phase is message min(k, 3) of the four |
| `SearchApp.PhaseStatesClosed` | App.tsx:26-31 | ticking never leaves the initial "" and the four messages |
| `SearchApp.ErrorText` | App.tsx:39 | the shown error is never empty: it is the thrown message when that is non-empty, and the fallback text when it is empty |
| `SearchApp.FailedSearchShowsConnectionFailure` | App.tsx:38-39 | a failed analysis shows "Unable to connect to the social pulse network.", never the fallback or the parse message |
| `SearchApp.App.constructor` | App.tsx:8-12 | the initial slots: empty topic, not loading, no error, no data, empty phase |
| `SearchApp.App.InputDisabled` | App.tsx:89 | whenever the input is disabled, so is the submit button |
| `SearchApp.App.SubmitDisabled` | App.tsx:93 | the button is disabled exactly while loading or when the topic is all white space |
| `SearchApp.App.PhaseShown` | App.tsx:107-114 | in a consistent state, the status line shows only with no error and no data |
| `SearchApp.App.ErrorShown` | App.tsx:116-121 | in a consistent state, the banner shows exactly when there is an error, and then with no data and not loading |
| `SearchApp.App.DashboardShown` | App.tsx:125 | in a consistent state, the dashboard never shows together with an error |
| `SearchApp.App.EditTopic` | App.tsx:83-90 | typing changes the topic, except while loading, when the input is disabled |
| `SearchApp.App.Submit` | App.tsx:14-25 | a submit with a blank topic, or while loading, changes nothing and calls nothing; otherwise loading is set, error and data are cleared, the phase is "Initializing sensors...", one interval starts and the service is called with the topic |
| `SearchApp.App.Tick` | App.tsx:25-32 | a firing of a live interval applies the phase step |
| `SearchApp.App.TickRepeatedly` | App.tsx:25-32 | k firings in a row move the phase k steps |
| `SearchApp.App.Settle` | App.tsx:34-41 | success stores the result, keeps error null and clears the interval; failure keeps data null, stores the message or fallback and leaves the interval running; loading is false on both paths, and the dashboard shows exactly on success, the banner exactly on failure |
| `SearchApp.App.AwaitService` | App.tsx:34-41 | the awaited service call settles: on success data is its result and one interval is cleared; on failure data is null, the banner reads "Unable to connect to the social pulse network." and the interval count is unchanged |
| `SearchApp.App.Search` | App.tsx:14-43 | a whole search: a blank topic changes nothing; otherwise loading ends false, the phase is the k-th tick's, and on success data is the service's result, while on failure data is null, the error is the connection message and one interval is left running |

## Left out

- The GoogleGenAI client and `generateContent` (services/geminiService.ts:1, 9, 48-56) are a network SDK. They become the parameter `generate`, which maps a `Request` to a rejection or a response. The request carries the topic rather than the prompt text; `BuildPrompt` gives the text and is injective.
- JavaScript strings are sequences of UTF-16 code units, while a Dafny `string` is a sequence of Unicode scalar values. Lengths and indices differ for characters outside the Basic Multilingual Plane. This affects the offsets in `Fill` and the index keys of a spread string (`OwnProperties`, `Indexed`), which count code units in the source.
- `JSON.parse` (services/geminiService.ts:76) becomes the parameter `parse`. The JSON grammar is not modelled, and JSON numbers are integers.
- The API-key check and all `console.error` logging (services/geminiService.ts:5-7, 82, 87) are process environment and I/O.
- components/PulseDashboard.tsx is not part of this model. It is presentation only: the chart data literal and the 'Unknown Source' title fallback.
- Real time is left out: the 1500 ms period, and when the call settles relative to the ticks. Ticks and settlement are discrete, sequential events.
- Overlapping searches are left out. `Settle` requires a pending search (`loading`). A submit while loading is a no-op because the input and button are disabled.
- Grounding web objects carry only `title` and `uri`. Other SDK fields, non-string values and null chunks (where `chunk.web` would throw) are not modelled.
- Object key order is not modelled: the result object is a map.
- `err.message` is modelled as a string, so a thrown non-Error value (with no message) is not modelled. The service only throws `Error`s.
- The code does not validate percentages, so neither does the model.
