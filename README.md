# Weather tool and prompt-based tool-call adapter, in Dafny

This project models the two pieces of logic in a small weather chatbot.

- **Weather-data normalisation** (`tools/weather_tool.py`). A raw forecast
  record becomes the record shown to the chat model. The wind bearing is
  named by one of sixteen compass points, or `"Unknown"` outside
  [0, 360]. The daylight flag becomes `"Day"`/`"Night"`. The WMO weather
  code is looked up in a fixed 28-entry table, with `"Unknown"` as the
  fallback. Module `WeatherTool`, pure functions and lemmas. Bearings are
  `real`: the source only compares them with constants that are exact
  binary fractions.
- **Prompt-based tool-call adapter** (`clients/ollama_client.py`). The
  client for a local chat server that has no native function calling.
  Module `OllamaClient`:
  - class `Client` keeps `history` (the whole conversation, seeded with
    three turns and never trimmed) and `latestResponseContent`;
    `GenerateContent` appends to `history` in place.
  - `ExtractToolCall` finds a tool call in the reply text. When the reply
    holds "```json", it takes the text after the first one, cuts it by a
    second split at "```" (see below) and strips it; otherwise it takes
    the whole reply. That text is then decoded and shape-checked. A
    decode error, a value of the wrong shape and a missing or empty reply
    all give `None`.
  - `TextResponse` returns the reply exactly when the reply is non-empty
    and no tool call was found.

Supporting modules: `PyStrings` models the Python string operations the
extractor uses (`in`/`find`, `split`, `strip` with `str.isspace`).
`JsonValue` holds the values `json.loads` returns, including the
non-finite floats it reads from `NaN`, `Infinity` and `-Infinity`, with
Python truthiness. `Wrappers` holds `Option`.

`json.loads` and `json.dumps` are function parameters (`decode`, `dumps`),
so every property about the extractor holds for any decoder. The
chat-completion request is not modelled: its outcome (a reply text,
possibly absent, or a transport failure) is an input of `GenerateContent`.

The model follows the code in these places, where an adapter of this kind
might be expected to behave differently:
- the history has no capacity bound and no eviction; it grows by one to
  three turns per completed call (`ReplayGrows`);
- the user and tool-summary turns are appended before the request is
  made, so a transport failure leaves them in the history;
- a tool result is reported as a `user` turn, never under a `tool` role;
- nothing guards against passing a tool result when no call is pending;
- the fenced block is cut by `split("```json")[1].split("```")[0]`. This
  is not always "the text up to the next ```": when that "```" is a run of
  backticks glued onto a later "```json", the split keeps an extra
  backtick (`GluedFenceCounterexample`). `CutAtNextFenceIff` proves that
  the two cuts agree exactly when the fences are not glued in this way.

## Model

| member | source | states |
|---|---|---|
| WeatherTool.CompassPointsDistinct | tools/weather_tool.py:87-122 | the sixteen compass names are pairwise distinct and none is "Unknown" |
| WeatherTool.WindDirectionSector | tools/weather_tool.py:87-120 | for each k < 16, the result is compass point k exactly when the bearing is in sector k: north is [348.75, 360] together with [0, 11.25), and sector k >= 1 is [11.25 + 22.5(k-1), 11.25 + 22.5k); so the sectors are disjoint, clockwise and half-open |
| WeatherTool.WindDirectionTotal | tools/weather_tool.py:87-122 | every bearing in [0, 360] gets one of the sixteen names; the result is "Unknown" exactly when the bearing is below 0 or above 360 |
| WeatherTool.WindDirectionMatchesIndex | tools/weather_tool.py:87-120 | on [0, 360] the chain of guarded cases agrees with the arithmetic reference floor((d + 11.25) / 22.5) mod 16 |
| WeatherTool.WindDirectionBoundaries | tools/weather_tool.py:89-92 | 0, 360 and 348.75 are "N"; 11.25 is "NNE"; -0.25 and 360.25 are "Unknown" |
| WeatherTool.WeatherCodesRange | tools/weather_tool.py:40-69 | every weather-code key lies in 0..99 |
| WeatherTool.WeatherCodesSize | tools/weather_tool.py:40-69 | the weather-code table has exactly 28 entries |
| WeatherTool.WeatherCodesKnown | tools/weather_tool.py:40-69 | no description in the table is "Unknown" |
| WeatherTool.WeatherDescriptionUnknown | tools/weather_tool.py:130 | the looked-up description is "Unknown" exactly when the code is not a table key, and is the table entry otherwise |
| WeatherTool.MapWeatherData | tools/weather_tool.py:124-133 | temperature and wind speed are copied unchanged; the wind direction is the bearing's compass name; is_day is "Day" exactly when the flag is 1 and "Night" for any other integer; the weather code is described by the table, with "Unknown" exactly for codes outside it |
| PyStrings.Find | clients/ollama_client.py:102-103 | the result is an occurrence of the pattern with no occurrence before it, or there is no occurrence at all |
| PyStrings.Split | clients/ollama_client.py:103 | the first piece is the text before the first separator; there are two or more pieces exactly when the separator occurs; the second piece is the text after the first separator up to the next one |
| PyStrings.Strip | clients/ollama_client.py:103 | the result is a slice of the input with only whitespace cut from either end, and it neither starts nor ends with whitespace |
| PyStrings.SplitJoin | clients/ollama_client.py:103 | joining the pieces of `s.split(sep)` with `sep` gives back `s` |
| PyStrings.SplitPiecesFree | clients/ollama_client.py:103 | no piece of `s.split(sep)` holds `sep` |
| PyStrings.StripUnpadded | clients/ollama_client.py:103 | strip leaves a string with no whitespace at either end unchanged |
| OllamaClient.SeedHistory | clients/ollama_client.py:59-63 | the seeded conversation has three turns, the third being the system prompt |
| OllamaClient.Client.constructor | clients/ollama_client.py:53-64 | a new client holds exactly the seeded conversation (user "Hello", the assistant greeting, the system prompt) and no reply |
| OllamaClient.SummaryPrompt | clients/ollama_client.py:75-81 | the tool-result turn starts with the fixed lead-in followed by the encoded result |
| OllamaClient.NextHistory | clients/ollama_client.py:71-91 | the old history stays a prefix; a user turn is appended iff the user input is non-empty, then a user-role summary turn iff the tool result is non-empty, then the assistant turn iff the server replied, and it is last; nothing new is under any role but user or assistant, and only the last new turn can be an assistant turn |
| OllamaClient.Client.GenerateContent | clients/ollama_client.py:66-91 | the new history is NextHistory of the old one; the latest reply is the server's content after a reply and unchanged after a transport failure, which is reported |
| OllamaClient.ReplayGrows | clients/ollama_client.py:66-91 | over any run of calls the history keeps its old prefix, gains between (number of completed calls) and 3 x (number of calls) turns, and gains only user and assistant turns |
| OllamaClient.ToolCallOfShape | clients/ollama_client.py:105-120 | the shape test returns (n, a) exactly when the decoded value is an object whose "tool_call" is an object holding "name" n and "arguments" a |
| OllamaClient.ExtractToolCall | clients/ollama_client.py:93-120 | no call for a missing or empty reply; any call found comes from a candidate that decodes to the tool-call shape, with both fields copied |
| OllamaClient.ExtractToolCallIff | clients/ollama_client.py:98-120 | a call (n, a) is returned exactly when the reply is non-empty and its candidate decodes to the tool-call shape holding n and a; a decode failure, a non-object and a missing key all give no call |
| OllamaClient.FenceCandidateOfBlock | clients/ollama_client.py:101-103 | for a fenced block after text holding no "```json", and followed by text that does not start with "`json" or "``json", the candidate is the block's stripped body |
| OllamaClient.CutAtClosingFence | clients/ollama_client.py:103 | the two splits return the body of a well-formed block: no "```" in the body, no backtick at its end, and no "`json" or "``json" right after the closing fence |
| OllamaClient.FencedToolCallRoundTrip | clients/ollama_client.py:98-120 | a tool-call object fenced as a json block is returned with its name and arguments unchanged, when the text before it holds no "```json", the body holds no "```" and does not end with a backtick, and the text after it does not start with "`json" or "``json" |
| OllamaClient.FencedLinesRoundTrip | clients/ollama_client.py:98-120 | a reply laid out as the system prompt asks, a "```json" line, the JSON text and a "```" line, gives back the call that text holds, when the text has no backticks and no whitespace at either end |
| OllamaClient.ExampleReplyRoundTrip | clients/ollama_client.py:33-41 | the example reply shown in the system prompt gives the `get_current_weather` call with arguments {"location": "Paris"}, for any decoder that reads its JSON text as that object |
| OllamaClient.UnfencedToolCall | clients/ollama_client.py:101-115 | a reply without a json fence is decoded whole, and a tool-call object there is returned |
| OllamaClient.ToolCallLiteral | clients/ollama_client.py:33-41 | the object the system prompt asks the model to emit has the tool-call shape |
| OllamaClient.FenceCandidateUpToNextFence | clients/ollama_client.py:102-103 | when the first closing fence is not glued onto a later opening fence, the candidate is the stripped text after the first "```json" up to the next "```" or the end |
| OllamaClient.GluedCutDiffers | clients/ollama_client.py:103 | when the first "```" is glued onto a later "```json", the split-based cut differs from the cut at the next "```" |
| OllamaClient.CutAtNextFenceIff | clients/ollama_client.py:103 | the split-based cut equals the cut at the next "```" exactly when the first "```" is not glued onto a later "```json" |
| OllamaClient.GluedFenceCounterexample | clients/ollama_client.py:102-103 | for "```json" followed by "a````json", the split gives "a`" while the next "```" would cut at "a" |
| OllamaClient.TextResponse | clients/ollama_client.py:122-129 | the text reply is present exactly when the reply is non-empty and no tool call is found, and then it is the reply itself |
| OllamaClient.TextXorToolCall | clients/ollama_client.py:122-129 | a text reply and a tool call are never both present, and a non-empty reply gives one of them |
| OllamaClient.Client.GetFunctionCall | clients/ollama_client.py:93-99 | reads only the latest reply; there is no call when the reply is missing or empty |
| OllamaClient.Client.GetTextResponse | clients/ollama_client.py:122-129 | reads only the latest reply; a text reply is the reply itself, and only when there is no tool call |

## Left out

- HTTP and geocoding (`_get_location_coordinates`, `_get_location_weather`, `get_current_weather`, tools/weather_tool.py:135-169): these are network calls returning remote JSON.
- The chat-completion request (clients/ollama_client.py:84-88): its result is the `Reply` input of `GenerateContent`. The `model` field is kept but is only passed to that request.
- `json.loads` and `json.dumps`: these are the parameters `decode` and `dumps`. Decode errors and duplicate keys belong to the decoder. The JSON value type does not tell Python `int` from `float`.
- Exceptions: a transport failure is reported by `GenerateContent`'s `raised` result instead of propagating.
- The wording of the system prompt (clients/ollama_client.py:25-44) is a constructor parameter. The source computes it as a module constant, and its constructor takes only the model name.
- The tool schemas and `WEATHER_TOOL_INSTRUCTIONS`: these are prompt text with no logic.
- Floating point: bearings, temperatures and wind speeds are reals, so NaN and infinities are not modelled for them.
- JSON numbers: finite numbers are reals, so float rounding of decoded numbers is not modelled. NaN and the infinities are their own values.
- Exceptions from `json.loads` other than `JSONDecodeError`, such as `RecursionError` on deeply nested input: the `decode` parameter is total. It always returns a value, with `None` for a decode error. So where `get_function_call` and `get_text_response` (clients/ollama_client.py:117, :127) would raise, the model returns a result.
- The default model name `"gemma3:1b"` of the constructor (clients/ollama_client.py:53): the model name is always passed to `Client`.
- The other clients (clients/genai_client.py, clients/openai_client.py) and the abstract base (clients/api_client.py): they keep no conversation and only project fields off library response objects whose types are not visible.
- The command-line scripts (multi-model-chatbot.py, gemini-*.py): input/print loops, argument parsing and colour codes.
- OllamaClient.FenceCandidateUpToNextFence: the plain reading "up to the next ```" is proved only when the first closing fence is not glued onto a later "```json". The model itself follows the split-based code in every case.
- OllamaClient.FencedToolCallRoundTrip: this assumes the text before the block holds no "```json", the body holds no "```" and does not end with a backtick, and the text after the closing fence does not start with "`json" or "``json". Without these assumptions the split-based cut can return a different text.
