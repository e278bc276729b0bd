# Code assistant request core, in Dafny

The code assistant service (VarunTrehan/AiBot-Code-Generator) takes a
`POST /api/code` request made of `code`, `language` and `task`. It
validates the request, builds a natural-language prompt from it, and sends
the prompt to a remote language model. This project models the two pure
steps before the model call:

- **Request validator** (`validate_request`). Three checks run in a fixed
  order: blank code, then an unsupported language (one of 7), then an
  unsupported task (one of 3). The first check that fails decides the one
  error reported. The model returns an `Outcome` whose three error kinds
  each carry the client's detail text. It does not raise exceptions.
- **Prompt builder** (`create_prompt`). It puts three fixed templates in a
  dictionary keyed by task, fills in the language and code, and looks up
  the request's task. A task that is not a key makes Python raise
  `KeyError`; the model returns `None` for it.
- **Pipeline** (`process_code`, lines 134-135). Validation comes first, and
  a prompt is built only for a request that passes.

Files, one module each:

- `results.dfy` (`Results`): the `Option`, `Outcome` and `Result` datatypes.
- `text.dfy` (`Text`): Python's whitespace test, `str.strip()`,
  `str.join`, and a splitting function that recovers the list from
  `Join` under the conditions of `SplitJoin`: a non-empty list whose
  elements do not contain the separator's first character.
- `validator.dfy` (`Validator`): the request type, the two allow-lists,
  `ValidateRequest` and its lemmas.
- `prompt_builder.dfy` (`PromptBuilder`): the three templates, the
  dictionary, `CreatePrompt` and the shape lemmas.
- `pipeline.dfy` (`Pipeline`): `Process` and the lemma that a prompt
  determines the valid request it came from.

Modelling decisions:

- `main.py` is stored with CRLF line endings. Python's tokenizer turns
  every line ending of a source file into `"\n"`, including the ones
  inside triple-quoted strings, so each template line in the model ends
  in `"\n"`.
- `IsWhitespace` holds for exactly the 29 code points for which Python 3's
  `str.isspace()` holds: U+0009–U+000D, U+001C–U+001F, U+0020, U+0085,
  U+00A0, U+1680, U+2000–U+200A, U+2028, U+2029, U+202F, U+205F and
  U+3000. With no argument, `str.strip()` removes exactly these characters.
  The list is taken from Python's documented behaviour. Python's Unicode
  database was not consulted.
- The three templates share one layout, `Template`: an opening that ends
  in "<language> code", the rest of the heading line, a constant holding
  the numbered instruction lines and the blank line after them, a label
  line ("Code to debug:", "Original code:" or "Requirements:"), and a tail.
  For `debug` and `correct` the tail is the fenced code block. For
  `generate` it is the raw requirements text. Put together, the pieces
  give the source's f-strings character for character.
- The joined allow-lists are stated as concatenations of the list entries
  and `", "`. They are not written as single long string literals.

## Model

| member | source | states |
|---|---|---|
| `Text.IsWhitespace` | main.py:73 | No ensures. It is the set of characters `str.strip()` removes. `TrimStart`, `TrimEnd` and `Strip` state their results in terms of it. |
| `Text.IsBlank` | main.py:73-74 | No ensures. It holds when every character is whitespace. `StripEmptyIffBlank` shows it is exactly the test `not code.strip()`. |
| `Text.TrimStart` | main.py:73 | The result is a suffix of the input that does not start with whitespace, and every character removed is whitespace. Together these say it is `lstrip()`. |
| `Text.TrimEnd` | main.py:73 | The result is a prefix of the input that does not end with whitespace, and every character removed is whitespace. Together these say it is `rstrip()`. |
| `Text.Strip` | main.py:73 | `strip()` returns the infix of the input that has only whitespace around it and that neither starts nor ends with whitespace. |
| `Text.StripEmptyIffBlank` | main.py:73-74 | `not code.strip()` holds exactly when every character of `code` is whitespace, including when `code` is empty. |
| `Text.Join` | main.py:76-78 | No ensures. It is `sep.join(xs)`. `SplitJoin` states that `SplitOn` gives back any non-empty list whose elements avoid `sep[0]`, and `JoinedLanguages` and `JoinedTasks` give its value on the two allow-lists. |
| `Text.SplitJoin` | main.py:76 | Splitting at `sep` what `sep.join(xs)` produced gives back `xs`. This holds for a non-empty list none of whose elements contains the separator's first character. |
| `Validator.ValidateRequest` | main.py:72-79 | No ensures. Its behaviour is stated by `EmptyCodeIff`, `UnsupportedLanguageIff`, `UnsupportedTaskIff`, `ValidIff`, the two `*Detail` lemmas and the two `*DetailLists*` lemmas. |
| `Validator.AllowListSizes` | main.py:69-70 | The constants `SupportedLanguages` and `SupportedTasks` model the two allow-lists. There are 7 supported languages and 3 supported tasks, with no entry listed twice. `/api/health` reports these lengths. |
| `Validator.LanguagesAvoidSpaceAndComma` | main.py:69 | No supported language name contains a space or a comma. |
| `Validator.JoinedLanguages` | main.py:76 | `", ".join(SUPPORTED_LANGUAGES)` is the 7 languages in list order, with `", "` between neighbours. |
| `Validator.JoinedTasks` | main.py:78 | `", ".join(SUPPORTED_TASKS)` is `debug`, `correct`, `generate`, with `", "` between neighbours. |
| `Validator.EmptyCodeIff` | main.py:73-74 | Validation fails with `EmptyCode("Code cannot be empty")` exactly when the code is blank, whatever the language and task. |
| `Validator.UnsupportedLanguageIff` | main.py:73-76 | The error is `UnsupportedLanguage` exactly when the code is not blank and the language is not in the list, whatever the task. |
| `Validator.UnsupportedLanguageDetail` | main.py:75-76 | For non-blank code in an unsupported language, the result is `UnsupportedLanguage` with the detail "Unsupported language. Supported languages are: " followed by the 7 languages in list order, separated by `", "`. |
| `Validator.UnsupportedTaskIff` | main.py:73-78 | The error is `UnsupportedTask` exactly when the code is not blank, the language is supported and the task is not. |
| `Validator.UnsupportedTaskDetail` | main.py:77-78 | For non-blank code in a supported language with an unsupported task, the result is `UnsupportedTask` with the detail "Unsupported task. Supported tasks are: " followed by `debug, correct, generate`. |
| `Validator.ValidIff` | main.py:72-79 | Validation passes exactly when the code has a non-whitespace character, the language is supported and the task is supported. |
| `Validator.LanguagesSplitBack` | main.py:76 | Splitting `", ".join(SUPPORTED_LANGUAGES)` at `", "` gives back the language list. |
| `Validator.TasksSplitBack` | main.py:78 | Splitting `", ".join(SUPPORTED_TASKS)` at `", "` gives back the task list. |
| `Validator.DetailReadsBack` | main.py:76-78 | A detail that is a prefix followed by a joined list starts with the prefix. If the list splits back, so does the text after the prefix. |
| `Validator.LanguageDetailListsLanguages` | main.py:76 | An `UnsupportedLanguage` detail starts with its prefix. Splitting the rest at `", "` gives exactly the language allow-list. |
| `Validator.TaskDetailListsTasks` | main.py:78 | An `UnsupportedTask` detail starts with its prefix. Splitting the rest at `", "` gives exactly the task allow-list. |
| `PromptBuilder.FencedCode` | main.py:90-92 | No ensures. It is the code block that ends the `debug` prompt and, identically, the `correct` prompt (main.py:102-104). The shape lemmas state that those prompts end with it. |
| `PromptBuilder.Template` | main.py:83-114 | No ensures. It is the layout the three templates share. `TemplateFrame` states where its opening, label and tail sit and how long it is. |
| `PromptBuilder.DebugPrompt` | main.py:83-92 | No ensures. It is the `debug` f-string. It is stated by `DebugPromptShape` and, through `SameDebugRequest`, by `PromptDeterminesRequest`. |
| `PromptBuilder.CorrectPrompt` | main.py:94-104 | No ensures. It is the `correct` f-string. It is stated by `CorrectPromptShape` and `PromptDeterminesRequest`. |
| `PromptBuilder.GeneratePrompt` | main.py:106-114 | No ensures. It is the `generate` f-string. It is stated by `GeneratePromptShape` and `PromptDeterminesRequest`. |
| `PromptBuilder.PromptTable` | main.py:82-115 | No ensures. It is the dictionary `prompts`. Its keys are stated by `PromptTableKeys`. |
| `PromptBuilder.CreatePrompt` | main.py:116 | No ensures. It is the lookup `prompts[request.task]`. It is stated by `CreatePromptDefinedIff`, the three shape lemmas and `PromptInitial`. |
| `PromptBuilder.TemplateFrame` | main.py:83-114 | Every filled-in template starts with "<lead><language> code", ends with its label line followed by its tail, and is exactly as long as its pieces together. |
| `PromptBuilder.PromptTableKeys` | main.py:82-115 | The keys of the template dictionary are exactly the supported tasks. |
| `PromptBuilder.CreatePromptDefinedIff` | main.py:116 | The task lookup succeeds, with no `KeyError`, exactly for supported tasks. It therefore succeeds for every request that passes validation. |
| `PromptBuilder.DebugPromptShape` | main.py:83-92 | A `debug` prompt starts with "Analyze this <language> code" and ends with the code in a fence tagged with the language. Its length is the length of the empty `debug` prompt plus the length of the code. |
| `PromptBuilder.CorrectPromptShape` | main.py:94-104 | A `correct` prompt starts with "Review and improve this <language> code" and ends with the same tagged fence around the code. Its length is the length of the empty `correct` prompt plus the length of the code. |
| `PromptBuilder.GeneratePromptShape` | main.py:106-114 | A `generate` prompt starts with "Generate <language> code" and ends with "Requirements:", a line break and the raw text, with no fence. Its length is the length of the empty `generate` prompt plus the length of the text. |
| `Pipeline.Process` | main.py:134-135 | A request that fails validation yields its validation error and no prompt. A request that passes always yields the prompt `create_prompt` builds for it. |
| `Pipeline.ProcessOkIff` | main.py:134-135 | A prompt is produced exactly when the code is not blank and both the language and the task are supported. |
| `Pipeline.PromptInitial` | main.py:82-116 | The first character of a prompt ('A', 'R' or 'G') tells which template produced it. |
| `Pipeline.PromptDeterminesRequest` | main.py:81-116 | Two valid requests that produce the same prompt are the same request. The prompt determines the task, the language and the code verbatim. |

## Left out

- The call to the remote model (main.py:22-33, 138, 170), and the response with its fixed `explanation` text (main.py:144-147). The call is a foreign, non-deterministic network operation, so nothing after prompt construction is modelled.
- HTTP status codes (400 for validation errors, 500 otherwise), the global exception handler and the re-raising in `process_code` (main.py:118-124, 148-153). This is framework error plumbing. The model keeps only which validation error is reported and its detail text.
- The `/api/languages`, `/api/tasks` and `/api/health` handlers (main.py:155-181). They return constants or probe the network. Only the allow-list lengths that `/api/health` reports are stated, in `AllowListSizes`. The health check always reports `"healthy"`, even when the probe fails. That behaviour is not modelled.
- Parsing of the request body (pydantic's `CodeRequest`). The model starts from three strings.
- CORS configuration, logging, loading of the environment, and the server startup in run.py. These are configuration and bootstrap with no logic to verify.
- Lone surrogates. A Dafny `char` is a Unicode scalar value, so it cannot hold a lone surrogate, such as one that a JSON `"\ud800"` escape can put into a Python `str`. `validate_request` treats such a character like any other non-whitespace character, and `create_prompt` copies it unchanged. The model therefore loses nothing for the behaviour it states.
- `IsWhitespace`: the set of characters follows Python 3's documented `str.isspace()` and was not checked against a particular Python build's Unicode database.
- `PromptBuilder.DebugPromptShape`: the opening is stated only up to "Analyze this <language> code". The rest of the heading line and the instruction lines are fixed by `DebugPrompt` itself and enter the lemma only through its length equation, because comparing long string constants piece by piece is costly for the verifier.
- `PromptBuilder.CorrectPromptShape`: the opening is stated only up to "Review and improve this <language> code", for the same reason.
- `PromptBuilder.GeneratePromptShape`: the opening is stated only up to "Generate <language> code", for the same reason.
