/**
  The prompt builder of the code assistant service (`create_prompt` in
  main.py): one fixed template per task, with the request's language and
  code filled in. The double-quoted pieces below are the template lines as
  the source writes them, except that each heading line is cut after
  "<language> code"; each line break of the source's triple-quoted strings
  is one "\n".
 */
module PromptBuilder {
  import opened Results
  import opened Text
  import opened Validator

  /** The fenced block that ends the `debug` and `correct` prompts: three
      backticks tagged with the language, the code, three backticks. */
  function FencedCode(language: string, code: string): string {
    "```" + language + "\n" + code + "\n```"
  }

  /** The numbered instructions of the `debug` template and the blank
      line after them. */
  const DebugSteps: string :=
    "1. Identify any bugs, logical errors, or potential issues\n"
    + "2. Explain each problem found\n"
    + "3. Provide the corrected code\n"
    + "4. Add explanatory comments for the fixes\n"
    + "\n"

  /** The numbered instructions of the `correct` template and the blank
      line after them. */
  const CorrectSteps: string :=
    "1. Fix any bugs or issues\n"
    + "2. Improve code efficiency and readability\n"
    + "3. Apply best practices\n"
    + "4. Add helpful comments\n"
    + "5. Provide the improved code with explanations\n"
    + "\n"

  /** The numbered instructions of the `generate` template and the blank
      line after them. */
  const GenerateSteps: string :=
    "1. Create efficient and well-structured code\n"
    + "2. Follow best practices and conventions\n"
    + "3. Include error handling\n"
    + "4. Add comprehensive comments\n"
    + "5. Ensure the code is production-ready\n"
    + "\n"

  /** The layout all three templates share: an opening that names the
      language ("<lead><language> code"), the rest of the heading line,
      the numbered steps, a label line and the tail the request supplies. */
  function Template(lead: string, language: string, heading: string, steps: string,
                    caption: string, tail: string): string {
    lead + language + " code" + heading + steps + caption + tail
  }

  /** The `debug` template: a debugging report, then the fenced code. */
  function DebugPrompt(language: string, code: string): string {
    Template("Analyze this ", language, " and provide a detailed debugging report:\n",
             DebugSteps, "Code to debug:\n", FencedCode(language, code))
  }

  /** The `correct` template: a review, then the same fenced code. */
  function CorrectPrompt(language: string, code: string): string {
    Template("Review and improve this ", language, ":\n",
             CorrectSteps, "Original code:\n", FencedCode(language, code))
  }

  /** The `generate` template: here `code` is a free-text description of
      what to write, and it ends the prompt as it is, with no fence. */
  function GeneratePrompt(language: string, code: string): string {
    Template("Generate ", language, " based on this description:\n",
             GenerateSteps, "Requirements:\n", code)
  }

  /** The dictionary `create_prompt` builds for a request, keyed by task. */
  function PromptTable(request: CodeRequest): map<string, string> {
    map[
      "debug" := DebugPrompt(request.language, request.code),
      "correct" := CorrectPrompt(request.language, request.code),
      "generate" := GeneratePrompt(request.language, request.code)
    ]
  }

  /** `create_prompt`: look the task up in the table. `None` is the
      lookup's `KeyError`, which the source raises for a task that is not
      a key. */
  function CreatePrompt(request: CodeRequest): Option<string> {
    var prompts := PromptTable(request);
    if request.task in prompts then Some(prompts[request.task]) else None
  }

  /** The table's keys are exactly the supported tasks. */
  lemma PromptTableKeys(request: CodeRequest)
    ensures PromptTable(request).Keys == set t | t in SupportedTasks
  {
  }

  /** Looking a task up succeeds exactly for the supported tasks, so the
      builder is total on requests the validator lets through. */
  lemma CreatePromptDefinedIff(request: CodeRequest)
    ensures CreatePrompt(request).Some? <==> request.task in SupportedTasks
    ensures ValidateRequest(request) == Pass ==> CreatePrompt(request).Some?
  {
  }

  /** Every filled-in template opens with "<lead><language> code", ends
      with its label line and tail, and is as long as its pieces together. */
  lemma TemplateFrame(lead: string, language: string, heading: string, steps: string,
                      caption: string, tail: string)
    ensures var p := Template(lead, language, heading, steps, caption, tail);
      && StartsWith(p, lead + language + " code")
      && EndsWith(p, caption + tail)
      && |p| == |lead| + |language| + |" code"| + |heading| + |steps| + |caption| + |tail|
  {
  }

  /** A `debug` prompt opens with "Analyze this <language> code", ends
      with the code in a block fenced with three backticks and tagged with
      the language, and is as long as the empty `debug` prompt plus the
      code. */
  lemma DebugPromptShape(request: CodeRequest)
    requires request.task == "debug"
    ensures CreatePrompt(request).Some?
    ensures StartsWith(CreatePrompt(request).value,
      "Analyze this " + request.language + " code")
    ensures EndsWith(CreatePrompt(request).value,
      "```" + request.language + "\n" + request.code + "\n```")
    ensures |CreatePrompt(request).value| == |DebugPrompt(request.language, "")| + |request.code|
  {
    // Dafny finds this proof unaided too; the calls keep it cheap.
    var l, c := request.language, request.code;
    var heading := " and provide a detailed debugging report:\n";
    TemplateFrame("Analyze this ", l, heading, DebugSteps, "Code to debug:\n", FencedCode(l, c));
    TemplateFrame("Analyze this ", l, heading, DebugSteps, "Code to debug:\n", FencedCode(l, ""));
    EndsWithTail(DebugPrompt(l, c), "Code to debug:\n", FencedCode(l, c));
  }

  /** A `correct` prompt opens with "Review and improve this <language>
      code", ends with the same fenced code as a `debug` prompt, and is as
      long as the empty `correct` prompt plus the code. */
  lemma CorrectPromptShape(request: CodeRequest)
    requires request.task == "correct"
    ensures CreatePrompt(request).Some?
    ensures StartsWith(CreatePrompt(request).value,
      "Review and improve this " + request.language + " code")
    ensures EndsWith(CreatePrompt(request).value,
      "```" + request.language + "\n" + request.code + "\n```")
    ensures |CreatePrompt(request).value| == |CorrectPrompt(request.language, "")| + |request.code|
  {
    // Dafny finds this proof unaided too; the calls keep it cheap.
    var l, c := request.language, request.code;
    TemplateFrame("Review and improve this ", l, ":\n", CorrectSteps, "Original code:\n", FencedCode(l, c));
    TemplateFrame("Review and improve this ", l, ":\n", CorrectSteps, "Original code:\n", FencedCode(l, ""));
    EndsWithTail(CorrectPrompt(l, c), "Original code:\n", FencedCode(l, c));
  }

  /** A `generate` prompt opens with "Generate <language> code", ends
      with "Requirements:" and a line break followed by the description
      exactly as given, with no fence around it, and is as long as the
      empty `generate` prompt plus the description. */
  lemma GeneratePromptShape(request: CodeRequest)
    requires request.task == "generate"
    ensures CreatePrompt(request).Some?
    ensures StartsWith(CreatePrompt(request).value,
      "Generate " + request.language + " code")
    ensures EndsWith(CreatePrompt(request).value, "Requirements:\n" + request.code)
    ensures |CreatePrompt(request).value| == |GeneratePrompt(request.language, "")| + |request.code|
  {
    // Dafny finds this proof unaided too; the calls keep it cheap.
    var l, c := request.language, request.code;
    var heading := " based on this description:\n";
    TemplateFrame("Generate ", l, heading, GenerateSteps, "Requirements:\n", c);
    TemplateFrame("Generate ", l, heading, GenerateSteps, "Requirements:\n", "");
  }

  /** A text that ends with `caption + tail` ends with `tail`. */
  lemma EndsWithTail(p: string, caption: string, tail: string)
    requires EndsWith(p, caption + tail)
    ensures EndsWith(p, tail)
  {
  }
}
