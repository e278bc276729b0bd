/**
  The validate-then-build order of `process_code` in main.py: a request
  is validated first, and a prompt is built only for a request that
  passes. What happens to the prompt afterwards (the call to the remote
  model and the response) is not part of this model.
 */
module Pipeline {
  import opened Results
  import opened Text
  import opened Validator
  import opened PromptBuilder

  /** Validation, then prompt construction. A rejected request yields its
      validation error and no prompt; an accepted one always yields the
      prompt `create_prompt` builds, never its `KeyError`. */
  function Process(request: CodeRequest): (r: Result<string, ValidationError>)
    ensures r.Err? <==> ValidateRequest(request).Fail?
    ensures r.Err? ==> r.error == ValidateRequest(request).error
    ensures r.Ok? ==> CreatePrompt(request) == Some(r.value)
  {
    match ValidateRequest(request)
    case Fail(e) => Err(e)
    case Pass => Ok(CreatePrompt(request).value)
  }

  /** A prompt is produced exactly for requests whose code has a
      non-whitespace character and whose language and task are supported. */
  lemma ProcessOkIff(request: CodeRequest)
    ensures Process(request).Ok? <==>
      && !IsBlank(request.code)
      && request.language in SupportedLanguages
      && request.task in SupportedTasks
  {
  }

  /** The first character of a prompt tells which template produced it. */
  lemma PromptInitial(request: CodeRequest)
    requires request.task in SupportedTasks
    ensures CreatePrompt(request).Some? && |CreatePrompt(request).value| > 0
    ensures CreatePrompt(request).value[0] ==
      if request.task == "debug" then 'A'
      else if request.task == "correct" then 'R'
      else 'G'
  {
  }

  /** The characters of `p` from `|lead|` on spell `w`, and the next one
      is the first of `rest`, when `p` starts with `lead + w + rest`. */
  lemma WordAt(p: string, lead: string, w: string, rest: string)
    requires StartsWith(p, lead + w + rest) && rest != []
    ensures forall i :: 0 <= i < |w| ==> p[|lead| + i] == w[i]
    ensures p[|lead| + |w|] == rest[0]
  {
  }

  /** Two space-free words that each follow `lead` at the start of `p` and
      are each followed by a space there are the same word. */
  lemma SameWordAfter(p: string, lead: string, w1: string, rest1: string, w2: string, rest2: string)
    requires StartsWith(p, lead + w1 + rest1) && StartsWith(p, lead + w2 + rest2)
    requires rest1 != [] && rest1[0] == ' ' && rest2 != [] && rest2[0] == ' '
    requires Avoids(w1, ' ') && Avoids(w2, ' ')
    ensures w1 == w2
  {
    WordAt(p, lead, w1, rest1);
    WordAt(p, lead, w2, rest2);
    if |w1| < |w2| {
      assert false;
    } else if |w2| < |w1| {
      assert false;
    } else {
      forall i | 0 <= i < |w1| ensures w1[i] == w2[i] {
        assert p[|lead| + i] == w1[i];
      }
    }
  }

  /** Two equally long texts that sit between the same `before` and
      `after` at the end of `p` are the same text. */
  lemma SameTextBefore(p: string, before: string, t1: string, t2: string, after: string)
    requires EndsWith(p, before + t1 + after) && EndsWith(p, before + t2 + after)
    requires |t1| == |t2|
    ensures t1 == t2
  {
    var s1, s2 := before + t1 + after, before + t2 + after;
    assert s1 == s2;
    assert t1 == s1[|before|..|before| + |t1|];
    assert t2 == s2[|before|..|before| + |t2|];
  }

  /** Two `debug` requests in supported languages with equal prompts are
      the same request. */
  lemma SameDebugRequest(r1: CodeRequest, r2: CodeRequest)
    requires r1.task == r2.task == "debug"
    requires r1.language in SupportedLanguages && r2.language in SupportedLanguages
    requires CreatePrompt(r1) == CreatePrompt(r2)
    ensures r1 == r2
  {
    LanguagesAvoidSpaceAndComma();
    DebugPromptShape(r1);
    DebugPromptShape(r2);
    var p := CreatePrompt(r1).value;
    SameWordAfter(p, "Analyze this ", r1.language, " code", r2.language, " code");
    SameTextBefore(p, "```" + r1.language + "\n", r1.code, r2.code, "\n```");
  }

  /** Two `correct` requests in supported languages with equal prompts are
      the same request. */
  lemma SameCorrectRequest(r1: CodeRequest, r2: CodeRequest)
    requires r1.task == r2.task == "correct"
    requires r1.language in SupportedLanguages && r2.language in SupportedLanguages
    requires CreatePrompt(r1) == CreatePrompt(r2)
    ensures r1 == r2
  {
    LanguagesAvoidSpaceAndComma();
    CorrectPromptShape(r1);
    CorrectPromptShape(r2);
    var p := CreatePrompt(r1).value;
    SameWordAfter(p, "Review and improve this ", r1.language, " code", r2.language, " code");
    SameTextBefore(p, "```" + r1.language + "\n", r1.code, r2.code, "\n```");
  }

  /** Two `generate` requests in supported languages with equal prompts
      are the same request. */
  lemma SameGenerateRequest(r1: CodeRequest, r2: CodeRequest)
    requires r1.task == r2.task == "generate"
    requires r1.language in SupportedLanguages && r2.language in SupportedLanguages
    requires CreatePrompt(r1) == CreatePrompt(r2)
    ensures r1 == r2
  {
    LanguagesAvoidSpaceAndComma();
    GeneratePromptShape(r1);
    GeneratePromptShape(r2);
    var p := CreatePrompt(r1).value;
    SameWordAfter(p, "Generate ", r1.language, " code", r2.language, " code");
    var req := "Requirements:\n";
    assert req + r1.code == req + r1.code + "";
    assert req + r2.code == req + r2.code + "";
    SameTextBefore(p, req, r1.code, r2.code, "");
  }

  /** Equal prompts come from the same template. */
  lemma SameTemplate(r1: CodeRequest, r2: CodeRequest)
    requires r1.task in SupportedTasks && r2.task in SupportedTasks
    requires CreatePrompt(r1) == CreatePrompt(r2)
    ensures r1.task == r2.task
  {
    PromptInitial(r1);
    PromptInitial(r2);
  }

  /** Different valid requests never produce the same prompt: the prompt
      determines the task, the language and the code it was built from. */
  lemma PromptDeterminesRequest(r1: CodeRequest, r2: CodeRequest)
    requires Process(r1).Ok? && Process(r1) == Process(r2)
    ensures r1 == r2
  {
    ProcessOkIff(r1);
    ProcessOkIff(r2);
    SameTemplate(r1, r2);
    if r1.task == "debug" {
      SameDebugRequest(r1, r2);
    } else if r1.task == "correct" {
      SameCorrectRequest(r1, r2);
    } else {
      SameGenerateRequest(r1, r2);
    }
  }
}
