/**
  The request validator of the code assistant service (`validate_request`
  in main.py): a `(code, language, task)` request is checked against a
  non-blank rule and two fixed allow-lists, in that order, and the first
  check that fails decides the error reported.
 */
module Validator {
  import opened Results
  import opened Text

  /** The body of a `POST /api/code` request. */
  datatype CodeRequest = CodeRequest(code: string, language: string, task: string)

  /** The languages the service accepts, in the order it lists them. */
  const SupportedLanguages: seq<string> :=
    ["python", "javascript", "typescript", "java", "cpp", "rust", "go"]

  /** The tasks the service accepts, in the order it lists them. */
  const SupportedTasks: seq<string> := ["debug", "correct", "generate"]

  /** The three ways a request can be rejected, each with the detail text
      the client receives. */
  datatype ValidationError =
    | EmptyCode(detail: string)
    | UnsupportedLanguage(detail: string)
    | UnsupportedTask(detail: string)

  const EmptyCodeDetail: string := "Code cannot be empty"
  const LanguagesDetailPrefix: string := "Unsupported language. Supported languages are: "
  const TasksDetailPrefix: string := "Unsupported task. Supported tasks are: "

  /** The separator the allow-lists are joined with in error details. */
  const ListSeparator: string := ", "

  /** `validate_request`: blank code first, then the language, then the
      task; `Pass` stands for Python's `return True`. */
  function ValidateRequest(request: CodeRequest): Outcome<ValidationError> {
    if Strip(request.code) == [] then
      Fail(EmptyCode(EmptyCodeDetail))
    else if request.language !in SupportedLanguages then
      Fail(UnsupportedLanguage(LanguagesDetailPrefix + Join(SupportedLanguages, ListSeparator)))
    else if request.task !in SupportedTasks then
      Fail(UnsupportedTask(TasksDetailPrefix + Join(SupportedTasks, ListSeparator)))
    else
      Pass
  }

  /** The allow-lists have the sizes `/api/health` reports, and no entry
      is listed twice. */
  lemma AllowListSizes()
    ensures |SupportedLanguages| == 7 && |SupportedTasks| == 3
    ensures forall i, j :: 0 <= i < j < |SupportedLanguages| ==> SupportedLanguages[i] != SupportedLanguages[j]
    ensures forall i, j :: 0 <= i < j < |SupportedTasks| ==> SupportedTasks[i] != SupportedTasks[j]
  {
  }

  /** No supported language contains a space or a comma. */
  lemma LanguagesAvoidSpaceAndComma()
    ensures forall i :: 0 <= i < |SupportedLanguages| ==>
      Avoids(SupportedLanguages[i], ' ') && Avoids(SupportedLanguages[i], ',')
  {
  }

  /** The language allow-list joined with ", ", as its error detail shows
      it: every language in list order, one separator between neighbours. */
  lemma JoinedLanguages()
    ensures Join(SupportedLanguages, ", ") == "python" + ", " + "javascript" + ", "
      + "typescript" + ", " + "java" + ", " + "cpp" + ", " + "rust" + ", " + "go"
  {
  }

  /** The task allow-list joined with ", ", as its error detail shows it. */
  lemma JoinedTasks()
    ensures Join(SupportedTasks, ", ") == "debug" + ", " + "correct" + ", " + "generate"
  {
  }

  /** Blank code (empty or whitespace only) is always reported as
      `EmptyCode`, whatever the language and task, and only blank code is. */
  lemma EmptyCodeIff(request: CodeRequest)
    ensures ValidateRequest(request) == Fail(EmptyCode("Code cannot be empty"))
      <==> IsBlank(request.code)
    ensures ValidateRequest(request).Fail? && ValidateRequest(request).error.EmptyCode?
      <==> IsBlank(request.code)
  {
  }

  /** Non-blank code in an unsupported language is reported as
      `UnsupportedLanguage`, whatever the task, and no other request is. */
  lemma UnsupportedLanguageIff(request: CodeRequest)
    ensures ValidateRequest(request).Fail? && ValidateRequest(request).error.UnsupportedLanguage?
      <==> !IsBlank(request.code) && request.language !in SupportedLanguages
  {
  }

  /** The `UnsupportedLanguage` detail lists all seven languages in order. */
  lemma UnsupportedLanguageDetail(request: CodeRequest)
    requires !IsBlank(request.code) && request.language !in SupportedLanguages
    ensures ValidateRequest(request) == Fail(UnsupportedLanguage(
      "Unsupported language. Supported languages are: " + ("python" + ", " + "javascript" + ", "
      + "typescript" + ", " + "java" + ", " + "cpp" + ", " + "rust" + ", " + "go")))
  {
    StripEmptyIffBlank(request.code);
    JoinedLanguages();
  }

  /** Non-blank code in a supported language with an unsupported task is
      reported as `UnsupportedTask`, and no other request is. */
  lemma UnsupportedTaskIff(request: CodeRequest)
    ensures ValidateRequest(request).Fail? && ValidateRequest(request).error.UnsupportedTask?
      <==> (!IsBlank(request.code) && request.language in SupportedLanguages
            && request.task !in SupportedTasks)
  {
  }

  /** The `UnsupportedTask` detail lists the three tasks in order. */
  lemma UnsupportedTaskDetail(request: CodeRequest)
    requires !IsBlank(request.code) && request.language in SupportedLanguages
    requires request.task !in SupportedTasks
    ensures ValidateRequest(request) == Fail(UnsupportedTask(
      "Unsupported task. Supported tasks are: " + ("debug" + ", " + "correct" + ", " + "generate")))
  {
    StripEmptyIffBlank(request.code);
    JoinedTasks();
  }

  /** A request passes exactly when its code has a non-whitespace
      character, its language is supported and its task is supported. */
  lemma ValidIff(request: CodeRequest)
    ensures ValidateRequest(request) == Pass <==>
      && (exists i :: 0 <= i < |request.code| && !IsWhitespace(request.code[i]))
      && request.language in SupportedLanguages
      && request.task in SupportedTasks
  {
  }

  /** Splitting the joined language list at ", " gives the list back. */
  lemma LanguagesSplitBack()
    ensures SplitOn(Join(SupportedLanguages, ListSeparator), ListSeparator) == SupportedLanguages
  {
    LanguagesAvoidSpaceAndComma();
    SplitJoin(SupportedLanguages, ListSeparator);
  }

  /** Splitting the joined task list at ", " gives the list back. */
  lemma TasksSplitBack()
    ensures SplitOn(Join(SupportedTasks, ListSeparator), ListSeparator) == SupportedTasks
  {
    assert forall i :: 0 <= i < |SupportedTasks| ==> Avoids(SupportedTasks[i], ',');
    SplitJoin(SupportedTasks, ListSeparator);
  }

  /** A detail made of `prefix` and a joined list that splits back into
      `xs` starts with `prefix`, and what follows splits back into `xs`. */
  lemma DetailReadsBack(d: string, prefix: string, xs: seq<string>)
    requires d == prefix + Join(xs, ListSeparator)
    requires SplitOn(Join(xs, ListSeparator), ListSeparator) == xs
    ensures StartsWith(d, prefix)
    ensures SplitOn(d[|prefix|..], ListSeparator) == xs
  {
  }

  /** The language list in the `UnsupportedLanguage` detail can be read
      back: splitting what follows the fixed prefix at ", " gives the list. */
  lemma LanguageDetailListsLanguages(request: CodeRequest)
    requires ValidateRequest(request).Fail? && ValidateRequest(request).error.UnsupportedLanguage?
    ensures var d := ValidateRequest(request).error.detail;
      && StartsWith(d, LanguagesDetailPrefix)
      && SplitOn(d[|LanguagesDetailPrefix|..], ListSeparator) == SupportedLanguages
  {
    LanguagesSplitBack();
    DetailReadsBack(ValidateRequest(request).error.detail, LanguagesDetailPrefix, SupportedLanguages);
  }

  /** The task list in the `UnsupportedTask` detail can be read back the
      same way. */
  lemma TaskDetailListsTasks(request: CodeRequest)
    requires ValidateRequest(request).Fail? && ValidateRequest(request).error.UnsupportedTask?
    ensures var d := ValidateRequest(request).error.detail;
      && StartsWith(d, TasksDetailPrefix)
      && SplitOn(d[|TasksDetailPrefix|..], ListSeparator) == SupportedTasks
  {
    TasksSplitBack();
    DetailReadsBack(ValidateRequest(request).error.detail, TasksDetailPrefix, SupportedTasks);
  }
}
