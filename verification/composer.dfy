/** Prompt composition: the selected template's base prompt, the trimmed
    project description under a "Project Context" header, an optional
    "Attached File" section, and a fixed closing reminder. */
module Composer {
  import opened Wrappers
  import opened Text
  import opened Templates
  import opened Attachment
  import opened Session

  const ContextHeader: string := "\n\n**Project Context:**\n"
  const AttachedFileHeader: string := "\n\n**Attached File:** "
  const AnalyzeFileLine: string :=
    "\nPlease analyze the uploaded file in conjunction with the above instructions and project context."
  const ClosingReminder: string :=
    "\n\n**Important:** Always reference the SAS Brand Guidelines (sas-brand-guidelines.pdf) in your analysis and recommendations. Ensure all suggestions align with SAS brand standards and voice guidelines."

  /** The section naming the attached file; empty when there is none. */
  function AttachmentSection(file: Option<FileDescriptor>): (r: string)
    ensures file.None? <==> r == ""
  {
    match file
    case None => ""
    case Some(f) => AttachedFileHeader + f.name + AnalyzeFileLine
  }

  /** A file's section opens with the "Attached File" header and closes with
      the line asking for analysis; the file's name sits between the two and
      can be read back from there. */
  lemma AttachmentSectionNamesFile(f: FileDescriptor)
    ensures var r := AttachmentSection(Some(f));
            && AttachedFileHeader <= r && EndsWith(r, AnalyzeFileLine)
            && |r| == |AttachedFileHeader| + |f.name| + |AnalyzeFileLine|
            && r[|AttachedFileHeader|..|r| - |AnalyzeFileLine|] == f.name
  {
    var r := AttachmentSection(Some(f));
    assert r == AttachedFileHeader + (f.name + AnalyzeFileLine);
    assert r[|AttachedFileHeader|..|r| - |AnalyzeFileLine|] == f.name;
    EndsWithAppended(AttachedFileHeader + f.name, AnalyzeFileLine);
  }

  /** The attached file's name, the only part of it the prompt shows. */
  function FileName(file: Option<FileDescriptor>): Option<string> {
    match file
    case None => None
    case Some(f) => Some(f.name)
  }

  /** Where the project context starts in a prompt built on `basePrompt`. */
  function ContextStart(basePrompt: string): nat {
    |basePrompt + ContextHeader|
  }

  /** The prompt text `generatePrompt` builds from a template's base prompt,
      the form's text and the attachment slot. */
  function ComposePrompt(basePrompt: string, projectInput: string,
                         file: Option<FileDescriptor>): (p: string)
    ensures basePrompt + ContextHeader <= p
    ensures |p| == ContextStart(basePrompt) + |Trim(projectInput)|
                   + |AttachmentSection(file)| + |ClosingReminder|
    ensures p[ContextStart(basePrompt)..ContextStart(basePrompt) + |Trim(projectInput)|]
            == Trim(projectInput)
    ensures p[ContextStart(basePrompt) + |Trim(projectInput)|..|p| - |ClosingReminder|]
            == AttachmentSection(file)
  {
    Assemble(basePrompt + ContextHeader, Trim(projectInput), AttachmentSection(file), ClosingReminder)
  }

  /** Every prompt ends with the closing reminder about the brand guidelines. */
  lemma ComposeEndsWithReminder(basePrompt: string, projectInput: string,
                                file: Option<FileDescriptor>)
    ensures EndsWith(ComposePrompt(basePrompt, projectInput, file), ClosingReminder)
  {
  }

  /** Four parts joined in order, each found back at its own position. */
  function Assemble(x: string, t: string, a: string, r: string): (p: string)
    ensures x <= p && EndsWith(p, r)
    ensures |p| == |x| + |t| + |a| + |r|
    ensures p[|x|..|x| + |t|] == t
    ensures p[|x| + |t|..|p| - |r|] == a
  {
    var p := x + t + a + r;
    assert p == (x + t + a) + r;
    assert p[|x|..|x| + |t|] == t;
    EndsWithAppended(x + t + a, r);
    p
  }

  /** The prompt depends on the description only through its trim and on the
      attachment only through its name. */
  lemma ComposeDependsOnTrimAndName(basePrompt: string, i1: string, i2: string,
                                    f1: Option<FileDescriptor>, f2: Option<FileDescriptor>)
    requires Trim(i1) == Trim(i2) && FileName(f1) == FileName(f2)
    ensures ComposePrompt(basePrompt, i1, f1) == ComposePrompt(basePrompt, i2, f2)
  {
    assert AttachmentSection(f1) == AttachmentSection(f2);
  }

  /** Whitespace around the description never shows in the prompt. */
  lemma ComposeIgnoresPadding(basePrompt: string, w1: string, input: string, w2: string,
                              file: Option<FileDescriptor>)
    requires AllWhitespace(w1) && AllWhitespace(w2)
    ensures ComposePrompt(basePrompt, w1 + input + w2, file) == ComposePrompt(basePrompt, input, file)
  {
    TrimIgnoresPadding(w1, input, w2);
    ComposeDependsOnTrimAndName(basePrompt, w1 + input + w2, input, file, file);
  }

  /** Reading back a prompt built without a file: everything between the
      context header and the closing reminder is the trimmed description. */
  function ProjectContextOf(basePrompt: string, p: string): string
    requires |p| >= ContextStart(basePrompt) + |ClosingReminder|
  {
    p[ContextStart(basePrompt)..|p| - |ClosingReminder|]
  }

  lemma ProjectContextRoundTrip(basePrompt: string, input: string)
    ensures ProjectContextOf(basePrompt, ComposePrompt(basePrompt, input, None)) == Trim(input)
  {
  }

  /** The same text can come from a description with no file and from a
      shorter description with a file, so a composed prompt does not say
      whether a file was attached. */
  lemma AttachmentNotRecoverable(basePrompt: string, brief: string, f: FileDescriptor)
    requires |brief| > 0 && Trimmed(brief)
    ensures ComposePrompt(basePrompt, brief + AttachmentSection(Some(f)), None)
         == ComposePrompt(basePrompt, brief, Some(f))
  {
    var forged := brief + AttachmentSection(Some(f));
    assert forged[0] == brief[0];
    assert forged[|forged| - 1] == AnalyzeFileLine[|AnalyzeFileLine| - 1] == '.';
    TrimOfTrimmed(forged);
    TrimOfTrimmed(brief);
    var b := basePrompt + ContextHeader;
    assert b + forged + "" + ClosingReminder == b + brief + AttachmentSection(Some(f)) + ClosingReminder;
  }

  /** What `generatePrompt` throws when `promptTemplates[selectedTask]` is
      `undefined`: the task is `null`, empty, or not a catalog key. */
  datatype GenerateError = TemplateNotFound(task: Option<string>)

  /** `generatePrompt()`. It does not consult the readiness gate; it fails
      exactly when the selected task has no template. */
  function GeneratePrompt(s: SessionState): (r: Result<string, GenerateError>)
    ensures r.Success? <==> s.selectedTask.Some? && s.selectedTask.value in TaskIds
    ensures r.Failure? ==> r.error == TemplateNotFound(s.selectedTask)
    ensures r.Success? ==>
              r.value == ComposePrompt(InitializePromptTemplates()[s.selectedTask.value].basePrompt,
                                       s.projectInput, s.uploadedFile)
  {
    match s.selectedTask
    // `promptTemplates[null]` reads the key "null", which no template has
    case None => Failure(TemplateNotFound(None))
    case Some(id) =>
      match Lookup(id)
      case None => Failure(TemplateNotFound(s.selectedTask))
      case Some(t) => Success(ComposePrompt(t.basePrompt, s.projectInput, s.uploadedFile))
  }

  /** In a well-formed session an enabled button always leads to a prompt. */
  lemma ReadyWellFormedGenerates(s: SessionState)
    requires WellFormed(s) && UpdateGenerateButton(s).enabled
    ensures GeneratePrompt(s).Success?
  {
  }

  /** Without the well-formedness the page's markup provides, the gate is not
      enough: a button naming no template enables generation, which then fails. */
  lemma ReadyWithUnknownTaskFails(task: string, text: string)
    requires task != "" && task !in TaskIds
    requires Trimmed(text) && |text| > MinDetailLength
    ensures UpdateGenerateButton(SelectTask(Initial(text), Some(task))).enabled
    ensures GeneratePrompt(SelectTask(Initial(text), Some(task))) == Failure(TemplateNotFound(Some(task)))
  {
    TrimOfTrimmed(text);
  }

  /** After a reset there is nothing to generate from. */
  lemma GenerateAfterResetFails(s: SessionState)
    ensures GeneratePrompt(ResetForm(s)) == Failure(TemplateNotFound(None))
  {
  }

  /** Copy-writing task, a description such as "Launch email for new
      analytics product" and no file: the template, the description and the
      reminder, with no file section. */
  lemma CopyWritingExample(s: SessionState, text: string)
    requires s.uploadedFile == None && Trimmed(text)
    ensures GeneratePrompt(SetProjectInput(SelectTask(s, Some(CopyWriting)), text))
         == Success(CopyWritingPrompt + ContextHeader + text + ClosingReminder)
  {
    GenerateCopyWriting(SetProjectInput(SelectTask(s, Some(CopyWriting)), text));
    ComposeTrimmed(CopyWritingPrompt, text, None);
  }

  /** A copy-writing session generates from the copy-writing base prompt. */
  lemma GenerateCopyWriting(s: SessionState)
    requires s.selectedTask == Some(CopyWriting)
    ensures GeneratePrompt(s) == Success(ComposePrompt(CopyWritingPrompt, s.projectInput, s.uploadedFile))
  {
  }

  /** The prompt for a description that needs no trimming, spelled out. */
  lemma ComposeTrimmed(basePrompt: string, text: string, file: Option<FileDescriptor>)
    requires Trimmed(text)
    ensures file.None? ==>
              ComposePrompt(basePrompt, text, file) == basePrompt + ContextHeader + text + ClosingReminder
    ensures file.Some? ==>
              ComposePrompt(basePrompt, text, file)
              == basePrompt + ContextHeader + text + AttachedFileHeader + file.value.name
                 + AnalyzeFileLine + ClosingReminder
  {
    TrimOfTrimmed(text);
    var x := basePrompt + ContextHeader + text;
    if file.None? {
      assert x + "" + ClosingReminder == x + ClosingReminder;
    } else {
      Flatten(x, AttachedFileHeader, file.value.name, AnalyzeFileLine, ClosingReminder);
    }
  }

  lemma Flatten(x: string, a: string, n: string, l: string, r: string)
    ensures x + (a + n + l) + r == x + a + n + l + r
  {
  }

  /** The same request with a `brief.pdf` attached adds a section naming it. */
  lemma CopyWritingWithFileExample(s: SessionState, text: string)
    requires Trimmed(text)
    ensures GeneratePrompt(HandleFileUpload(SetProjectInput(SelectTask(s, Some(CopyWriting)), text),
                                            FileDescriptor("brief.pdf", 2048, "application/pdf")).session)
         == Success(CopyWritingPrompt + ContextHeader + text
                    + AttachedFileHeader + "brief.pdf" + AnalyzeFileLine + ClosingReminder)
  {
    AcceptedTypeExamples();
    var brief := FileDescriptor("brief.pdf", 2048, "application/pdf");
    var s1 := SetProjectInput(SelectTask(s, Some(CopyWriting)), text);
    var s2 := HandleFileUpload(s1, brief).session;
    assert s2 == SessionState(Some(CopyWriting), text, Some(brief));
    GenerateCopyWriting(s2);
    ComposeTrimmed(CopyWritingPrompt, text, Some(brief));
  }
}
