/** The generator's session: the selected task, the project description typed
    into the form, and the single attachment slot, together with the user
    actions that change them and the readiness gate on the generate button. */
module Session {
  import opened Wrappers
  import opened Text
  import opened Templates
  import opened Attachment

  /** `selectedTask` is `None` for `null` (and for a button without a
      `data-task`); `projectInput` is the form's text as typed. */
  datatype SessionState = SessionState(
    selectedTask: Option<string>,
    projectInput: string,
    uploadedFile: Option<FileDescriptor>)

  /** The session right after construction: no task, no file, and whatever
      text the form already holds. */
  function Initial(projectInput: string): (s: SessionState)
    ensures s.selectedTask == None && s.uploadedFile == None
    ensures s.projectInput == projectInput
  {
    SessionState(None, projectInput, None)
  }

  // ---------------------------------------------------------------------
  // Readiness gate

  /** Descriptions whose trimmed length is at most this are too short. */
  const MinDetailLength: nat := 10

  const ReadyLabel: string := "Generate SAS-Compliant Prompt"
  const SelectTaskLabel: string := "Select a task type above"
  const MoreDetailLabel: string := "Describe your project in more detail"

  /** JavaScript truthiness of `selectedTask`: present and not the empty string. */
  predicate HasTask(task: Option<string>) {
    task.Some? && task.value != ""
  }

  /** Whether the generate button is enabled, and the text it shows. */
  datatype ButtonState = ButtonState(enabled: bool, text: string)

  /** `updateGenerateButton`. The label is one of exactly three messages and
      the "select a task" one takes precedence over the "more detail" one. */
  function UpdateGenerateButton(s: SessionState): (b: ButtonState)
    ensures b.enabled <==> HasTask(s.selectedTask) && |Trim(s.projectInput)| > MinDetailLength
    ensures b.text == ReadyLabel <==> b.enabled
    ensures b.text == SelectTaskLabel <==> !HasTask(s.selectedTask)
    ensures b.text == MoreDetailLabel <==>
              HasTask(s.selectedTask) && |Trim(s.projectInput)| <= MinDetailLength
  {
    var input := Trim(s.projectInput);
    var isValid := HasTask(s.selectedTask) && |input| > MinDetailLength;
    if isValid then ButtonState(true, ReadyLabel)
    else if !HasTask(s.selectedTask) then ButtonState(false, SelectTaskLabel)
    else ButtonState(false, MoreDetailLabel)
  }

  /** The gate sees the description only through its trim: padding it with
      whitespace never changes the button. */
  lemma ReadinessIgnoresPadding(s: SessionState, w1: string, w2: string)
    requires AllWhitespace(w1) && AllWhitespace(w2)
    ensures UpdateGenerateButton(s.(projectInput := w1 + s.projectInput + w2))
         == UpdateGenerateButton(s)
  {
    TrimIgnoresPadding(w1, s.projectInput, w2);
  }

  /** Ten non-blank characters are not enough; eleven are. */
  lemma ReadinessBoundary(task: string)
    requires task != ""
    ensures !UpdateGenerateButton(SessionState(Some(task), "0123456789", None)).enabled
    ensures UpdateGenerateButton(SessionState(Some(task), "0123456789a", None)).enabled
  {
    var ten, eleven := "0123456789", "0123456789a";
    assert Trimmed(ten) && Trimmed(eleven);
    TrimOfTrimmed(ten);
    TrimOfTrimmed(eleven);
  }

  // ---------------------------------------------------------------------
  // Mutators

  /** `selectTask(button)`: stores the button's `data-task` as is, with no
      check that it names a template. */
  function SelectTask(s: SessionState, buttonTask: Option<string>): (s': SessionState)
    ensures s'.selectedTask == buttonTask
    ensures s'.projectInput == s.projectInput && s'.uploadedFile == s.uploadedFile
  {
    s.(selectedTask := buttonTask)
  }

  /** Typing into the description field replaces the text verbatim. */
  function SetProjectInput(s: SessionState, text: string): (s': SessionState)
    ensures s'.projectInput == text
    ensures s'.selectedTask == s.selectedTask && s'.uploadedFile == s.uploadedFile
  {
    s.(projectInput := text)
  }

  /** The example cards' task table. */
  const ExampleTaskMapping: map<string, string> := map[
    "campaign" := BrandReview,
    "website" := CopyWriting,
    "social" := CopyWriting,
    "email" := CopyWriting
  ]

  /** Every example maps to a catalog task. */
  lemma ExampleTasksAreCatalogTasks(example: string)
    requires example in ExampleTaskMapping
    ensures ExampleTaskMapping[example] in TaskIds
  {
  }

  /** `useExample(card)`. `cardText` is the card paragraph's text,
      `exampleType` its `data-example`, and `taskButtons` the `data-task`
      values present on the page: a mapped task is selected only when an
      element carrying it exists. */
  function UseExample(s: SessionState, cardText: string, exampleType: Option<string>,
                      taskButtons: seq<string>): (s': SessionState)
    ensures s'.projectInput == RemoveChar(cardText, '"')
    ensures s'.uploadedFile == s.uploadedFile
    ensures s'.selectedTask != s.selectedTask ==>
              exampleType.Some? && exampleType.value in ExampleTaskMapping
              && ExampleTaskMapping[exampleType.value] in taskButtons
              && s'.selectedTask == Some(ExampleTaskMapping[exampleType.value])
    ensures exampleType.Some? && exampleType.value in ExampleTaskMapping
            && ExampleTaskMapping[exampleType.value] in taskButtons
            ==> s'.selectedTask == Some(ExampleTaskMapping[exampleType.value])
  {
    var s1 := SetProjectInput(s, RemoveChar(cardText, '"'));
    if exampleType.Some? && exampleType.value in ExampleTaskMapping
       && ExampleTaskMapping[exampleType.value] in taskButtons
    then SelectTask(s1, Some(ExampleTaskMapping[exampleType.value]))
    else s1
  }

  /** Which task each example card picks on a page that shows every catalog task. */
  lemma UseExampleSelections(s: SessionState, cardText: string)
    ensures UseExample(s, cardText, Some("campaign"), TaskIds).selectedTask == Some(BrandReview)
    ensures UseExample(s, cardText, Some("website"), TaskIds).selectedTask == Some(CopyWriting)
    ensures UseExample(s, cardText, Some("social"), TaskIds).selectedTask == Some(CopyWriting)
    ensures UseExample(s, cardText, Some("email"), TaskIds).selectedTask == Some(CopyWriting)
    ensures UseExample(s, cardText, Some("blog"), TaskIds).selectedTask == s.selectedTask
    ensures UseExample(s, cardText, None, TaskIds).selectedTask == s.selectedTask
  {
    assert "blog" !in ExampleTaskMapping;
  }

  /** What `handleFileUpload` leaves behind: the session and the notification. */
  datatype UploadOutcome = UploadOutcome(session: SessionState, notice: Notice)

  datatype Notice = Uploaded(fileName: string) | Rejected(error: UploadError)

  const UploadedOpening: string := "File \""
  const UploadedClosing: string := "\" uploaded successfully!"

  /** The text `showNotification` displays for a notice: the file's name
      quoted inside the success line, or the rejection's fixed message. The
      file name can be read back from a success text. */
  function NoticeText(n: Notice): (m: string)
    ensures n.Rejected? && n.error == UnsupportedType ==>
              m == "Please upload an image, PDF, document, or text file."
    ensures n.Rejected? && n.error == FileTooLarge ==> m == "File size must be less than 10MB."
    ensures n.Uploaded? ==>
              && UploadedOpening <= m && EndsWith(m, UploadedClosing)
              && |m| == |UploadedOpening| + |n.fileName| + |UploadedClosing|
              && m[|UploadedOpening|..|m| - |UploadedClosing|] == n.fileName
  {
    match n
    case Uploaded(name) =>
      var m := UploadedOpening + name + UploadedClosing;
      assert m == UploadedOpening + (name + UploadedClosing);
      assert m[|UploadedOpening|..|m| - |UploadedClosing|] == name;
      EndsWithAppended(UploadedOpening + name, UploadedClosing);
      m
    case Rejected(UnsupportedType) => "Please upload an image, PDF, document, or text file."
    case Rejected(FileTooLarge) => "File size must be less than 10MB."
  }

  /** Different notices never show the same text: each rejection has its own
      message, neither looks like a success line, and two success lines
      differ exactly when the file names do. */
  lemma NoticeTextInjective(n1: Notice, n2: Notice)
    requires NoticeText(n1) == NoticeText(n2)
    ensures n1 == n2
  {
  }

  /** `handleFileUpload(file)`: a rejected file leaves the session as it was;
      an accepted one takes the single slot, replacing any earlier file. */
  function HandleFileUpload(s: SessionState, f: FileDescriptor): (r: UploadOutcome)
    ensures r.notice.Uploaded? <==> Acceptable(f)
    ensures r.notice.Uploaded? ==>
              r.session == s.(uploadedFile := Some(f)) && r.notice.fileName == f.name
    ensures r.notice.Rejected? ==> r.session == s && Some(r.notice.error) == Validate(f)
  {
    match Validate(f)
    case Some(e) => UploadOutcome(s, Rejected(e))
    case None => UploadOutcome(s.(uploadedFile := Some(f)), Uploaded(f.name))
  }

  /** The notification an upload shows: the validator's message for a
      rejected file, or the success line naming an accepted one. */
  lemma UploadNotification(s: SessionState, f: FileDescriptor)
    ensures Validate(f) == Some(UnsupportedType) ==>
              NoticeText(HandleFileUpload(s, f).notice) == "Please upload an image, PDF, document, or text file."
    ensures Validate(f) == Some(FileTooLarge) ==>
              NoticeText(HandleFileUpload(s, f).notice) == "File size must be less than 10MB."
    ensures Validate(f) == None ==>
              NoticeText(HandleFileUpload(s, f).notice) == UploadedOpening + f.name + UploadedClosing
  {
  }

  /** `removeFile()`: empties the attachment slot and nothing else. */
  function RemoveFile(s: SessionState): (s': SessionState)
    ensures s'.uploadedFile == None
    ensures s'.selectedTask == s.selectedTask && s'.projectInput == s.projectInput
  {
    s.(uploadedFile := None)
  }

  /** Removing after an upload ends where removing alone would, whether the
      upload was accepted or not. */
  lemma RemoveUndoesUpload(s: SessionState, f: FileDescriptor)
    ensures RemoveFile(HandleFileUpload(s, f).session) == RemoveFile(s)
  {
  }

  /** The last accepted upload wins. */
  lemma LastUploadWins(s: SessionState, f: FileDescriptor, g: FileDescriptor)
    requires Acceptable(g)
    ensures HandleFileUpload(HandleFileUpload(s, f).session, g).session.uploadedFile == Some(g)
  {
  }

  /** `resetForm()`: no task, empty description, no file. */
  function ResetForm(s: SessionState): (s': SessionState)
    ensures s'.selectedTask == None && s'.projectInput == "" && s'.uploadedFile == None
  {
    RemoveFile(s.(selectedTask := None, projectInput := ""))
  }

  /** After a reset the button is disabled and asks for a task. */
  lemma ResetDisablesGenerate(s: SessionState)
    ensures UpdateGenerateButton(ResetForm(s)) == ButtonState(false, SelectTaskLabel)
  {
  }

  /** Attaching or removing a file never changes the generate button. */
  lemma FileDoesNotAffectReadiness(s: SessionState, f: FileDescriptor)
    ensures UpdateGenerateButton(HandleFileUpload(s, f).session) == UpdateGenerateButton(s)
    ensures UpdateGenerateButton(RemoveFile(s)) == UpdateGenerateButton(s)
  {
  }

  // ---------------------------------------------------------------------
  // Session invariant

  /** Every session the page can reach when its task buttons carry catalog
      ids: any selected task is a catalog key and any stored file passed
      validation. */
  ghost predicate WellFormed(s: SessionState) {
    && (s.selectedTask.Some? ==> s.selectedTask.value in TaskIds)
    && (s.uploadedFile.Some? ==> Acceptable(s.uploadedFile.value))
  }

  /** A page whose task buttons all name catalog templates. */
  predicate CatalogButtons(taskButtons: seq<string>) {
    forall k :: 0 <= k < |taskButtons| ==> taskButtons[k] in TaskIds
  }

  /** Each user action keeps the session well formed. */
  lemma WellFormedPreserved(s: SessionState, text: string, f: FileDescriptor,
                            cardText: string, exampleType: Option<string>,
                            taskButtons: seq<string>, k: nat)
    requires WellFormed(s) && CatalogButtons(taskButtons) && k < |taskButtons|
    ensures WellFormed(Initial(text))
    ensures WellFormed(SelectTask(s, Some(taskButtons[k])))
    ensures WellFormed(SetProjectInput(s, text))
    ensures WellFormed(UseExample(s, cardText, exampleType, taskButtons))
    ensures WellFormed(HandleFileUpload(s, f).session)
    ensures WellFormed(RemoveFile(s))
    ensures WellFormed(ResetForm(s))
  {
  }
}
