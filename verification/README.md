# SAS Prompt Generator: a Dafny model of the prompt-assembly core

The SAS Prompt Generator is a single browser script. The user picks one of
four task templates and describes a project in a text area. They may attach
one file. The script then assembles a prompt. This project models the
logic beneath the page wiring as an immutable session record plus pure
functions:

- `Templates`: the four-entry catalog of task templates.
- `Attachment`: the upload validator. It checks the MIME-prefix allow-list
  (with a `.figma` name escape) first, then the 10 MiB size ceiling.
- `Session`: the session state (selected task, project text, single
  attachment slot). It holds the user actions that change the state
  (`selectTask`, typing, `useExample`, `handleFileUpload`, `removeFile`,
  `resetForm`) and the generate button's readiness gate.
- `Composer`: `generatePrompt`. It concatenates the template's base prompt,
  the trimmed project text, an optional attached-file section and a fixed
  closing reminder.
- `KeyboardFocus`: the wrap-around index arithmetic behind arrow-key focus
  over the task buttons.
- `Text`: JavaScript's `trim`, `startsWith`, `endsWith` and
  `replace(/"/g, '')`.
- `Wrappers`: `Option` (for `null`/`undefined`) and `Result` (for a thrown
  error).

The DOM becomes parameters. The text area's value is a field of the session.
The `data-task` of a clicked button is an argument. So are the card text,
the card's `data-example` and the page's task buttons for `useExample`.
`generatePrompt` returns the prompt instead of writing it into the page.

The model follows the code in these places:

- `selectTask` stores any `data-task` value and never checks that it names
  a template. The invariant "the selected task is a catalog key" holds
  only when the page's buttons carry catalog ids. `Session.WellFormed`
  states that invariant and `Session.WellFormedPreserved` proves that it
  is kept.
- Readiness tests the JavaScript truthiness of `selectedTask`, not just
  whether it is present. An empty `data-task` counts as no task.
- `generatePrompt` never consults the readiness gate. It fails, as the
  TypeError the script would throw, exactly when the selected task is not a
  catalog key. `null` is looked up as the key `"null"`.

## Model

| member | source | states |
|---|---|---|
| Text.Trim | script.js:301 | the trimmed text starts and ends with non-whitespace, and every non-whitespace character of the input survives |
| Text.TrimSplit | script.js:318 | the input is some whitespace, then its trim, then more whitespace |
| Text.TrimUnique | script.js:318 | trimming any whitespace-padded trimmed string gives back exactly that string |
| Text.TrimIgnoresPadding | script.js:301 | adding whitespace before or after a string never changes its trim |
| Text.TrimIdempotent | script.js:318 | trimming twice equals trimming once |
| Text.EndsWithMeansSuffix | script.js:269 | the `endsWith` test holds exactly when the string is some stem followed by the suffix |
| Text.StartsWith | script.js:269 | the character-by-character `startsWith` holds exactly when the prefix is a prefix of the string |
| Text.RemoveChar | script.js:189 | removing `"` leaves no `"`, and every other character keeps its number of occurrences |
| Text.RemoveCharConcat | script.js:189 | quote removal works piece by piece, so the characters that remain keep their order |
| Text.RemoveCharIdentity | script.js:189 | quote removal leaves a text unchanged exactly when the text contains no `"` |
| Text.RemoveCharIdempotent | script.js:189 | removing quotes a second time changes nothing |
| Templates.InitializePromptTemplates | script.js:13-147 | the catalog has exactly the keys brand-review, copy-writing, design-feedback and creative-concepts, with the source's names and descriptions |
| Templates.Lookup | script.js:317 | a lookup finds a template exactly for the four task ids, and it is the catalog's entry |
| Templates.CatalogInjective | script.js:13-147 | different tasks have different names and different base prompts |
| Attachment.AnyPrefixOf | script.js:269 | the `some(startsWith)` scan is true exactly when some listed prefix begins the MIME type |
| Attachment.IsValidTypeMeansAllowed | script.js:261-269 | the script's type check accepts exactly the files that have an allow-listed MIME prefix or a name ending in `.figma` |
| Attachment.Validate | script.js:259-280 | accepted iff the type is allowed and the size is at most 10 MiB; a disallowed type is always the type error; the size error only for allowed types |
| Attachment.TypeCheckedBeforeSize | script.js:269-280 | a file that fails both checks is reported with the type error |
| Attachment.SizeBoundary | script.js:276-280 | for any allowed type, exactly 10·1024·1024 bytes is accepted, and one byte more is rejected as too large |
| Attachment.AcceptedTypeExamples | script.js:261-269 | image/png, application/pdf and text/plain are accepted, and so is a `.figma` name with an empty MIME type |
| Attachment.RejectedTypeExample | script.js:261-274 | application/zip is rejected with the type error |
| Session.Initial | script.js:3-11 | the constructor starts with no task and no file |
| Session.UpdateGenerateButton | script.js:299-313 | enabled iff a truthy task is selected and the trimmed text is longer than 10; "Select a task type above" iff there is no task; "Describe your project in more detail" iff there is a task but the text is too short |
| Session.ReadinessIgnoresPadding | script.js:301-303 | whitespace around the project text never changes the button |
| Session.ReadinessBoundary | script.js:303 | with a task selected, 10 characters keep the button disabled and 11 enable it |
| Session.SelectTask | script.js:177-186 | the button's `data-task` becomes the selected task unchecked; the text and the file are untouched |
| Session.SetProjectInput | script.js:174 | typing replaces the text verbatim; the task and the file are untouched |
| Session.ExampleTasksAreCatalogTasks | script.js:194-199 | every example type maps to a catalog task |
| Session.UseExample | script.js:188-208 | the text becomes the card text without `"`; the file is kept; when the card's type is mapped and a button for the mapped task exists the task becomes that task, and otherwise it is kept |
| Session.UseExampleSelections | script.js:193-206 | campaign selects brand-review; website, social and email select copy-writing; an unmapped or missing type keeps the task |
| Session.HandleFileUpload | script.js:259-290 | a rejection leaves the session unchanged and reports the validator's error; acceptance happens iff the file is acceptable, fills the slot and names the file |
| Session.NoticeText | script.js:272-289 | a rejection shows its fixed message, one for the type and one for the size; a success line quotes the file name, which can be read back from between its opening and closing text |
| Session.NoticeTextInjective | script.js:272-289 | different notices never show the same text: the two rejection messages differ, neither is a success line, and success lines differ when the file names differ |
| Session.UploadNotification | script.js:271-289 | an upload shows the type message for a disallowed type, the size message for an allowed but oversized file, and otherwise the success line naming the file |
| Session.RemoveFile | script.js:292-297 | the slot is emptied and the task and text are untouched |
| Session.RemoveUndoesUpload | script.js:282-293 | an upload followed by a removal ends where a removal alone would |
| Session.LastUploadWins | script.js:282 | a second accepted upload replaces the first |
| Session.ResetForm | script.js:400-419 | reset leaves no task, empty text and no file |
| Session.ResetDisablesGenerate | script.js:400-419 | after a reset the button is disabled and reads "Select a task type above" |
| Session.FileDoesNotAffectReadiness | script.js:299-303 | uploading or removing a file never changes the button |
| Session.WellFormedPreserved | script.js:177-297 | when the buttons carry catalog ids, every action keeps the selected task a catalog key and the stored file acceptable |
| Composer.AttachmentSection | script.js:325-330 | the file section is empty exactly when no file is attached |
| Composer.AttachmentSectionNamesFile | script.js:325-330 | a file's section is the "Attached File" header, the file's name and the analyze line, and the name reads back from between them |
| Composer.ComposePrompt | script.js:316-334 | the prompt begins with the base prompt and the context header, then the trimmed text, then the file section, then as many characters as the closing reminder has |
| Composer.ComposeEndsWithReminder | script.js:332-334 | every prompt ends with the closing reminder about the SAS brand guidelines |
| Composer.ComposeDependsOnTrimAndName | script.js:318-329 | two inputs with the same trim and the same file name give the same prompt |
| Composer.ComposeIgnoresPadding | script.js:318-323 | whitespace around the project text never reaches the prompt |
| Composer.ProjectContextRoundTrip | script.js:320-323 | without a file, the text between the context header and the reminder is exactly the trimmed input |
| Composer.AttachmentNotRecoverable | script.js:320-329 | a text that spells out a file section gives the same prompt as a real attachment, so the prompt alone does not show whether a file was attached |
| Composer.GeneratePrompt | script.js:316-336 | succeeds exactly when the selected task is a catalog key, with that template's composed prompt; otherwise fails naming the task |
| Composer.ReadyWellFormedGenerates | script.js:303-317 | in a well-formed session, an enabled button always leads to a prompt |
| Composer.ReadyWithUnknownTaskFails | script.js:183-317 | a non-empty unknown `data-task` with enough text enables the button, yet generation fails |
| Composer.GenerateAfterResetFails | script.js:400-413 | after a reset, generation fails for want of a task |
| Composer.CopyWritingExample | script.js:316-334 | copy-writing plus a trimmed text and no file gives the template, the context header, the text and the reminder, with no file section |
| Composer.CopyWritingWithFileExample | script.js:316-334 | the same request with `brief.pdf` attached also has the section naming `brief.pdf` before the reminder |
| KeyboardFocus.IndexOf | script.js:507 | the first position holding the element, or -1 exactly when it is absent |
| KeyboardFocus.NextIndex | script.js:508 | the next index stays in range, is one more, and wraps from the last to 0 |
| KeyboardFocus.PrevIndex | script.js:515 | the previous index stays in range, is one less, and wraps from 0 to the last |
| KeyboardFocus.NextPrevInverse | script.js:505-517 | next then previous, and previous then next, return to the starting index |
| KeyboardFocus.NextTimesIsModularAdvance | script.js:505-510 | k presses of "next" advance the index by k modulo the number of buttons |
| KeyboardFocus.FullCycleReturns | script.js:505-510 | as many presses as there are buttons return to the start |
| KeyboardFocus.FocusNextTask | script.js:505-510 | focus moves to the button after the current one (the first occurrence of it), and from the last button to the first |
| KeyboardFocus.FocusPreviousTask | script.js:512-517 | focus moves to the button before the current one (the first occurrence of it), and from the first button to the last |
| KeyboardFocus.FocusRoundTrip | script.js:505-517 | moving focus forward then back, or back then forward, returns to the same button |
| KeyboardFocus.FocusWraps | script.js:505-517 | focus moves from the last button to the first and from the first to the last |

## Left out

- Template wording: the four base prompts are distinct placeholder strings. Their multi-paragraph text is content, and no operation inspects it.
- DOM access, event-listener registration, drag-and-drop, scrolling and display toggling are left out. They are presentation only. Their inputs become parameters.
- Copying to the clipboard (`copyPrompt`, `fallbackCopyToClipboard`) is left out. It calls asynchronous browser APIs and sets timers.
- `showNotification` styling and timers are left out. The notification's text is modelled by `Session.NoticeText`.
- ARIA attributes, the live region and `announceUpdate` are left out. They are accessibility markup with no logic.
- The keydown dispatch is left out as an operation. The arrow keys run `KeyboardFocus.FocusNextTask` or `KeyboardFocus.FocusPreviousTask`. Enter and Space click the focused button, which is `Session.SelectTask`.
- Strings are sequences of Unicode scalar values. JavaScript's UTF-16 code-unit `length` (a character outside the BMP counts as 2) is not modelled.
- Session.UseExample: `taskMapping[exampleType]` on a plain object also finds inherited names such as `constructor`. The model's table has only the four own keys. An inherited name yields a selector that matches no task button, so the outcome is the same.
- Composer.GeneratePrompt: a `data-task` naming an inherited property of the template object (such as `constructor`) would compose `undefined` into the prompt instead of throwing. The model treats such a task as not found.
- KeyboardFocus.NextIndex and KeyboardFocus.PrevIndex require the current index to be in range. The script always passes a focused task button, which is in the list.
