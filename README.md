# LangLab rhetorical-analysis classroom, modelled in Dafny

LangLab is a classroom web application for rhetorical analysis. Teachers create classes,
which students join with a six-character code. Teachers then post reading assignments. A
student first answers the SPACECAT questions about the rhetorical situation. The student
then annotates passages of the text with a rhetorical verb and a commentary, builds a
thesis from two of those verbs, builds body paragraphs from annotations (claim, evidence
and commentary), and finally orders and submits the essay. Teachers follow progress per
assignment and review every student's annotations as a heatmap over the text.

This project models the logic of those screens: one Dafny module per source component.
Screens that keep state are classes whose methods update that state. Pure rules are
functions, with lemmas about them.

- **Shared modules**
  - `Docs` holds the records and the document store. A collection is a map from document
    id to document, and a document is a map from field name to value. A `merge: true`
    write is a field-wise override, and `arrayUnion` is a set insert.
  - `Js` gives the JavaScript string and array behaviour the code relies on: `trim` over
    `\s`, `slice`, `substring`, `split(' ')[0]`, ASCII case mapping, `Array.from(new
    Set(...))`, `filter`, `find` and `map`.
  - `Sorting` is `Array.prototype.sort` with a numeric comparator, as a stable sort by
    an integer key.
- **Reading and annotating**
  - `TextReader` covers the two-tap word selection of touch mode, the whitespace
    tokeniser and the chunker that draws highlights. It also covers SPACECAT
    validation and saving, editing and cancelling annotations.
  - `RavSelector` is the verb/commentary pop-up. `RavSelector.Shown` states that the
    pop-up renders only when it has a position.
  - `SpacecatModal` is the eight-answer form.
- **Writing**
  - `ThesisPage` and `ThesisBuilder` are the two thesis editors, including the
    inflection of verbs (`toGerund`).
  - `ParagraphBuilder` and `ParagraphPage` cover the sentence counters, the
    commentary-to-evidence ratio gate and saving by append or replace.
  - `EssayAssembler` and `EssayPage` cover the splice reorder, the copied text and
    submission.
- **Dashboards and navigation**
  - `CreateClass`, `AutoFormat`, `CreateAssignment` and `JoinClass` are the teacher and
    student dialogs.
  - `StudentDashboard`, `AssignmentDetail` and `TeacherDashboard` are the dashboards.
    The student dashboard's time-of-day greeting (src/features/dashboard/StudentDashboard.tsx
    lines 79-84) uses the same rule as `TeacherDashboard.Greeting`.
  - `ProtectedRoute`, `Layout` and `Login` cover the route guard, the page frame and
    sign-in.

Four behaviours of the code are easy to misread; the model keeps them as written:

- The thesis save buttons test the raw purpose and verbs, without trimming
  (src/features/thesis/ThesisPage.tsx line 229, src/features/thesis/ThesisBuilder.tsx line
  220). `ThesisPage.BlankPurposeEnablesSave` shows a purpose of one space enabling save.
- `ThesisBuilder` appends a bare "ing" to each verb; it does not apply the gerund rules
  (src/features/thesis/ThesisBuilder.tsx line 58). `ThesisBuilder.NoGerundRules` shows
  "Highlightsing".
- The header's short name is `name.split(' ')[0]`, and the fallback tests the whole name,
  not the first word (src/components/Layout.tsx line 42). `Layout.LeadingSpaceShowsEmpty`
  shows a leading space giving an empty name.
- The reader sets `lastIndex` to each highlight's end, so it can move back
  (src/features/reader/TextReader.tsx line 301). A highlight nested in an earlier one,
  and the text after it, appear twice. `TextReader.NestedSpanRepeats` shows "abcdefg" with
  highlights [0, 5) and [2, 4) rendered as "abcdecdefg".

## Model

| member | source | states |
|---|---|---|
| TeacherReview.Offsets | src/features/teacher/TeacherReview.tsx:115-118 | every annotation contributes its start and end offset, two per annotation |
| TeacherReview.OffsetsMembers | src/features/teacher/TeacherReview.tsx:115-118 | an offset is collected exactly when some annotation starts or ends there |
| TeacherReview.CutsMember | src/features/teacher/TeacherReview.tsx:114-119 | a cut point is exactly 0, the text length, or an annotation's start or end |
| TeacherReview.CutsAscending | src/features/teacher/TeacherReview.tsx:119 | the sorted, de-duplicated cut points are strictly ascending |
| TeacherReview.CutsAreSortedBoundaries | src/features/teacher/TeacherReview.tsx:114-119 | the cut points are each boundary once, in strictly ascending order |
| TeacherReview.Active | src/features/teacher/TeacherReview.tsx:130-132 | an annotation is active in [s, e) exactly when it starts at or before s and ends at or after e |
| TeacherReview.Intensity | src/features/teacher/TeacherReview.tsx:137 | the shade, in hundredths, is 20 + 15n for up to two annotations and capped at 60 from three on |
| TeacherReview.IntensityMonotone | src/features/teacher/TeacherReview.tsx:137 | more covering annotations never give a lighter shade |
| TeacherReview.CollectBoundaries | src/features/teacher/TeacherReview.tsx:114-118 | the Set filled by `forEach` holds 0, the length and every offset, each once, in insertion order |
| TeacherReview.RenderSegment | src/features/teacher/TeacherReview.tsx:125-169 | one piece is the slice between its cut points, highlighted with its active annotations, shade and selection flag exactly when some annotation covers it |
| TeacherReview.RenderHighlightedContent | src/features/teacher/TeacherReview.tsx:107-173 | without annotations the text comes back whole; otherwise one piece per pair of consecutive cut points, each as `RenderSegment` says |
| TeacherReview.PiecesConcat | src/features/teacher/TeacherReview.tsx:124-127 | consecutive slices between ascending cuts concatenate to the slice between the first and last cut |
| TeacherReview.CutsSpanText | src/features/teacher/TeacherReview.tsx:114-119 | with every offset inside the text, the cuts run from 0 to the text length |
| TeacherReview.HeatmapCoversText | src/features/teacher/TeacherReview.tsx:111-127 | with every offset inside the text, the pieces concatenate back to exactly the text, with no gap or overlap |
| TeacherReview.PiecesNonEmpty | src/features/teacher/TeacherReview.tsx:124-134 | every piece is non-empty, so a zero-length annotation is never active anywhere |
| TeacherReview.DisplayedAnnotations | src/features/teacher/TeacherReview.tsx:184-186 | the sidebar shows nothing with an empty selection, and otherwise exactly the annotations whose id is selected |
| TeacherReview.ClickShowsActive | src/features/teacher/TeacherReview.tsx:140-154 | after a click on a piece, that piece is drawn selected and the sidebar shows all of its active annotations |
| TeacherReview.GetStudentName | src/features/teacher/TeacherReview.tsx:103-105 | an unknown uid reads "Unknown Student"; a known one reads the first matching profile's name, or "Unknown Student" when that is empty |
| TeacherReview.Review.ClickSegment | src/features/teacher/TeacherReview.tsx:154 | the click replaces the selection by the ids of the piece's active annotations |
| TextReader.WordPrefix | src/features/reader/TextReader.tsx:211 | the leading word is the longest prefix without a `\s` character |
| TextReader.SpacePrefix | src/features/reader/TextReader.tsx:211 | the leading run is the longest prefix of `\s` characters, non-empty when the text starts with one |
| TextReader.SplitKeepSpace | src/features/reader/TextReader.tsx:211 | `split(/(\s+)/)` always yields at least one piece |
| TextReader.SplitKeepSpaceShape | src/features/reader/TextReader.tsx:211 | the pieces alternate: a word without whitespace, then a non-empty whitespace run, and so on |
| TextReader.SplitKeepSpaceConcat | src/features/reader/TextReader.tsx:211 | the pieces concatenate back to the text |
| TextReader.Tokenize | src/features/reader/TextReader.tsx:211-220 | the running `currentOffset` gives each piece its [start, end) from the base offset, and a piece is a word exactly when it has a non-space character |
| TextReader.TokensLocated | src/features/reader/TextReader.tsx:214-218 | every token lies within [base, base + length) and its offsets locate its own text |
| TextReader.TokensAdjacent | src/features/reader/TextReader.tsx:214-218 | the first token starts at the base, the last ends at base + length, and each starts where the previous ended |
| TextReader.TokensTile | src/features/reader/TextReader.tsx:207-221 | the tokens tile [base, base + length) without gaps, locate their own text, and are clickable words exactly when not blank |
| TextReader.ChunkSpans | src/features/reader/TextReader.tsx:264-302 | the `forEach` with its mutable `lastIndex` emits each span's highlight in order, preceded by the gap text when the span starts after `lastIndex` |
| TextReader.BuildChunks | src/features/reader/TextReader.tsx:263-313 | after the spans, the text past the last one closes the list; the chunk texts always spell out `RenderedText`, and for non-overlapping in-bounds spans that is the content |
| TextReader.NestedSpanRepeats | src/features/reader/TextReader.tsx:264-311 | because `lastIndex` becomes each span's end, a span nested in an earlier one and the text after it are shown twice: "abcdefg" with [0, 5) and [2, 4) renders as "abcdecdefg" |
| TextReader.ChunkStep | src/features/reader/TextReader.tsx:268-301 | one span's step keeps the chunks so far equal to the text up to the span's end |
| TextReader.TailStep | src/features/reader/TextReader.tsx:305-311 | the closing tail completes the chunk list to the whole content |
| TextReader.Set | src/features/reader/TextReader.tsx:384 | a change sets only the named answer |
| TextReader.Align | src/features/reader/TextReader.tsx:70-79 | the spacer is the target's offset below the sidebar less 24, and never negative |
| TextReader.StartCreate | src/features/reader/TextReader.tsx:159-160 | a fresh range enters create mode at the verb step with no verb, empty commentary and no annotation being edited |
| TextReader.MouseUp | src/features/reader/TextReader.tsx:142-161 | nothing happens in the scavenger phase, read-only or touch mode, or outside the text; no range clears the selection in list mode; a range starts creating |
| TextReader.WordClick | src/features/reader/TextReader.tsx:164-204 | read-only ignores taps; a first tap, or one before the pending start, only records the pending start; a later tap selects from the pending start to the word's end and starts creating |
| TextReader.TwoTapsSelect | src/features/reader/TextReader.tsx:193-203 | two taps, the second at or after the first, select the substring between them in create mode at the verb step and clear the pending start |
| TextReader.BackwardTapRestarts | src/features/reader/TextReader.tsx:178-191 | a second tap before the pending start replaces the pending start and creates no selection |
| TextReader.EditAnnotation | src/features/reader/TextReader.tsx:319-333 | editing loads the annotation's range, verb and commentary (or "") at the commentary step and aligns the spacer when a position is given |
| TextReader.Cancel | src/features/reader/TextReader.tsx:356-363 | cancel clears the selection, editing id, pending tap and spacer and returns to list mode, keeping verb, commentary and step |
| TextReader.CancelIdempotent | src/features/reader/TextReader.tsx:356-363 | cancelling twice is cancelling once |
| TextReader.Reader.constructor | src/features/reader/TextReader.tsx:40-66 | the reader opens in the scavenger phase with nothing selected, empty answers and touch mode off |
| TextReader.Reader.ToggleTouchMode | src/features/reader/TextReader.tsx:60 | the touch-mode switch flips the mode |
| TextReader.Reader.HandleMouseUp | src/features/reader/TextReader.tsx:142-161 | the interface state becomes `MouseUp` of the old state |
| TextReader.Reader.HandleWordClick | src/features/reader/TextReader.tsx:164-204 | the interface state becomes `WordClick` of the old state |
| TextReader.Reader.HandleVerbSelect | src/features/reader/TextReader.tsx:318 | picking a verb records it and moves to the commentary step |
| TextReader.Reader.HandleEditAnnotation | src/features/reader/TextReader.tsx:319-333 | the interface state becomes `EditAnnotation` of the old state |
| TextReader.Reader.ClickHighlight | src/features/reader/TextReader.tsx:288-295 | a click opens a stored annotation for editing, except the in-progress selection and in read-only mode |
| TextReader.Reader.HandleCancelAnnotation | src/features/reader/TextReader.tsx:356-363 | the interface state becomes `Cancel` of the old state |
| TextReader.Reader.NewAnnotation | src/features/reader/TextReader.tsx:342-348 | a new annotation stores the selection's text, start and end, the verb, the commentary, the fixed colour, the user and the assignment |
| TextReader.Reader.HandleSaveAnnotation | src/features/reader/TextReader.tsx:334-350 | without a savable state nothing changes; editing changes only that annotation's verb and commentary; a new save adds `NewAnnotation`; a failed write changes nothing in the store |
| TextReader.Reader.HandleSpacecatChange | src/features/reader/TextReader.tsx:384 | read-only ignores changes; otherwise only the named answer changes |
| TextReader.Reader.ValidateSpacecat | src/features/reader/TextReader.tsx:385-395 | read-only goes straight to annotating; answers below 3/5/3/10/10 characters are refused with a message; otherwise the answers are merged into the submission and annotating begins, even when the write fails |
| TextReader.Reader.AllHighlights | src/features/reader/TextReader.tsx:244-257 | the drawn spans are the stored annotations, plus the in-progress selection exactly in create mode when not editing |
| TextReader.Reader.RenderHighlightedContent | src/features/reader/TextReader.tsx:243-314 | with no spans the content is one plain chunk; otherwise the chunks are `BuildChunks` of the spans sorted by start |
| TextReader.Reader.RenderInteractiveSegment | src/features/reader/TextReader.tsx:207-241 | outside touch mode a segment is one span; in touch mode it is the token list of `Tokenize` |
| Login.FormatEmail | src/pages/Login.tsx:30-34 | the address always holds an '@': the trimmed input when it has one, else the trimmed input with "@langlab.local" appended |
| Login.FormatEmailIdempotent | src/pages/Login.tsx:30-34 | formatting an address a second time changes nothing |
| Login.NormalizeUsername | src/pages/Login.tsx:111 | the typed username is lower case and holds no whitespace, every non-whitespace character of the text appears in it lower-cased, and it is no longer than the text |
| Js.LowerCharSpace | src/pages/Login.tsx:111 | `toLowerCase` maps whitespace to whitespace and nothing else to whitespace |
| Login.ToLowerAppend | src/pages/Login.tsx:111 | `toLowerCase` of joined text is the join of the lower-cased pieces |
| Login.NormalizeUsernameAppend | src/pages/Login.tsx:111 | the username of joined text is the join of the pieces' usernames, so order is kept |
| Login.NormalizeUsernameChar | src/pages/Login.tsx:111 | one character normalises to nothing when it is whitespace, else to its lower-case form |
| Login.NormalizeUsernameIdempotent | src/pages/Login.tsx:111 | normalising a normalised username changes nothing |
| Login.TypedUsernameEmail | src/pages/Login.tsx:30-34 | a typed username is used exactly as typed, with the domain added unless it holds an '@' |
| Login.ErrorMessage | src/pages/Login.tsx:51-54 | each of the three known error codes gets its own message, and exactly the other codes get the generic one |
| Login.Flip | src/pages/Login.tsx:153 | the toggle always changes the mode |
| Login.FlipTwice | src/pages/Login.tsx:153 | toggling twice returns to the first mode |
| Login.Form.constructor | src/pages/Login.tsx:10-14 | the form opens in sign-in mode with an empty username, no error, not loading |
| Login.Form.TypeUsername | src/pages/Login.tsx:111 | the field holds the normalised username |
| Login.Form.ToggleMode | src/pages/Login.tsx:153 | the mode flips and the error is cleared |
| Login.Form.HandleSubmit | src/pages/Login.tsx:36-58 | the call matches the mode and uses the formatted address; a rejection leaves its message, a success none; loading ends |
| SpacecatModal.Initial | src/features/reader/SpacecatModal.tsx:21-30 | every answer starts empty |
| SpacecatModal.Change | src/features/reader/SpacecatModal.tsx:32-35 | the named answer takes the new value and every other answer is kept |
| SpacecatModal.IsFormValidIff | src/features/reader/SpacecatModal.tsx:43 | the form is valid exactly when every answer has a positive trimmed length |
| SpacecatModal.InitialInvalid | src/features/reader/SpacecatModal.tsx:21-43 | the form opens invalid |
| SpacecatModal.ChangeValidity | src/features/reader/SpacecatModal.tsx:32-43 | after a change the form is valid exactly when the new answer is non-blank and every other answer already was |
| SpacecatModal.Submit | src/features/reader/SpacecatModal.tsx:37-41 | through the enabled button the record is handed on unchanged, with all eight answers non-blank |
| RavSelector.Selector.constructor | src/features/reader/RAVSelector.tsx:12-14 | the pop-up opens on the verb step with no verb and no commentary |
| RavSelector.Selector.VerbClick | src/features/reader/RAVSelector.tsx:18-21 | the verb is recorded and the commentary step opens |
| RavSelector.Selector.TypeCommentary | src/features/reader/RAVSelector.tsx:133 | the commentary becomes the typed text |
| RavSelector.Selector.SaveEnabled | src/features/reader/RAVSelector.tsx:153 | the Save button is enabled exactly for non-blank commentary |
| RavSelector.Selector.Save | src/features/reader/RAVSelector.tsx:23-31 | the pair is handed on exactly with a non-empty verb and non-blank commentary, the commentary untrimmed, and the selector starts over; otherwise nothing changes |
| RavSelector.Selector.Back | src/features/reader/RAVSelector.tsx:113 | Back returns to the verb step and keeps the verb and the commentary |
| RavSelector.SaveRoundTrip | src/features/reader/RAVSelector.tsx:18-31 | picking a verb, typing commentary and saving hands on exactly that pair |
| RavSelector.BackKeepsCommentary | src/features/reader/RAVSelector.tsx:18-133 | going back and picking another verb keeps the commentary written so far |
| ThesisPage.ToGerund | src/features/thesis/ThesisPage.tsx:25-31 | the inflection always ends in "ing", is longer than the verb, and keeps the verb up to its last three letters |
| ThesisPage.GerundExamples | src/features/thesis/ThesisPage.tsx:26-29 | the five inflections written beside the rules hold: Amplifying, Digressing, Juxtaposing, Highlighting, Showing |
| ThesisPage.SsesHesRuleIsEsRule | src/features/thesis/ThesisPage.tsx:27-28 | a verb ending in "sses" or "hes" is inflected exactly as the following "es" rule would inflect it |
| ThesisPage.RuleOrderMatters | src/features/thesis/ThesisPage.tsx:26-29 | the "ies" rule must come before the "es" and "s" rules, and the "es" rule before the "s" rule: the later rule would give a different word |
| ThesisPage.WithSlot | src/features/thesis/ThesisPage.tsx:95-100 | dropping or clearing sets the named slot only; the other slot and the purpose keep their values |
| ThesisPage.SaveEnabledIff | src/features/thesis/ThesisPage.tsx:229 | a student may save exactly when both slots and the purpose are non-empty; read-only mode is always enabled; saving in flight always disables |
| ThesisPage.BlankPurposeEnablesSave | src/features/thesis/ThesisPage.tsx:229 | the purpose is not trimmed: a purpose of one space enables saving |
| ThesisPage.CollectedVerbs | src/features/thesis/ThesisPage.tsx:69-70 | the verb bank holds exactly the verbs of the annotations, each once |
| ThesisPage.CollectedVerbsOrder | src/features/thesis/ThesisPage.tsx:69-70 | the bank lists verbs in the order the annotations first use them |
| ThesisPage.ThesisUpdate | src/features/thesis/ThesisPage.tsx:118-124 | the saved fields are exactly userId, assignmentId, thesis, status and updatedAt, with status 'thesis_drafted' |
| ThesisPage.SaveKeepsOtherSteps | src/features/thesis/ThesisPage.tsx:117-124 | a merge save keeps every other field of the submission, such as the SPACECAT answers, and stores the thesis |
| ThesisPage.Page.constructor | src/features/thesis/ThesisPage.tsx:39-46 | the page starts with two empty slots, an empty purpose and no verbs |
| ThesisPage.Page.Load | src/features/thesis/ThesisPage.tsx:51-86 | nothing happens without an id or a user; otherwise the author defaults to "The Author", the verbs are the de-duplicated annotation verbs, and a stored thesis replaces the current one, each only when its read and the reads before it answer; a read that throws leaves the rest as it was |
| ThesisPage.Page.HandleDrop | src/features/thesis/ThesisPage.tsx:95-100 | the dropped verb fills the named slot, nothing else changes |
| ThesisPage.Page.ClearSlot | src/features/thesis/ThesisPage.tsx:188 | the named slot becomes empty, nothing else changes |
| ThesisPage.Page.SetPurpose | src/features/thesis/ThesisPage.tsx:315 | typing replaces the purpose only |
| ThesisPage.Page.HandleSave | src/features/thesis/ThesisPage.tsx:106-131 | read-only mode, a missing user or id, or a failing store leave the store unchanged; otherwise the thesis update is merged into the submission |
| ThesisBuilder.SaveTextShape | src/features/thesis/ThesisBuilder.tsx:58 | the saved sentence starts with "<author> begins by ", then the first verb (or '[verb]') with a bare "ing", and ends with a full stop |
| ThesisBuilder.NoGerundRules | src/features/thesis/ThesisBuilder.tsx:58 | the builder writes "Highlightsing" where the thesis page writes "Highlighting" |
| ThesisBuilder.EnabledSaveHasNoPlaceholder | src/features/thesis/ThesisBuilder.tsx:58-59 | whenever the save button is enabled the sentence contains both verbs and the purpose, and no placeholder |
| ThesisBuilder.Builder.constructor | src/features/thesis/ThesisBuilder.tsx:28-33 | the builder starts with two empty slots and an empty purpose |
| ThesisBuilder.Builder.UniqueVerbs | src/features/thesis/ThesisBuilder.tsx:66 | the verb bank shows each available verb exactly once, in the order of first appearance (the bank of any prefix of the verbs is a prefix of it) |
| ThesisBuilder.Builder.HandleDrop | src/features/thesis/ThesisBuilder.tsx:50-55 | the dropped verb fills the named slot, nothing else changes |
| ThesisBuilder.Builder.ClearSlot | src/features/thesis/ThesisBuilder.tsx:62-64 | the named slot becomes empty, nothing else changes |
| ThesisBuilder.Builder.SetPurpose | src/features/thesis/ThesisBuilder.tsx:207 | typing replaces the purpose only |
| ThesisBuilder.Builder.HandleSave | src/features/thesis/ThesisBuilder.tsx:57-60 | the text handed to `onSave` is the builder's sentence and starts with "<author> begins by " |
| EssayPage.GerundCopiesAgree | src/features/writer/EssayPage.tsx:9-15 | the essay page's copy of the inflection agrees with the thesis page's on every verb |
| EssayPage.PlainVerbGerund | src/features/writer/EssayPage.tsx:14 | a verb not ending in 's' is inflected by appending "ing" |
| EssayPage.ThesisLineMatchesBuilder | src/features/writer/EssayPage.tsx:45 | for a complete thesis with verbs not ending in 's', the builder's sentence is "<author> begins by " followed by the essay page's thesis line |
| EssayPage.EmptyThesisLine | src/features/writer/EssayPage.tsx:45 | with every part missing the line is "..., then shifts to ... in order to ...." |
| EssayPage.Page.constructor | src/features/writer/EssayPage.tsx:23-28 | the page starts with an empty thesis line and no paragraphs |
| EssayPage.Page.Load | src/features/writer/EssayPage.tsx:32-53 | nothing changes without an id, a user or a submission, or when either read throws; otherwise a stored thesis becomes its line and stored paragraphs replace the list |
| EssayPage.Page.HandleSubmit | src/features/writer/EssayPage.tsx:55-64 | outside read-only mode, with a user and an id and a working store, status 'submitted' and the time are merged into the submission; otherwise nothing is stored |
| EssayPage.Page.HandleReorder | src/features/writer/EssayPage.tsx:66-75 | the list always takes the new order; it is merged into the submission only outside read-only mode with a user, an id and a working store |
| ParagraphBuilder.FirstStop | src/features/writer/ParagraphBuilder.tsx:59 | the index of the first character of `[.!?]`: everything before it is stop-free |
| ParagraphBuilder.StopRun | src/features/writer/ParagraphBuilder.tsx:59 | the length of the maximal run of `[.!?]` characters at the start |
| ParagraphBuilder.Sentences | src/features/writer/ParagraphBuilder.tsx:59 | `split(/[.!?]+/)` yields at least one piece and no piece holds a stop character |
| ParagraphBuilder.SentencesOfStopFree | src/features/writer/ParagraphBuilder.tsx:59 | text without a stop character is a single piece |
| ParagraphBuilder.SentencesCons | src/features/writer/ParagraphBuilder.tsx:59 | a stop-free piece followed by a run of stops splits into that piece and then the pieces of the rest |
| ParagraphBuilder.EvidenceCount | src/features/writer/ParagraphBuilder.tsx:58-62 | the evidence count is 0 exactly for empty evidence |
| ParagraphBuilder.CommentaryCountCons | src/features/writer/ParagraphBuilder.tsx:64-68 | a commentary piece ended by stops adds one exactly when it is not blank |
| ParagraphBuilder.EvidencePiecesCons | src/features/writer/ParagraphBuilder.tsx:59 | an evidence piece ended by stops adds one exactly when it is not empty |
| ParagraphBuilder.FilterWeaker | src/features/writer/ParagraphBuilder.tsx:59-65 | the non-blank pieces are never more than the non-empty pieces |
| ParagraphBuilder.CommentaryCountsNoMore | src/features/writer/ParagraphBuilder.tsx:58-68 | the same text never counts more commentary sentences than evidence sentences |
| ParagraphBuilder.OneSentence | src/features/writer/ParagraphBuilder.tsx:58-68 | one non-blank sentence with its stop counts once under both rules |
| ParagraphBuilder.TwoSentences | src/features/writer/ParagraphBuilder.tsx:64-68 | two non-blank sentences, each with its stop, count twice as commentary |
| ParagraphBuilder.BlankPieceCountsOnlyAsEvidence | src/features/writer/ParagraphBuilder.tsx:58-68 | a piece of spaces between stops counts as evidence but not as commentary |
| ParagraphBuilder.BlankSentence | src/features/writer/ParagraphBuilder.tsx:58-68 | spaces with a stop make one non-empty piece and no commentary sentence |
| ParagraphBuilder.RatioGateBoundary | src/features/writer/ParagraphBuilder.tsx:91 | with one evidence sentence, one commentary sentence keeps completion disabled and two enable it |
| ParagraphBuilder.GateNeedsTwoForAnyEvidence | src/features/writer/ParagraphBuilder.tsx:58-91 | with non-empty evidence, meeting the ratio needs at least two commentary sentences; with empty evidence the gate is open |
| ParagraphBuilder.EmptyState | src/features/writer/ParagraphBuilder.tsx:36-41 | a fresh paragraph has an id starting "para_", no claim, and empty evidence and commentary |
| ParagraphBuilder.Builder.constructor | src/features/writer/ParagraphBuilder.tsx:43-55 | the builder starts from the initial state or a fresh one, with counters that describe it |
| ParagraphBuilder.Builder.Recount | src/features/writer/ParagraphBuilder.tsx:57-69 | the effect sets both counters to the counts of the current evidence and commentary |
| ParagraphBuilder.Builder.Reset | src/features/writer/ParagraphBuilder.tsx:46-52 | a new initial state, or a fresh paragraph without one, replaces the paragraph; the counters follow |
| ParagraphBuilder.Builder.HandleDragEnd | src/features/writer/ParagraphBuilder.tsx:71-84 | a drop on the claim slot of a bank annotation makes it the claim and its text the evidence; any other drop changes nothing; the counters follow |
| ParagraphBuilder.Builder.HandleCommentaryChange | src/features/writer/ParagraphBuilder.tsx:86-89 | only the commentary changes, and the counters follow |
| ParagraphBuilder.Builder.Complete | src/features/writer/ParagraphBuilder.tsx:253-302 | the paragraph is handed over exactly when a claim is set (the button exists only then) and the ratio holds; never without a claim; with non-empty evidence it needs two commentary sentences |
| ParagraphBuilder.FreshCannotComplete | src/features/writer/ParagraphBuilder.tsx:253-299 | a fresh paragraph meets the ratio, yet cannot be completed, because without a claim there is no complete button |
| ParagraphPage.ReplaceById | src/features/writer/ParagraphPage.tsx:55 | replacing keeps the number of paragraphs |
| ParagraphPage.Ids | src/features/writer/ParagraphPage.tsx:55 | the ids of the paragraphs, position by position |
| ParagraphPage.ReplaceKeepsOrder | src/features/writer/ParagraphPage.tsx:53-56 | editing keeps the ids in order, puts the saved paragraph wherever its id was and leaves the others as they were |
| ParagraphPage.ReplaceIdempotent | src/features/writer/ParagraphPage.tsx:55 | saving the same edited paragraph twice is the same as saving it once |
| ParagraphPage.UsedIds | src/features/writer/ParagraphPage.tsx:76-79 | an id is used exactly when it is the non-empty claim id of a saved paragraph other than the one being edited |
| ParagraphPage.Available | src/features/writer/ParagraphPage.tsx:81 | an annotation is offered exactly when no used id is its own |
| ParagraphPage.EditedClaimStaysAvailable | src/features/writer/ParagraphPage.tsx:73-81 | the paragraph being edited keeps its own annotation in the bank |
| ParagraphPage.ClaimedElsewhereUnavailable | src/features/writer/ParagraphPage.tsx:73-81 | an annotation claimed by another saved paragraph is not offered |
| ParagraphPage.ToEdit | src/features/writer/ParagraphPage.tsx:83 | the paragraph to edit is a saved one with the editing id, and nothing when none has it or nothing is being edited |
| ParagraphPage.Page.constructor | src/features/writer/ParagraphPage.tsx:20-24 | no annotations, no saved paragraphs, nothing being edited |
| ParagraphPage.Page.Load | src/features/writer/ParagraphPage.tsx:26-47 | nothing changes without an id or a user; otherwise the target's annotations on the assignment and the stored paragraphs when there are any, each only when its read and the reads before it answer; a read that throws leaves the rest as it was |
| ParagraphPage.Page.StartEditing | src/features/writer/ParagraphPage.tsx:137 | clicking a saved paragraph starts editing it, except in read-only mode |
| ParagraphPage.Page.CancelEditing | src/features/writer/ParagraphPage.tsx:122 | cancelling leaves edit mode |
| ParagraphPage.Page.HandleSave | src/features/writer/ParagraphPage.tsx:49-71 | ignored without a user or id or in read-only mode; an edit replaces by id and leaves edit mode, a new paragraph is appended; the list is merged into the submission unless the write fails |
| ParagraphPage.Page.AvailableAnnotations | src/features/writer/ParagraphPage.tsx:76-81 | the bank holds exactly the loaded annotations whose id no other saved paragraph claims |
| EssayAssembler.CopyTextGrows | src/features/writer/EssayAssembler.tsx:16-19 | the copied text is the thesis header alone for no paragraphs, and each further paragraph appends a blank line and its block, so blocks follow the list order |
| EssayAssembler.MissingClaimPrintsUndefined | src/features/writer/EssayAssembler.tsx:18 | a paragraph without a claim verb is copied with "undefined" for both the verb and its commentary |
| EssayAssembler.Landing | src/features/writer/EssayAssembler.tsx:29 | the re-insertion index is the destination, clamped to the end of the list as `splice` does |
| EssayAssembler.MovedFacts | src/features/writer/EssayAssembler.tsx:27-29 | a move keeps every paragraph (same multiset), puts the dragged one at its landing index and keeps the relative order of the others |
| EssayAssembler.MoveInPlace | src/features/writer/EssayAssembler.tsx:27-29 | dropping a paragraph where it was picked up leaves the order unchanged |
| EssayAssembler.MoveBackRestores | src/features/writer/EssayAssembler.tsx:27-29 | dragging the paragraph back from its landing index to its source index restores the original order |
| EssayAssembler.HandleDragEnd | src/features/writer/EssayAssembler.tsx:25-31 | no new order for a drop outside the list or without a reorder callback; otherwise the spliced copy of the list |
| EssayAssembler.KeysDistinct | src/features/writer/EssayAssembler.tsx:88-89 | keys built from an id and an index differ whenever the indices differ, whatever the ids |
| EssayAssembler.ListKeysDistinct | src/features/writer/EssayAssembler.tsx:88-89 | every paragraph of the list gets its own key and draggable id, even when paragraph ids repeat |
| CreateClass.AlphabetFacts | src/features/dashboard/components/CreateClassModal.tsx:21 | the alphabet has 32 distinct characters, capitals and digits 2-9, none of them I, O, 0 or 1 |
| CreateClass.CodeAt | src/features/dashboard/components/CreateClassModal.tsx:20-27 | a generated code has six characters |
| CreateClass.CodeAtIsCode | src/features/dashboard/components/CreateClassModal.tsx:20-27 | every generated code is six alphabet characters, none of them ambiguous |
| CreateClass.Candidates | src/features/dashboard/components/CreateClassModal.tsx:37-49 | one submission checks at most three codes, drawn from consecutive stretches of six random draws |
| CreateClass.FirstFree | src/features/dashboard/components/CreateClassModal.tsx:41-49 | the chosen candidate is the first one that no class uses, and none is chosen when all are taken |
| CreateClass.FirstFreeIs | src/features/dashboard/components/CreateClassModal.tsx:41-49 | the search stops at the first free candidate |
| CreateClass.DrawsUsed | src/features/dashboard/components/CreateClassModal.tsx:37-49 | a submission consumes six draws per generated code, between one and four codes |
| CreateClass.AddFreeKeepsUnique | src/features/dashboard/components/CreateClassModal.tsx:44-63 | adding a class under a free code keeps all join codes distinct |
| CreateClass.Modal.constructor | src/features/dashboard/components/CreateClassModal.tsx:12-18 | the dialog starts with no created code and no submission in flight |
| CreateClass.Modal.GenerateJoinCode | src/features/dashboard/components/CreateClassModal.tsx:20-27 | six draws are consumed and the code is the alphabet letter of each draw, in order |
| CreateClass.Modal.FindFreeCode | src/features/dashboard/components/CreateClassModal.tsx:37-53 | the retry loop finds exactly the first free candidate, or none when all three are taken, and consumes the draws DrawsUsed says |
| CreateClass.Modal.HandleSubmit | src/features/dashboard/components/CreateClassModal.tsx:29-72 | ignored without a user or with a blank name; otherwise the class is stored under the first free code, or nothing is stored and the dialog fails when all three codes are taken or the write fails; join codes stay unique |
| CreateClass.CreatedCodeIsFresh | src/features/dashboard/components/CreateClassModal.tsx:41-63 | a created class's code is used by no earlier class |
| AutoFormat.CrRun | src/features/dashboard/components/CreateAssignmentModal.tsx:22 | the length of the run of carriage returns at the start of the text |
| AutoFormat.LastNl | src/features/dashboard/components/CreateAssignmentModal.tsx:23 | the end of the match of `\s*\n` at the start of the text: a line feed with only whitespace before it, or none |
| AutoFormat.AsWrittenKeepsCrLf | src/features/dashboard/components/CreateAssignmentModal.tsx:20-26 | as written, "\r\r\n" formats to "\r\n\n", which still holds a Windows line ending, and formatting it again changes it to "\n\n" |
| AutoFormat.Fix1AgreesWithoutDoubleCr | src/features/dashboard/components/CreateAssignmentModal.tsx:22 | without two carriage returns in a row, the corrected first step is the one as written |
| AutoFormat.Fix1NoCrLf | src/features/dashboard/components/CreateAssignmentModal.tsx:22 | the corrected first step leaves no carriage return directly before a line feed |
| AutoFormat.Fix1Identity | src/features/dashboard/components/CreateAssignmentModal.tsx:22 | text without Windows line endings passes the corrected first step unchanged |
| AutoFormat.CollapseNoCrLf | src/features/dashboard/components/CreateAssignmentModal.tsx:23 | collapsing blank lines creates no Windows line ending |
| AutoFormat.DoubleNoCrLf | src/features/dashboard/components/CreateAssignmentModal.tsx:24 | doubling line feeds creates no Windows line ending |
| AutoFormat.CollapseNormal | src/features/dashboard/components/CreateAssignmentModal.tsx:23 | after collapsing, no two line feeds are separated by whitespace alone: no blank lines remain |
| AutoFormat.CollapseUndoesDouble | src/features/dashboard/components/CreateAssignmentModal.tsx:23-24 | on text without blank lines, collapsing undoes doubling |
| AutoFormat.FormatShape | src/features/dashboard/components/CreateAssignmentModal.tsx:20-26 | the corrected formatter leaves no Windows line ending and yields the doubling of a text without blank lines |
| AutoFormat.AsWrittenIdempotentWithoutCr | src/features/dashboard/components/CreateAssignmentModal.tsx:20-26 | on content without carriage returns, which is all a textarea yields, the formatter as written equals the corrected one, brings in no carriage return, and a second press changes nothing |
| AutoFormat.AsWrittenWithoutDoubleCr | src/features/dashboard/components/CreateAssignmentModal.tsx:20-26 | on content without two carriage returns in a row, the formatter as written equals the corrected one and leaves no Windows line ending |
| AutoFormat.FormatIdempotent | src/features/dashboard/components/CreateAssignmentModal.tsx:20-26 | pressing the corrected formatter twice gives the same text as pressing it once |
| CreateAssignment.StoredAuthor | src/features/dashboard/components/CreateAssignmentModal.tsx:38 | the stored author is the trimmed author, or "Unknown Author" when that is empty; never empty |
| CreateAssignment.NewAssignment | src/features/dashboard/components/CreateAssignmentModal.tsx:35-43 | the new document is an active assignment with the class, the title and content as typed, the stored author, the due date and the creation time |
| CreateAssignment.Modal.constructor | src/features/dashboard/components/CreateAssignmentModal.tsx:12-17 | every field starts empty and nothing is being submitted |
| CreateAssignment.Modal.HandleAutoFormat | src/features/dashboard/components/CreateAssignmentModal.tsx:20-26 | the content becomes the formatter's result as written (empty content is left alone); on content without two carriage returns in a row that is the corrected formatting, with no Windows line ending; on content without carriage returns a second press changes nothing |
| CreateAssignment.Modal.HandleSubmit | src/features/dashboard/components/CreateAssignmentModal.tsx:28-52 | a blank title or content or a missing date does nothing; otherwise the new assignment is appended, or on a failed write nothing is stored and the spinner stops |
| JoinClass.NormalizeFacts | src/features/dashboard/components/JoinClassModal.tsx:28 | the looked-up code is the trimmed upper-cased input: no longer than it, upper case, without whitespace at either end |
| JoinClass.NormalizeIdempotent | src/features/dashboard/components/JoinClassModal.tsx:28 | normalising a normalised code changes nothing |
| JoinClass.Typed | src/features/dashboard/components/JoinClassModal.tsx:126-128 | the input holds at most six characters, each the upper case of the typed one |
| JoinClass.FirstWithCode | src/features/dashboard/components/JoinClassModal.tsx:28-37 | the class joined is the first with the code, and there is none exactly when no class has it |
| JoinClass.ArrayUnion | src/features/dashboard/components/JoinClassModal.tsx:50 | the roster gains the uid unless it holds it already, keeps its order and stays free of duplicates |
| JoinClass.Enrol | src/features/dashboard/components/JoinClassModal.tsx:48-51 | only the roster of the class changes; afterwards it lists the student and everyone listed before |
| JoinClass.EnrolIdempotent | src/features/dashboard/components/JoinClassModal.tsx:41-51 | after enrolling the student is listed, and enrolling again would change nothing |
| JoinClass.EnrolKeepsRosterUnique | src/features/dashboard/components/JoinClassModal.tsx:50 | enrolling keeps a roster free of duplicates |
| JoinClass.Message | src/features/dashboard/components/JoinClassModal.tsx:32-61 | every refusal and failure leaves its own error line; a join leaves none |
| JoinClass.JoinOutcome | src/features/dashboard/components/JoinClassModal.tsx:26-61 | a join that reaches the store fails exactly when the lookup fails or the update of a found class fails |
| JoinClass.JoinOutcomeMeaning | src/features/dashboard/components/JoinClassModal.tsx:31-51 | an invalid code is one no class has; a refusal found a class with the code that lists the student; a join found one that did not |
| JoinClass.AfterJoin | src/features/dashboard/components/JoinClassModal.tsx:48-51 | a join enrols the student in the first class with the code and leaves every other class as it was |
| JoinClass.Modal.constructor | src/features/dashboard/components/JoinClassModal.tsx:12-17 | the dialog starts with an empty code, no error, no success, nothing in flight |
| JoinClass.Modal.Type | src/features/dashboard/components/JoinClassModal.tsx:126-128 | the code becomes the capped, upper-cased text |
| JoinClass.Modal.CanSubmit | src/features/dashboard/components/JoinClassModal.tsx:171 | the join button is enabled exactly with six characters and no join in flight |
| JoinClass.Modal.HandleJoin | src/features/dashboard/components/JoinClassModal.tsx:19-65 | ignored without a user or with a blank code; otherwise the outcome is JoinOutcome of the normalised code, the spinner stops, the error line is its message, and only a join changes the store |
| JoinClass.JoinTwiceRefused | src/features/dashboard/components/JoinClassModal.tsx:41-45 | joining the same class a second time is refused as already enrolled |
| JoinClass.FirstWithCodeIs | src/features/dashboard/components/JoinClassModal.tsx:37 | the lookup yields the first class with the code |
| JoinClass.JoinTouchesOneClass | src/features/dashboard/components/JoinClassModal.tsx:48-51 | a join changes one class document and no other |
| StudentDashboard.Steps | src/features/dashboard/StudentDashboard.tsx:90-94 | the five steps in order; the first is the annotation step, and without a submission the other four are not done |
| StudentDashboard.CountTrueExtremes | src/features/dashboard/StudentDashboard.tsx:87-96 | all steps count exactly when every one is done, and none exactly when none is |
| StudentDashboard.ProgressFacts | src/features/dashboard/StudentDashboard.tsx:87-96 | the score is a multiple of 20 from 0 to 100; it is 100 exactly when all five steps are done and 0 exactly when none is |
| StudentDashboard.CountTrueFive | src/features/dashboard/StudentDashboard.tsx:89-95 | the score adds one step at a time, in the source's order |
| StudentDashboard.NoSubmissionProgress | src/features/dashboard/StudentDashboard.tsx:88-94 | without a submission the score is 20 for an annotated assignment and 0 otherwise |
| StudentDashboard.CountPartition | src/features/dashboard/StudentDashboard.tsx:100-103 | counts by three predicates that split the elements add up to the length |
| StudentDashboard.SubMap | src/features/dashboard/StudentDashboard.tsx:54-57 | the map has a key exactly for the assignment id (or "undefined") of some submission |
| StudentDashboard.LastWith | src/features/dashboard/StudentDashboard.tsx:55-57 | the position of the last submission filed under a key, with no later one under that key, or -1 when none is |
| StudentDashboard.FileSubmissions | src/features/dashboard/StudentDashboard.tsx:54-57 | the map the `forEach` fills is the one `SubMap` describes |
| StudentDashboard.SubMapLastWins | src/features/dashboard/StudentDashboard.tsx:55-57 | each key holds the last submission filed under it |
| StudentDashboard.EnrolledIn | src/features/dashboard/StudentDashboard.tsx:23-26 | the enrolled classes are exactly the classes whose roster lists the student |
| StudentDashboard.AnnotatedIds | src/features/dashboard/StudentDashboard.tsx:61-64 | the started assignments are exactly those the student has an annotation on |
| StudentDashboard.OwnDocs | src/features/dashboard/StudentDashboard.tsx:52 | the student's submissions are exactly those whose userId is the student |
| StudentDashboard.ClassIds | src/features/dashboard/StudentDashboard.tsx:30 | the ids of the enrolled classes, and no other |
| StudentDashboard.Visible | src/features/dashboard/StudentDashboard.tsx:31-48 | the listed assignments are exactly the active ones of the enrolled classes, each as often as in the store, sorted by due date with a missing date as 0, and those due together in the store's order |
| StudentDashboard.UndatedFirst | src/features/dashboard/StudentDashboard.tsx:44-48 | an undated assignment follows only dated ones whose date is not after 0 |
| StudentDashboard.DisplayName | src/features/dashboard/StudentDashboard.tsx:106 | the greeting name is never empty and holds no space: the profile's first word, else the sign-in name's, else "Student" |
| StudentDashboard.LeadingSpaceFallsBack | src/features/dashboard/StudentDashboard.tsx:106 | a profile name starting with a space has an empty first word and falls back |
| StudentDashboard.ClassName | src/features/dashboard/StudentDashboard.tsx:156 | the card's class name is never empty: the name of the first enrolled class with the id when that name is set, else "Unknown Class", which is also the result when no enrolled class has the id |
| StudentDashboard.InProgress | src/features/dashboard/StudentDashboard.tsx:100-103 | the in-progress count never exceeds the number of assignments |
| StudentDashboard.ProgressPartition | src/features/dashboard/StudentDashboard.tsx:100-155 | not-started, in-progress and done assignments add up to all assignments |
| StudentDashboard.Dashboard.constructor | src/features/dashboard/StudentDashboard.tsx:10-16 | the dashboard starts empty and loading |
| StudentDashboard.Dashboard.GetProgress | src/features/dashboard/StudentDashboard.tsx:87-96 | the score the loop of additions computes is the twenty-per-step Progress |
| StudentDashboard.Dashboard.InProgressCount | src/features/dashboard/StudentDashboard.tsx:100-103 | the count of started but unfinished assignments never exceeds their number |
| StudentDashboard.Dashboard.Load | src/features/dashboard/StudentDashboard.tsx:18-73 | nothing happens without a user, and otherwise loading ends; the enrolled classes are those listing the student; with none the list is emptied; otherwise the visible assignments, the submission map and the annotated ids; each is set only when its query and the queries before it answer, so a query that throws leaves the later ones as they were |
| AssignmentDetail.DefaultName | src/features/dashboard/AssignmentDetail.tsx:55 | the placeholder is "Student " followed by the first five characters of the uid, or all of a shorter one |
| AssignmentDetail.NameOf | src/features/dashboard/AssignmentDetail.tsx:55-58 | the placeholder without a profile; with one, its display name, or its email when the name is empty |
| AssignmentDetail.StatusOf | src/features/dashboard/AssignmentDetail.tsx:61-70 | Submitted exactly when the status is 'submitted'; Not Started exactly without a submission or with neither that status, a spacecat nor a thesis |
| AssignmentDetail.LastActiveOf | src/features/dashboard/AssignmentDetail.tsx:62-71 | a last-activity time exactly when the submission has an update timestamp |
| AssignmentDetail.Table | src/features/dashboard/AssignmentDetail.tsx:54-78 | one row per roster entry, in roster order, each for that student |
| AssignmentDetail.TableIs | src/features/dashboard/AssignmentDetail.tsx:54-78 | rows that are, position by position, each student's row form the roster's table |
| AssignmentDetail.ViewWorkIff | src/features/dashboard/AssignmentDetail.tsx:61-70 | a student's work can be viewed exactly when a submission exists that is submitted or has a spacecat or thesis; without one the row shows no activity |
| AssignmentDetail.SubmittedCount | src/features/dashboard/AssignmentDetail.tsx:123 | the count never exceeds the rows, and equals them exactly when every row is submitted |
| AssignmentDetail.Detail.constructor | src/features/dashboard/AssignmentDetail.tsx:16-20 | the page starts with no assignment, no rows, and loading |
| AssignmentDetail.Detail.StudentRow | src/features/dashboard/AssignmentDetail.tsx:54-76 | the row the step-by-step assignments build is the student's row |
| AssignmentDetail.Detail.StudentRows | src/features/dashboard/AssignmentDetail.tsx:54-78 | the rows the loop builds are the roster's table |
| AssignmentDetail.Detail.Load | src/features/dashboard/AssignmentDetail.tsx:35-84 | nothing happens without an id; a missing assignment or class keeps the table; otherwise the assignment and the roster's table (an absent roster is empty), and loading ends |
| AssignmentDetail.Detail.HandleDelete | src/features/dashboard/AssignmentDetail.tsx:22-33 | the assignment is removed exactly when there is an id, the teacher confirms and the delete succeeds; otherwise the collection is unchanged |
| AssignmentDetail.CountSubmitted | src/features/dashboard/AssignmentDetail.tsx:123 | the number of roster entries with a submitted submission, at most the roster's length |
| AssignmentDetail.SubmittedCountOfRoster | src/features/dashboard/AssignmentDetail.tsx:54-123 | the header's count is the number of enrolled students whose submission is marked submitted, whatever the profiles say |
| TeacherDashboard.Greeting | src/features/dashboard/TeacherDashboard.tsx:99-104 | "Good morning" exactly before 12, "Good afternoon" exactly from 12 to before 18, "Good evening" exactly from 18 |
| TeacherDashboard.GreetingChanges | src/features/dashboard/TeacherDashboard.tsx:99-104 | over the day the greeting changes exactly at 12 and at 18 |
| TeacherDashboard.OwnClasses | src/features/dashboard/TeacherDashboard.tsx:38-40 | the listed classes are exactly the teacher's own, each as often as in the store, newest first, and those created together in the store's order |
| TeacherDashboard.Retained | src/features/dashboard/TeacherDashboard.tsx:42-48 | none exactly when no class is fetched; otherwise a fetched class: the one with the active class's id if present, else the first |
| TeacherDashboard.RetainedIsFirst | src/features/dashboard/TeacherDashboard.tsx:43-44 | the kept class is the first fetched class with the active class's id |
| TeacherDashboard.RetainedStable | src/features/dashboard/TeacherDashboard.tsx:42-48 | refetching the same classes a second time keeps the same active class |
| TeacherDashboard.ProfileRow | src/features/dashboard/TeacherDashboard.tsx:75-84 | a student without a profile is "Unknown Student" with no email; with one, its display name or "Unknown Name", and its email |
| TeacherDashboard.Roster | src/features/dashboard/TeacherDashboard.tsx:71-85 | no rows without an active class or roster; otherwise one row per roster entry, in order |
| TeacherDashboard.UnknownStudentIff | src/features/dashboard/TeacherDashboard.tsx:78-83 | a row reads "Unknown Student" exactly when the student has no profile |
| TeacherDashboard.SubmissionsFor | src/features/dashboard/TeacherDashboard.tsx:62-64 | an assignment's count is at most the number of submissions |
| TeacherDashboard.Percentage | src/features/dashboard/TeacherDashboard.tsx:211-213 | 0 for an empty class; otherwise 100 times the ratio, rounded half up to a whole number |
| TeacherDashboard.PercentageBounds | src/features/dashboard/TeacherDashboard.tsx:211-213 | all submitted gives 100, never more than 100 while submissions do not exceed students, and one more submission never lowers it |
| TeacherDashboard.Dashboard.constructor | src/features/dashboard/TeacherDashboard.tsx:21-30 | the dashboard starts empty, with no active class, and loading |
| TeacherDashboard.Dashboard.FetchClasses | src/features/dashboard/TeacherDashboard.tsx:34-50 | nothing happens without a user; a failed query keeps the classes; otherwise the teacher's classes newest first and the retained active class; loading ends |
| TeacherDashboard.Dashboard.CountSubmissions | src/features/dashboard/TeacherDashboard.tsx:60-65 | the counts have a key exactly for each fetched assignment, holding the number of submissions naming it |
| TeacherDashboard.Dashboard.RefreshAssignments | src/features/dashboard/TeacherDashboard.tsx:52-91 | without an active class the list and counts are cleared; a failed assignments query keeps both; otherwise the class's assignments newest first, and counts keyed by exactly their ids, each the number of submissions naming it, except that a failed count query keeps the old counts |
| TeacherDashboard.Dashboard.FetchStudents | src/features/dashboard/TeacherDashboard.tsx:71-88 | the students tab shows the active class's roster rows |
| TeacherDashboard.Dashboard.CardPercentage | src/features/dashboard/TeacherDashboard.tsx:211-213 | a card shows 0 when the class has no students or the assignment has no count |
| TeacherDashboard.ClassAssignments | src/features/dashboard/TeacherDashboard.tsx:55-57 | the listed assignments are exactly those of the class, each as often as in the store, newest first, and those created together in the store's order |
| ProtectedRoute.RoleDashboard | src/components/ProtectedRoute.tsx:31 | teachers are sent to the teacher dashboard and every other role to the student dashboard |
| ProtectedRoute.Guard | src/components/ProtectedRoute.tsx:15-40 | loading shows the loading view and nothing else does; signed out goes to login; every redirect is to one of the four paths, and only login is used when signed out; onboarding exactly for a signed-in user without a profile elsewhere |
| ProtectedRoute.ChildrenIff | src/components/ProtectedRoute.tsx:15-40 | the page renders exactly for a signed-in user without a profile on the onboarding page, or with an allowed role elsewhere |
| ProtectedRoute.DashboardRedirect | src/components/ProtectedRoute.tsx:29-38 | a user with a profile is redirected exactly from onboarding or a route excluding the role, and then to the role's dashboard |
| ProtectedRoute.RedirectSettles | src/components/ProtectedRoute.tsx:25-38 | following the redirect renders the target page: no redirect loop for a role the target route admits |
| Layout.DisplayName | src/components/Layout.tsx:41-45 | the header name holds no space: the first word of the profile name when it is set, else of the sign-in name, else "User" |
| Layout.LeadingSpaceShowsEmpty | src/components/Layout.tsx:42 | a profile name that starts with a space shows as the empty word instead of falling back |
| Layout.DashboardLink | src/components/Layout.tsx:47-52 | login when signed out, onboarding without a profile, the student dashboard in student view, else the role's dashboard |
| Layout.DashboardLinkRenders | src/components/Layout.tsx:47-52 | the dashboard link leads to a page the route guard renders, when the link's route admits the role |
| Layout.ToggleTarget | src/components/Layout.tsx:54-60 | from the student view to the teacher dashboard, otherwise to the student dashboard |
| Layout.ToggleFlips | src/components/Layout.tsx:54-60 | the toggle always flips the view, so two toggles return to the same view |
| Layout.Header.constructor | src/components/Layout.tsx:14 | no class is known to list the user at first |
| Layout.Header.CheckEnrollment | src/components/Layout.tsx:20-38 | only for a signed-in non-teacher and a successful query, the flag is whether some class lists the user; otherwise it is unchanged |
| Layout.Header.JoinButton | src/components/Layout.tsx:75-89 | the Join Class button shows exactly for a signed-in user who is a student, or a teacher in student view, while no class lists the user; never when signed out |
| Layout.JoinButtonAudience | src/components/Layout.tsx:23-30 | a signed-out visitor never sees the button; for a signed-in student after a successful enrolment query, it shows exactly when no class lists them |
| Docs.SubmissionId | src/features/thesis/ThesisPage.tsx:73 | a submission's id is the user id, an underscore and the assignment id |
| Docs.Merge | src/features/thesis/ThesisPage.tsx:118-124 | a merge write keeps every field, with the written fields replaced and every other stored field as it was |
| Docs.MergeInto | src/features/thesis/ThesisPage.tsx:118-124 | a merge write creates the document when missing, merges into it otherwise, and leaves every other document alone |
| Docs.MergeCommutesOnDisjoint | src/features/writer/EssayPage.tsx:55-73 | two merge writes on disjoint fields give the same document in either order, and each keeps its own fields |
| Js.Trim | src/features/dashboard/components/JoinClassModal.tsx:21 | `trim()` is empty exactly for whitespace-only text, never starts or ends with whitespace, and is never longer |
| Js.TrimEmptyIff | src/features/dashboard/components/JoinClassModal.tsx:21 | a string trims to something exactly when it holds a non-whitespace character |
| Js.TrimIdempotent | src/pages/Login.tsx:31 | trimming twice is trimming once |
| Js.Slice | src/features/teacher/TeacherReview.tsx:127 | `slice` with indices in range is the subsequence between them, and never longer than the text |
| Js.Substring | src/features/reader/TextReader.tsx:193 | `substring` gives the text between its two indices, in either order |
| Js.Prefix | src/features/dashboard/AssignmentDetail.tsx:55 | `slice(0, n)` keeps the first n characters, or the whole of a shorter text |
| Js.FirstWord | src/components/Layout.tsx:42 | `split(' ')[0]` is the prefix up to the first space, and holds none |
| Js.ToUpper | src/features/dashboard/components/JoinClassModal.tsx:28 | upper-casing maps each character, keeping the length |
| Js.ToLower | src/pages/Login.tsx:111 | lower-casing maps each character, keeping the length |
| Js.Dedup | src/features/thesis/ThesisPage.tsx:70 | `Array.from(new Set(xs))` keeps each element once, and only the elements of xs |
| Js.DedupSnoc | src/features/thesis/ThesisPage.tsx:70 | one more element is appended to the Set's list exactly when it is new |
| Js.DedupPrefix | src/features/thesis/ThesisPage.tsx:70 | the Set's list of a prefix is a prefix of the Set's list: values keep the order in which they first appear |
| Js.DedupFirstOccurrence | src/features/thesis/ThesisPage.tsx:70 | a value first met at position k sits right after the values met before it |
| Js.NatToString | src/features/writer/ParagraphBuilder.tsx:37 | a number's decimal text is one or more digits, a single digit exactly below 10 |
| Js.NatToStringInjective | src/features/writer/EssayAssembler.tsx:88 | different numbers have different decimal texts |
| Js.Filter | src/features/writer/ParagraphPage.tsx:81 | `filter` keeps exactly the elements that pass, never more |
| Js.Find | src/features/writer/ParagraphPage.tsx:83 | `find` gives nothing exactly when no element passes, else the first element that passes |
| Js.Map | src/features/writer/ParagraphPage.tsx:55 | `map` keeps the length and applies the function position by position |
| Sorting.SortBy | src/features/dashboard/StudentDashboard.tsx:44-48 | sorting by a key keeps the length and the multiset of elements and orders the keys ascending |
| Sorting.SortStable | src/features/dashboard/StudentDashboard.tsx:44-48 | the sort is stable: elements with equal keys keep their relative order |
| Sorting.SortByDistinct | src/features/teacher/TeacherReview.tsx:119 | sorting distinct elements keeps them distinct |

## Left out

- Firestore: reads and writes (getDoc, getDocs, setDoc, addDoc, updateDoc, deleteDoc, serverTimestamp) act on in-memory maps and sequences. A failing write is a boolean parameter, and so is a failing query in the header, the teacher dashboard and the join dialog. The student dashboard and the thesis, essay and paragraph pages run several reads in one `try`; their `Load` takes the number of reads that answer before one throws, and what the later reads would have set keeps its old value. In the assignment detail page and the teacher dashboard's roster, a lookup that fails is treated like a missing document, which is what their `catch` blocks leave behind. Listeners and network behaviour are not modelled.
- Query order: the order of a Firestore query's results is the order of the list, followed by the explicit `SortBy` where the code sorts. The 10-id limit of an `in` query is not modelled.
- `Promise.all` batches become sequential map reads, in list order. Concurrency and interleaving are not modelled.
- Authentication: Google sign-in, password handling, sign-out and the auth context are outside the model. `Login.Form.HandleSubmit` takes the provider's answer as a parameter. src/contexts/AuthContext.tsx is not part of this model.
- DOM geometry and rendering: offsets of a selection (`getAbsoluteOffset`), bounding boxes, scrolling, styling and JSX are not modelled. Offsets and the sidebar position are inputs. `TextReader.Align` takes them as integers.
- Drag and drop: only the library's result fields are modelled (source index, destination, droppable id, draggable id). Native drag events are not.
- EssayAssembler.HandleDragEnd: requires the source index to lie within the list, which the drag library guarantees for a drag that started on one of its items.
- `Math.random` is an oracle `nat -> Draw` for join codes. `Date.now` and the paragraph id's random token are parameters.
- Dates and times are integers: `toDate`, `toLocaleDateString` and `getHours` become a timestamp or an hour in 0..23. Formatting of dates is not modelled.
- CreateClass.Modal.HandleSubmit: a code-check query that throws is not modelled (`storeFails` is the `addDoc` write only). In the source it ends like a failed write (nothing stored, the submitting flag cleared), but after fewer random draws than `DrawsUsed` counts.
- TextReader.Reader.NewAnnotation: does not store the annotation's `createdAt` stamp (`new Date()`, src/features/reader/TextReader.tsx line 345), because the clock is not modelled.
- TeacherDashboard.Percentage: the percentage is exact integer round-half-up of 100 × submitted / students. JavaScript's floating-point `Math.round(x * 100)` may differ from it by floating-point error.
- TeacherReview.Intensity: the heatmap opacity is modelled in integer hundredths (20 + 15n, capped at 60) rather than as a floating-point number.
- Case mapping covers ASCII letters only; Unicode case folding is not modelled.
- Text lengths and offsets count characters (Unicode scalar values), while JavaScript's `.length`, `slice`, `substring`, `maxLength` and selection offsets count UTF-16 code units; text outside the Basic Multilingual Plane (an emoji, say) counts once here and twice there. The members this affects are named on the next lines; the annotation offsets of `TextReader` and `TeacherReview` are in the same units as the text they index, so their slicing facts hold for either unit.
- TextReader.Reader.ValidateSpacecat: the 3/5/3/10/10 minimum lengths are counted in characters, so an answer such as two emoji, four code units in JavaScript, passes a 3-character minimum there but not here.
- JoinClass.Typed: the six-character cap of `maxLength={6}` is counted in characters, not UTF-16 code units.
- AssignmentDetail.DefaultName: `uid.slice(0, 5)` takes five characters, not five UTF-16 code units; Firebase user ids are ASCII, so the two agree on real ids.
- The RHETORICAL_VERBS table, the verb categories and their colours come from a data file that is not part of this model. Verbs are plain strings, and the annotation colour is the reader's fixed constant.
- Browser side effects are not modelled: navigation, `alert`, `confirm` (an input to `AssignmentDetail.Detail.HandleDelete`), the clipboard write of the copied essay, `setTimeout` and reloads.
- The teacher dashboard header's greeting name (the teacher's first name) is not modelled. Only the time-of-day greeting is.
- React effects run when the model's `Load` or `Recount` methods are called. Effect ordering and re-render timing are not modelled.
- Files without logic are not modelled: src/App.tsx, src/pages/Home.tsx, src/pages/Onboarding.tsx, src/features/dashboard/components/ClassSettingsModal.tsx and src/features/dashboard/mockData.ts. The type declarations appear only as the datatypes in `Docs`.

## Findings

| source | as written | input that shows it | evidently intended | confidence | as-written member | corrected member |
|---|---|---|---|---|---|---|
| src/features/dashboard/components/CreateAssignmentModal.tsx:22 | `replace(/\r\n/g, '\n')` makes one left-to-right pass, so a carriage return left in front of a new line feed survives, and the formatter is not idempotent | `"\r\r\n"` formats to `"\r\n\n"`, which still holds a Windows line ending; formatting that again gives `"\n\n"` | every run of carriage returns before a line feed goes (`/\r+\n/g`), so no Windows line ending remains and a second press changes nothing | not executed; latent, because a textarea's value holds no carriage return | AutoFormat.AsWrittenKeepsCrLf | AutoFormat.FormatIdempotent |

The defect is latent. `content` is set only from the textarea's value (CreateAssignmentModal.tsx:122-124) and by the formatter itself, and a browser normalises every line ending of a textarea's value to a line feed, so no carriage return reaches the formatter in the running page. On such content `AutoFormat.AsWrittenIdempotentWithoutCr` shows that the formatter as written equals the corrected one and that a second press changes nothing. The row records what the code does with a carriage return, which no path in the page supplies today. The formatter button, `CreateAssignment.Modal.HandleAutoFormat`, runs the formatter as written. `AutoFormat.Format` is the corrected reference, and `AutoFormat.AsWrittenWithoutDoubleCr` shows the two agree on content without two carriage returns in a row.
