/** The final-essay page (src/features/writer/EssayPage.tsx): it shows the stored thesis as a
    sentence, lets the student reorder the stored paragraphs, and marks the submission as
    submitted. */
module EssayPage {
  import opened Js
  import opened Docs
  import ThesisPage
  import ThesisBuilder

  /** This file's own copy of `toGerund`. */
  function ToGerund(verb: string): string {
    if EndsWith(verb, "ies") then verb[..|verb| - 3] + "ying"
    else if EndsWith(verb, "sses") || EndsWith(verb, "hes") then verb[..|verb| - 2] + "ing"
    else if EndsWith(verb, "es") then verb[..|verb| - 2] + "ing"
    else if EndsWith(verb, "s") then verb[..|verb| - 1] + "ing"
    else verb + "ing"
  }

  /** Both copies of the inflection agree on every verb. */
  lemma GerundCopiesAgree(verb: string)
    ensures ToGerund(verb) == ThesisPage.ToGerund(verb)
  {
  }

  /** The thesis line shown above the paragraphs: no author, '...' for each missing part. */
  function ThesisLine(t: ThesisState): string {
    (if Filled(t.verb1) then ToGerund(t.verb1.value) else "...") + ", then shifts to "
    + (if Filled(t.verb2) then ToGerund(t.verb2.value) else "...") + " in order to "
    + (if t.purpose != "" then t.purpose else "...") + "."
  }

  /** A verb not ending in 's' is inflected by a bare "ing" in both files. */
  lemma PlainVerbGerund(verb: string)
    requires !EndsWith(verb, "s")
    ensures ToGerund(verb) == verb + "ing"
  {
    var n := |verb|;
    assert !EndsWith(verb, "es") by { if n >= 2 { assert verb[n - 2..][1] == verb[n - 1]; } }
    assert !EndsWith(verb, "ies") by { if n >= 3 { assert verb[n - 3..][2] == verb[n - 1]; } }
    assert !EndsWith(verb, "hes") by { if n >= 3 { assert verb[n - 3..][2] == verb[n - 1]; } }
    assert !EndsWith(verb, "sses") by { if n >= 4 { assert verb[n - 4..][3] == verb[n - 1]; } }
  }

  /** For a complete thesis whose verbs do not end in 's', the builder's saved sentence is the
      author, " begins by ", and then exactly this page's thesis line. */
  lemma ThesisLineMatchesBuilder(author: string, t: ThesisState)
    requires !ThesisBuilder.SaveDisabled(t)
    requires !EndsWith(t.verb1.value, "s") && !EndsWith(t.verb2.value, "s")
    ensures ThesisBuilder.SaveText(author, t) == author + " begins by " + ThesisLine(t)
  {
    PlainVerbGerund(t.verb1.value);
    PlainVerbGerund(t.verb2.value);
    ThesisBuilder.EnabledSaveHasNoPlaceholder(author, t);
  }

  /** Every part missing gives the all-placeholder line. */
  lemma EmptyThesisLine()
    ensures ThesisLine(ThesisState(None, None, "")) == "..., then shifts to ... in order to ...."
  {
  }

  class Page {
    const readOnly: bool
    var thesis: string
    var paragraphs: seq<Paragraph>
    /** The `submissions` collection. */
    var submissions: map<string, Doc>

    constructor (readOnly: bool, submissions: map<string, Doc>)
      ensures this.readOnly == readOnly && this.submissions == submissions
      ensures thesis == "" && paragraphs == []
    {
      this.readOnly := readOnly;
      this.submissions := submissions;
      thesis := "";
      paragraphs := [];
    }

    /** `fetchData`: without an assignment id, a target user or a submission document nothing
        changes; a stored thesis becomes its line and stored paragraphs replace the list. The
        two reads (assignment, submission) run in that order inside one `try`: `okReads` of
        them answer before one throws (2 or more: none throws), and a throw changes nothing. */
    method Load(targetUid: string, assignmentId: string, okReads: nat)
      modifies this`thesis, this`paragraphs
      ensures assignmentId == "" || targetUid == "" || okReads < 2 ==>
        thesis == old(thesis) && paragraphs == old(paragraphs)
      ensures assignmentId != "" && targetUid != "" && okReads >= 2 ==> var id := SubmissionId(targetUid, assignmentId);
        && (id !in submissions ==> thesis == old(thesis) && paragraphs == old(paragraphs))
        && (id in submissions ==>
             && thesis == (if "thesis" in submissions[id] && submissions[id]["thesis"].ThesisVal?
                           then ThesisLine(submissions[id]["thesis"].thesis) else old(thesis))
             && paragraphs == (if "paragraphs" in submissions[id] && submissions[id]["paragraphs"].Paragraphs?
                               then submissions[id]["paragraphs"].items else old(paragraphs)))
    {
      if assignmentId == "" || targetUid == "" || okReads < 2 {
        return;
      }
      var id := SubmissionId(targetUid, assignmentId);
      if id in submissions {
        var data := submissions[id];
        if "thesis" in data && data["thesis"].ThesisVal? {
          thesis := ThesisLine(data["thesis"].thesis);
        }
        if "paragraphs" in data && data["paragraphs"].Paragraphs? {
          paragraphs := data["paragraphs"].items;
        }
      }
    }

    /** `handleSubmit`: outside read-only mode and with a user and an assignment, the status
        'submitted' and the time are merged into the submission. */
    method HandleSubmit(uid: Option<string>, assignmentId: string, now: int, storeFails: bool)
      modifies this`submissions
      ensures readOnly || uid.None? || assignmentId == "" || storeFails ==> submissions == old(submissions)
      ensures !readOnly && uid.Some? && assignmentId != "" && !storeFails ==>
        submissions == MergeInto(old(submissions), SubmissionId(uid.value, assignmentId),
                                 map["status" := Str("submitted"), "submittedAt" := Time(now)])
    {
      if readOnly {
        return;
      }
      if uid.None? || assignmentId == "" {
        return;
      }
      if !storeFails {
        submissions := MergeInto(submissions, SubmissionId(uid.value, assignmentId),
                                 map["status" := Str("submitted"), "submittedAt" := Time(now)]);
      }
    }

    /** `handleReorder`: the list always takes the new order; only outside read-only mode,
        with a user and an assignment, is the order merged into the submission. */
    method HandleReorder(newOrder: seq<Paragraph>, uid: Option<string>, assignmentId: string, storeFails: bool)
      modifies this`paragraphs, this`submissions
      ensures paragraphs == newOrder
      ensures readOnly || uid.None? || assignmentId == "" || storeFails ==> submissions == old(submissions)
      ensures !readOnly && uid.Some? && assignmentId != "" && !storeFails ==>
        submissions == MergeInto(old(submissions), SubmissionId(uid.value, assignmentId), map["paragraphs" := Paragraphs(newOrder)])
    {
      paragraphs := newOrder;
      if readOnly {
        return;
      }
      if uid.Some? && assignmentId != "" && !storeFails {
        submissions := MergeInto(submissions, SubmissionId(uid.value, assignmentId), map["paragraphs" := Paragraphs(newOrder)]);
      }
    }
  }
}
