/** The paragraph page (src/features/writer/ParagraphPage.tsx): the saved paragraphs, which
    of them is being edited, and which annotations are still free to start a paragraph. */
module ParagraphPage {
  import opened Js
  import opened Docs

  /** The `.map` in `handleSave`: every paragraph with the saved one's id is replaced by it. */
  function ReplaceById(paragraphs: seq<Paragraph>, p: Paragraph): (r: seq<Paragraph>)
    ensures |r| == |paragraphs|
  {
    Map(paragraphs, (q: Paragraph) => if q.id == p.id then p else q)
  }

  function Ids(paragraphs: seq<Paragraph>): (r: seq<string>)
    ensures |r| == |paragraphs| && forall i :: 0 <= i < |r| ==> r[i] == paragraphs[i].id
  {
    Map(paragraphs, (q: Paragraph) => q.id)
  }

  /** Replacing keeps the ids in their order, puts the saved paragraph wherever its id was,
      and leaves every other paragraph as it was. */
  lemma ReplaceKeepsOrder(paragraphs: seq<Paragraph>, p: Paragraph)
    ensures Ids(ReplaceById(paragraphs, p)) == Ids(paragraphs)
    ensures forall i :: 0 <= i < |paragraphs| ==>
      ReplaceById(paragraphs, p)[i] == if paragraphs[i].id == p.id then p else paragraphs[i]
  {
  }

  /** Saving the same paragraph twice is the same as saving it once. */
  lemma ReplaceIdempotent(paragraphs: seq<Paragraph>, p: Paragraph)
    ensures ReplaceById(ReplaceById(paragraphs, p), p) == ReplaceById(paragraphs, p)
  {
    var r := ReplaceById(paragraphs, p);
    ReplaceKeepsOrder(paragraphs, p);
    ReplaceKeepsOrder(r, p);
  }

  /** `usedAnnotationIds`: the claim ids of the saved paragraphs other than the one being
      edited, with missing claims and empty ids dropped. */
  function UsedIds(paragraphs: seq<Paragraph>, editingId: Option<string>): (r: seq<string>)
    ensures forall x :: x in r <==>
      x != "" && exists q :: q in paragraphs && editingId != Some(q.id) && q.claimVerb.Some? && q.claimVerb.value.id == x
  {
    if paragraphs == [] then []
    else
      var q := paragraphs[0];
      (if editingId != Some(q.id) && q.claimVerb.Some? && q.claimVerb.value.id != "" then [q.claimVerb.value.id] else [])
      + UsedIds(paragraphs[1..], editingId)
  }

  /** `availableAnnotations`: the annotations no other paragraph claims, in their order. */
  function Available(annotations: seq<Annotation>, used: seq<string>): (r: seq<Annotation>)
    ensures forall a :: a in r <==> a in annotations && a.id !in used
  {
    Filter(annotations, (a: Annotation) => a.id !in used)
  }

  /** The paragraph being edited keeps its own annotation in the bank, so it can be dragged
      back into the claim slot; an annotation claimed by another paragraph is not offered. */
  lemma EditedClaimStaysAvailable(paragraphs: seq<Paragraph>, editingId: string, annotations: seq<Annotation>, a: Annotation)
    requires a in annotations
    requires forall q :: q in paragraphs && q.claimVerb.Some? && q.claimVerb.value.id == a.id ==> q.id == editingId
    ensures a in Available(annotations, UsedIds(paragraphs, Some(editingId)))
  {
  }

  lemma ClaimedElsewhereUnavailable(paragraphs: seq<Paragraph>, editingId: Option<string>, annotations: seq<Annotation>, q: Paragraph)
    requires q in paragraphs && editingId != Some(q.id) && q.claimVerb.Some? && q.claimVerb.value.id != ""
    ensures forall a :: a in Available(annotations, UsedIds(paragraphs, editingId)) ==> a.id != q.claimVerb.value.id
  {
  }

  /** `paragraphToEdit`: the first saved paragraph with the editing id, or nothing. */
  function ToEdit(paragraphs: seq<Paragraph>, editingId: Option<string>): (r: Option<Paragraph>)
    ensures editingId.None? ==> r.None?
    ensures r.Some? ==> r.value in paragraphs && Some(r.value.id) == editingId
    ensures r.None? ==> forall q :: q in paragraphs ==> Some(q.id) != editingId
  {
    Find(paragraphs, (q: Paragraph) => Some(q.id) == editingId)
  }

  class Page {
    const readOnly: bool
    var annotations: seq<Annotation>
    var existingParagraphs: seq<Paragraph>
    var editingId: Option<string>
    /** The `submissions` collection. */
    var submissions: map<string, Doc>

    constructor (readOnly: bool, submissions: map<string, Doc>)
      ensures this.readOnly == readOnly && this.submissions == submissions
      ensures annotations == [] && existingParagraphs == [] && editingId.None?
    {
      this.readOnly := readOnly;
      this.submissions := submissions;
      annotations := [];
      existingParagraphs := [];
      editingId := None;
    }

    /** `fetchData`: the target's annotations on the assignment, and the saved paragraphs
        when the submission has any. The three reads (assignment, annotations, submission)
        run in that order inside one `try`: `okReads` of them answer before one throws, and
        what the later ones would have set keeps its old value (3 or more: none throws). */
    method Load(assignmentId: string, targetUid: string, allAnnotations: seq<Annotation>, okReads: nat)
      modifies this`annotations, this`existingParagraphs
      ensures assignmentId == "" || targetUid == "" ==>
        annotations == old(annotations) && existingParagraphs == old(existingParagraphs)
      ensures assignmentId != "" && targetUid != "" ==>
        annotations == if okReads >= 2
                       then Filter(allAnnotations, (a: Annotation) => a.assignmentId == assignmentId && a.userId == targetUid)
                       else old(annotations)
      ensures assignmentId != "" && targetUid != "" ==> var id := SubmissionId(targetUid, assignmentId);
        existingParagraphs == if okReads >= 3 && id in submissions && "paragraphs" in submissions[id] && submissions[id]["paragraphs"].Paragraphs?
                              then submissions[id]["paragraphs"].items else old(existingParagraphs)
    {
      if assignmentId == "" || targetUid == "" || okReads < 2 {
        return;
      }
      annotations := Filter(allAnnotations, (a: Annotation) => a.assignmentId == assignmentId && a.userId == targetUid);
      if okReads == 2 {
        return;
      }
      var id := SubmissionId(targetUid, assignmentId);
      if id in submissions && "paragraphs" in submissions[id] && submissions[id]["paragraphs"].Paragraphs? {
        existingParagraphs := submissions[id]["paragraphs"].items;
      }
    }

    /** Clicking a saved paragraph outside read-only mode starts editing it. */
    method StartEditing(id: string)
      modifies this`editingId
      ensures editingId == if readOnly then old(editingId) else Some(id)
    {
      if !readOnly {
        editingId := Some(id);
      }
    }

    /** The builder's cancel button leaves edit mode. */
    method CancelEditing()
      modifies this`editingId
      ensures editingId.None?
    {
      editingId := None;
    }

    /** `handleSave`: while editing, the paragraph replaces the saved one with its id and edit
        mode ends; otherwise it is appended. The new list is then merged into the
        submission; a failed write leaves the store as it was. */
    method HandleSave(p: Paragraph, uid: Option<string>, assignmentId: string, now: int, storeFails: bool)
      modifies this`existingParagraphs, this`editingId, this`submissions
      ensures uid.None? || assignmentId == "" || readOnly ==>
        existingParagraphs == old(existingParagraphs) && editingId == old(editingId) && submissions == old(submissions)
      ensures uid.Some? && assignmentId != "" && !readOnly ==>
        && (Filled(old(editingId)) ==> existingParagraphs == ReplaceById(old(existingParagraphs), p) && editingId.None?)
        && (!Filled(old(editingId)) ==> existingParagraphs == old(existingParagraphs) + [p] && editingId == old(editingId))
        && submissions == if storeFails then old(submissions)
                          else MergeInto(old(submissions), SubmissionId(uid.value, assignmentId),
                                         map["paragraphs" := Paragraphs(existingParagraphs), "updatedAt" := Time(now)])
    {
      if uid.None? || assignmentId == "" || readOnly {
        return;
      }
      var newParagraphs;
      if editingId.Some? && editingId.value != "" {
        newParagraphs := ReplaceById(existingParagraphs, p);
        editingId := None;
      } else {
        newParagraphs := existingParagraphs + [p];
      }
      existingParagraphs := newParagraphs;
      if !storeFails {
        submissions := MergeInto(submissions, SubmissionId(uid.value, assignmentId),
                                 map["paragraphs" := Paragraphs(newParagraphs), "updatedAt" := Time(now)]);
      }
    }

    /** The annotations shown in the builder's evidence bank. */
    function AvailableAnnotations(): (r: seq<Annotation>)
      reads this
      ensures forall a :: a in r <==> a in annotations && a.id !in UsedIds(existingParagraphs, editingId)
    {
      Available(annotations, UsedIds(existingParagraphs, editingId))
    }
  }
}
