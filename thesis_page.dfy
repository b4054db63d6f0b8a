/** The thesis page (src/features/thesis/ThesisPage.tsx): two rhetorical verbs dropped into
    slots plus a purpose clause, shown through a gerund inflection, and saved into the
    student's submission with merge semantics. */
module ThesisPage {
  import opened Js
  import opened Docs

  /** `toGerund`: the first matching suffix rule wins. */
  function ToGerund(verb: string): (r: string)
    ensures EndsWith(r, "ing")
    ensures |r| > |verb|
    ensures |verb| >= 3 ==> r[..|verb| - 3] == verb[..|verb| - 3]
  {
    if EndsWith(verb, "ies") then verb[..|verb| - 3] + "ying"
    else if EndsWith(verb, "sses") || EndsWith(verb, "hes") then verb[..|verb| - 2] + "ing"
    else if EndsWith(verb, "es") then verb[..|verb| - 2] + "ing"
    else if EndsWith(verb, "s") then verb[..|verb| - 1] + "ing"
    else verb + "ing"
  }

  /** The inflections written next to the rules. */
  lemma GerundExamples()
    ensures ToGerund("Amplifies") == "Amplifying"
    ensures ToGerund("Digresses") == "Digressing"
    ensures ToGerund("Juxtaposes") == "Juxtaposing"
    ensures ToGerund("Highlights") == "Highlighting"
    ensures ToGerund("Shows") == "Showing"
  {
    IesExample();
    SsesExample();
    EsExample();
    SExample();
    ShowsExample();
  }

  lemma IesExample()
    ensures ToGerund("Amplifies") == "Amplifying"
  {
    assert EndsWith("Amplifies", "ies");
  }

  lemma SsesExample()
    ensures ToGerund("Digresses") == "Digressing"
  {
    assert !EndsWith("Digresses", "ies") && EndsWith("Digresses", "sses");
  }

  lemma EsExample()
    ensures ToGerund("Juxtaposes") == "Juxtaposing"
  {
    assert !EndsWith("Juxtaposes", "ies") && !EndsWith("Juxtaposes", "sses") && !EndsWith("Juxtaposes", "hes");
    assert EndsWith("Juxtaposes", "es");
  }

  lemma SExample()
    ensures ToGerund("Highlights") == "Highlighting"
  {
    assert !EndsWith("Highlights", "ies") && !EndsWith("Highlights", "sses") && !EndsWith("Highlights", "hes");
    assert !EndsWith("Highlights", "es") && EndsWith("Highlights", "s");
  }

  lemma ShowsExample()
    ensures ToGerund("Shows") == "Showing"
  {
    assert !EndsWith("Shows", "ies") && !EndsWith("Shows", "sses") && !EndsWith("Shows", "hes");
    assert !EndsWith("Shows", "es") && EndsWith("Shows", "s");
  }

  /** The 'sses'/'hes' rule gives exactly what the 'es' rule would have given. */
  lemma SsesHesRuleIsEsRule(verb: string)
    requires EndsWith(verb, "sses") || EndsWith(verb, "hes")
    ensures EndsWith(verb, "es") && !EndsWith(verb, "ies")
    ensures ToGerund(verb) == verb[..|verb| - 2] + "ing"
  {
    var n := |verb|;
    if EndsWith(verb, "sses") {
      assert verb[n - 4..][1] == 's' && verb[n - 4..][2] == 'e' && verb[n - 4..][3] == 's';
    } else {
      assert verb[n - 3..][0] == 'h' && verb[n - 3..][1] == 'e' && verb[n - 3..][2] == 's';
    }
    assert verb[n - 3] != 'i' && verb[n - 2] == 'e' && verb[n - 1] == 's';
    assert verb[n - 2..] == "es";
    assert verb[n - 3..][0] != 'i';
  }

  /** The order of the 'ies', 'es' and 's' rules matters: the later rules would inflect an
      'ies' verb differently, and the 's' rule would inflect an 'es' verb differently. */
  lemma RuleOrderMatters(verb: string)
    ensures EndsWith(verb, "ies") ==> ToGerund(verb) != verb[..|verb| - 2] + "ing"
    ensures EndsWith(verb, "ies") ==> ToGerund(verb) != verb[..|verb| - 1] + "ing"
    ensures EndsWith(verb, "es") && !EndsWith(verb, "ies") ==> ToGerund(verb) != verb[..|verb| - 1] + "ing"
  {
    var n := |verb|;
    if EndsWith(verb, "ies") {
      assert ToGerund(verb)[n - 3] == 'y';
      assert (verb[..n - 2] + "ing")[n - 3] == verb[n - 3] == verb[n - 3..][0] == 'i';
      assert (verb[..n - 1] + "ing")[n - 3] == verb[n - 3] == 'i';
    } else if EndsWith(verb, "es") {
      var r := ToGerund(verb);
      assert |r| == n + 1;
      assert |verb[..n - 1] + "ing"| == n + 2;
    }
  }

  datatype Slot = Verb1 | Verb2

  function SlotValue(t: ThesisState, slot: Slot): Option<string> {
    match slot
    case Verb1 => t.verb1
    case Verb2 => t.verb2
  }

  /** `setThesis(prev => ({ ...prev, [slot]: v }))` */
  function WithSlot(t: ThesisState, slot: Slot, v: Option<string>): (r: ThesisState)
    ensures SlotValue(r, slot) == v
    ensures forall other :: other != slot ==> SlotValue(r, other) == SlotValue(t, other)
    ensures r.purpose == t.purpose
  {
    match slot
    case Verb1 => t.(verb1 := v)
    case Verb2 => t.(verb2 := v)
  }

  /** The save button is disabled while saving and, outside read-only mode, until both
      slots and the purpose are non-empty; nothing is trimmed. */
  predicate SaveDisabled(readOnly: bool, t: ThesisState, isSaving: bool) {
    (!readOnly && (!Filled(t.verb1) || !Filled(t.verb2) || t.purpose == "")) || isSaving
  }

  lemma SaveEnabledIff(t: ThesisState)
    ensures !SaveDisabled(false, t, false) <==> Filled(t.verb1) && Filled(t.verb2) && t.purpose != ""
    ensures !SaveDisabled(true, t, false)
    ensures SaveDisabled(false, t, true)
  {
  }

  /** A purpose made of spaces alone still enables saving. */
  lemma BlankPurposeEnablesSave(v1: string, v2: string)
    requires v1 != "" && v2 != ""
    ensures !SaveDisabled(false, ThesisState(Some(v1), Some(v2), " "), false)
  {
  }

  /** The verbs of this student's annotations, each once, in first-seen order. */
  function VerbOf(a: Annotation): string { a.verb }

  function CollectedVerbs(anns: seq<Annotation>): (r: seq<string>)
    ensures forall v :: v in r <==> exists a :: a in anns && a.verb == v
    ensures NoDuplicates(r)
  {
    var verbs := Map(anns, VerbOf);
    assert forall v :: v in verbs <==> exists a :: a in anns && a.verb == v by {
      forall v ensures v in verbs <==> exists a :: a in anns && a.verb == v {
        if v in verbs {
          var i :| 0 <= i < |verbs| && verbs[i] == v;
          assert anns[i] in anns;
        }
        if exists a :: a in anns && a.verb == v {
          var a :| a in anns && a.verb == v;
          var i :| 0 <= i < |anns| && anns[i] == a;
          assert verbs[i] == v;
        }
      }
    }
    Dedup(verbs)
  }

  /** The bank lists verbs in the order the annotations first use them: the verbs of the
      first k annotations come first, and a verb first used by annotation k comes right
      after them. */
  lemma CollectedVerbsOrder(anns: seq<Annotation>, k: nat)
    requires k < |anns|
    ensures CollectedVerbs(anns[..k]) <= CollectedVerbs(anns)
    ensures (forall j :: 0 <= j < k ==> anns[j].verb != anns[k].verb) ==>
      |CollectedVerbs(anns[..k])| < |CollectedVerbs(anns)| && CollectedVerbs(anns)[|CollectedVerbs(anns[..k])|] == anns[k].verb
  {
    var verbs := Map(anns, VerbOf);
    assert Map(anns[..k], VerbOf) == verbs[..k];
    DedupPrefix(verbs, k);
    if forall j :: 0 <= j < k ==> anns[j].verb != anns[k].verb {
      assert verbs[k] !in verbs[..k] by {
        forall j | 0 <= j < k
          ensures verbs[..k][j] != verbs[k]
        {
          assert verbs[..k][j] == anns[j].verb;
        }
      }
      DedupFirstOccurrence(verbs, k);
    }
  }

  /** The fields `handleSave` merges into the submission. */
  function ThesisUpdate(uid: string, assignmentId: string, t: ThesisState, now: int): (d: Doc)
    ensures d.Keys == {"userId", "assignmentId", "thesis", "status", "updatedAt"}
    ensures d["thesis"] == ThesisVal(t) && d["status"] == Str("thesis_drafted")
  {
    map["userId" := Str(uid), "assignmentId" := Str(assignmentId), "thesis" := ThesisVal(t),
        "status" := Str("thesis_drafted"), "updatedAt" := Time(now)]
  }

  /** Saving the thesis keeps the rhetorical-situation answers and the paragraphs already
      stored in the submission. */
  lemma SaveKeepsOtherSteps(store: map<string, Doc>, uid: string, assignmentId: string, t: ThesisState, now: int, field: string)
    requires field !in {"userId", "assignmentId", "thesis", "status", "updatedAt"}
    requires SubmissionId(uid, assignmentId) in store && field in store[SubmissionId(uid, assignmentId)]
    ensures var r := MergeInto(store, SubmissionId(uid, assignmentId), ThesisUpdate(uid, assignmentId, t, now));
      r[SubmissionId(uid, assignmentId)][field] == store[SubmissionId(uid, assignmentId)][field]
      && r[SubmissionId(uid, assignmentId)]["thesis"] == ThesisVal(t)
  {
  }

  class Page {
    /** The page reviews a student's work when a student id is in the route. */
    const readOnly: bool
    var thesis: ThesisState
    var collectedVerbs: seq<string>
    var authorName: string
    /** The `submissions` collection. */
    var submissions: map<string, Doc>

    constructor (readOnly: bool, submissions: map<string, Doc>)
      ensures this.readOnly == readOnly && this.submissions == submissions
      ensures thesis == ThesisState(None, None, "") && collectedVerbs == [] && authorName == ""
    {
      this.readOnly := readOnly;
      this.submissions := submissions;
      thesis := ThesisState(None, None, "");
      collectedVerbs := [];
      authorName := "";
    }

    /** `fetchData`: without an assignment id or a target user nothing happens; otherwise the
        author (defaulting to "The Author"), the de-duplicated verbs, and a thesis stored
        earlier, if any. The three reads (assignment, annotations, submission) run in that
        order inside one `try`: `okReads` of them answer before one throws, and what the later
        ones would have set keeps its old value (3 or more: none throws). */
    method Load(assignment: Option<Assignment>, anns: seq<Annotation>, targetUid: string, assignmentId: string, okReads: nat)
      modifies this`authorName, this`collectedVerbs, this`thesis
      ensures assignmentId == "" || targetUid == "" ==>
        authorName == old(authorName) && collectedVerbs == old(collectedVerbs) && thesis == old(thesis)
      ensures assignmentId != "" && targetUid != "" ==>
        authorName == if okReads >= 1 && assignment.Some?
                      then (if assignment.value.author != "" then assignment.value.author else "The Author")
                      else old(authorName)
      ensures assignmentId != "" && targetUid != "" ==>
        collectedVerbs == if okReads >= 2 then CollectedVerbs(anns) else old(collectedVerbs)
      ensures assignmentId != "" && targetUid != "" ==> var id := SubmissionId(targetUid, assignmentId);
        thesis == if okReads >= 3 && id in submissions && "thesis" in submissions[id] && submissions[id]["thesis"].ThesisVal?
                  then submissions[id]["thesis"].thesis else old(thesis)
    {
      if assignmentId == "" || targetUid == "" || okReads == 0 {
        return;
      }
      if assignment.Some? {
        authorName := if assignment.value.author != "" then assignment.value.author else "The Author";
      }
      if okReads == 1 {
        return;
      }
      collectedVerbs := CollectedVerbs(anns);
      if okReads == 2 {
        return;
      }
      var id := SubmissionId(targetUid, assignmentId);
      if id in submissions && "thesis" in submissions[id] && submissions[id]["thesis"].ThesisVal? {
        thesis := submissions[id]["thesis"].thesis;
      }
    }

    /** `handleDrop`: the dragged verb goes into the named slot only. */
    method HandleDrop(slot: Slot, verb: string)
      modifies this`thesis
      ensures thesis == WithSlot(old(thesis), slot, Some(verb))
    {
      match slot {
        case Verb1 => thesis := thesis.(verb1 := Some(verb));
        case Verb2 => thesis := thesis.(verb2 := Some(verb));
      }
    }

    /** The clear button of a slot. */
    method ClearSlot(slot: Slot)
      modifies this`thesis
      ensures thesis == WithSlot(old(thesis), slot, None)
    {
      match slot {
        case Verb1 => thesis := thesis.(verb1 := None);
        case Verb2 => thesis := thesis.(verb2 := None);
      }
    }

    method SetPurpose(purpose: string)
      modifies this`thesis
      ensures thesis == old(thesis).(purpose := purpose)
    {
      thesis := thesis.(purpose := purpose);
    }

    /** `handleSave`: read-only moves on without writing; otherwise, with a user and an
        assignment, the thesis and the 'thesis_drafted' status are merged into the submission.
        A failing store call leaves it unchanged. */
    method HandleSave(uid: Option<string>, assignmentId: string, now: int, storeFails: bool)
      modifies this`submissions
      ensures readOnly || uid.None? || assignmentId == "" || storeFails ==> submissions == old(submissions)
      ensures !readOnly && uid.Some? && assignmentId != "" && !storeFails ==>
        submissions == MergeInto(old(submissions), SubmissionId(uid.value, assignmentId), ThesisUpdate(uid.value, assignmentId, thesis, now))
    {
      if readOnly {
        return;
      }
      if uid.None? || assignmentId == "" {
        return;
      }
      if !storeFails {
        submissions := MergeInto(submissions, SubmissionId(uid.value, assignmentId), ThesisUpdate(uid.value, assignmentId, thesis, now));
      }
    }
  }
}
