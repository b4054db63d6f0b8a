/** The student's join-class dialog (src/features/dashboard/components/JoinClassModal.tsx):
    the typed code is upper-cased and capped, looked up after trimming, and the student is
    added to the first class with that code unless already enrolled. */
module JoinClass {
  import opened Js
  import opened Docs

  /** The input's `maxLength`. */
  const CodeLength: nat := 6

  const InvalidCodeMessage: string := "Invalid join code. Please check and try again."
  const AlreadyEnrolledMessage: string := "You are already enrolled in this class."
  const FailureMessage: string := "Failed to join class. Please try again."

  /** The code the lookup uses, `joinCode.toUpperCase().trim()`, with `trim` written as its
      two halves (see `NormalizeFacts`). */
  function NormalizeCode(code: string): string {
    TrimEnd(TrimStart(ToUpper(code)))
  }

  /** The normalised code is the trimmed upper-cased input: no longer, upper case, and
      without whitespace at either end. */
  lemma NormalizeFacts(code: string)
    ensures NormalizeCode(code) == Trim(ToUpper(code))
    ensures |NormalizeCode(code)| <= |code|
    ensures forall c :: c in NormalizeCode(code) ==> UpperChar(c) == c
    ensures var r := NormalizeCode(code); r == [] || (!IsSpace(r[0]) && !IsSpace(r[|r| - 1]))
  {
    var u := ToUpper(code);
    var r := Trim(u);
    TrimWithin(u);
    forall c | c in r ensures UpperChar(c) == c {
      var i :| 0 <= i < |u| && u[i] == c;
      assert c == UpperChar(code[i]);
    }
  }

  /** Normalising a normalised code changes nothing. */
  lemma NormalizeIdempotent(code: string)
    ensures NormalizeCode(NormalizeCode(code)) == NormalizeCode(code)
  {
    var r := NormalizeCode(code);
    NormalizeFacts(code);
    ToUpperFixed(r);
    TrimOfTrimmed(r);
  }

  /** What the input holds after the student types: at most six characters, upper-cased. */
  function Typed(text: string): (r: string)
    ensures |r| <= CodeLength && |r| == if |text| <= CodeLength then |text| else CodeLength
    ensures forall i :: 0 <= i < |r| ==> r[i] == UpperChar(text[i])
  {
    ToUpper(Prefix(text, CodeLength))
  }

  /** The index of the first class with the code: the query's first document. */
  function FirstWithCode(classes: seq<ClassDoc>, code: string): (r: Option<nat>)
    ensures r.Some? ==> r.value < |classes| && classes[r.value].joinCode == code
    ensures r.Some? ==> forall k :: 0 <= k < r.value ==> classes[k].joinCode != code
    ensures r.None? <==> forall c :: c in classes ==> c.joinCode != code
  {
    if classes == [] then None
    else if classes[0].joinCode == code then Some(0)
    else match FirstWithCode(classes[1..], code) {
      case None => None
      case Some(k) => Some(k + 1)
    }
  }

  /** `arrayUnion(uid)`: the list with the uid appended unless it is there already. */
  function ArrayUnion(ids: seq<string>, uid: string): (r: seq<string>)
    ensures forall x :: x in r <==> x in ids || x == uid
    ensures |ids| <= |r| && r[..|ids|] == ids
    ensures NoDuplicates(ids) ==> NoDuplicates(r)
  {
    if uid in ids then ids else ids + [uid]
  }

  /** The updated class document: only `studentIds` changes, and a missing list starts empty. */
  function Enrol(c: ClassDoc, uid: string): (r: ClassDoc)
    ensures Enrolled(r, uid)
    ensures r.id == c.id && r.name == c.name && r.description == c.description && r.teacherId == c.teacherId
    ensures r.teacherName == c.teacherName && r.joinCode == c.joinCode && r.createdAt == c.createdAt
    ensures forall x :: x in r.studentIds.value <==> x == uid || Enrolled(c, x)
  {
    c.(studentIds := Some(ArrayUnion(if c.studentIds.Some? then c.studentIds.value else [], uid)))
  }

  /** A second join with the same account is refused as already enrolled, and enrolling
      again would change nothing. */
  lemma EnrolIdempotent(c: ClassDoc, uid: string)
    ensures Enrolled(Enrol(c, uid), uid)
    ensures Enrol(Enrol(c, uid), uid) == Enrol(c, uid)
  {
  }

  /** Enrolling keeps a class roster free of duplicates. */
  lemma EnrolKeepsRosterUnique(c: ClassDoc, uid: string)
    requires c.studentIds.Some? ==> NoDuplicates(c.studentIds.value)
    ensures NoDuplicates(Enrol(c, uid).studentIds.value)
  {
  }

  datatype Outcome = Ignored | InvalidCode | AlreadyEnrolled | Joined | Failed

  /** The error line each outcome leaves in the dialog. */
  function Message(o: Outcome): (m: Option<string>)
    ensures m.None? <==> o.Joined? || o.Ignored?
  {
    match o
    case InvalidCode => Some(InvalidCodeMessage)
    case AlreadyEnrolled => Some(AlreadyEnrolledMessage)
    case Failed => Some(FailureMessage)
    case _ => None
  }

  /** How a join that reaches the store ends, for the normalised code. */
  function JoinOutcome(classes: seq<ClassDoc>, code: string, uid: string, lookupFails: bool, updateFails: bool): (o: Outcome)
    ensures !o.Ignored?
    ensures o.Failed? <==> lookupFails || (o != InvalidCode && o != AlreadyEnrolled && updateFails)
  {
    if lookupFails then Failed
    else match FirstWithCode(classes, code)
      case None => InvalidCode
      case Some(i) =>
        if Enrolled(classes[i], uid) then AlreadyEnrolled
        else if updateFails then Failed
        else Joined
  }

  /** An unknown code is one no class has; a refused or successful join found a class with
      the code that did, or did not, already list the student. */
  lemma JoinOutcomeMeaning(classes: seq<ClassDoc>, code: string, uid: string, lookupFails: bool, updateFails: bool)
    ensures var o := JoinOutcome(classes, code, uid, lookupFails, updateFails);
      && (o.InvalidCode? <==> !lookupFails && forall c :: c in classes ==> c.joinCode != code)
      && (o.AlreadyEnrolled? ==> exists c :: c in classes && c.joinCode == code && Enrolled(c, uid))
      && (o.Joined? ==> exists c :: c in classes && c.joinCode == code && !Enrolled(c, uid))
  {
    var f := FirstWithCode(classes, code);
    if f.Some? {
      assert classes[f.value] in classes;
    }
  }

  /** The store after a successful join: the first class with the code gains the uid. */
  function AfterJoin(classes: seq<ClassDoc>, code: string, uid: string): (r: seq<ClassDoc>)
    requires FirstWithCode(classes, code).Some?
    ensures |r| == |classes|
    ensures var i := FirstWithCode(classes, code).value;
      r[i] == Enrol(classes[i], uid) && forall k :: 0 <= k < |classes| && k != i ==> r[k] == classes[k]
  {
    var i := FirstWithCode(classes, code).value;
    classes[i := Enrol(classes[i], uid)]
  }

  class Modal {
    var joinCode: string
    var isSubmitting: bool
    var error: Option<string>
    var success: bool
    /** The `classes` collection. */
    var classes: seq<ClassDoc>

    constructor (classes: seq<ClassDoc>)
      ensures this.classes == classes && joinCode == "" && !isSubmitting && error.None? && !success
    {
      this.classes := classes;
      joinCode := "";
      isSubmitting := false;
      error := None;
      success := false;
    }

    /** The input's change handler under its six-character cap. */
    method Type(text: string)
      modifies this`joinCode
      ensures joinCode == Typed(text)
    {
      joinCode := ToUpper(Prefix(text, CodeLength));
    }

    /** The submit button is enabled only with six characters and no join in flight. */
    function CanSubmit(): (r: bool)
      reads this
      ensures r <==> !isSubmitting && |joinCode| >= CodeLength
    {
      !(isSubmitting || |joinCode| < CodeLength)
    }

    /** `handleJoin`: without a user or with a blank code (see `Js.TrimEmptyIff`) nothing
        happens. Otherwise the normalised code is looked up and the join ends as
        `JoinOutcome` says; only a successful join changes the store, as `AfterJoin` says.
        Either way the spinner is off afterwards and the error line shows `Message`. */
    method HandleJoin(uid: Option<string>, lookupFails: bool, updateFails: bool) returns (outcome: Outcome)
      modifies this`isSubmitting, this`error, this`success, this`classes
      ensures outcome.Ignored? <==> uid.None? || !HasNonSpace(joinCode)
      ensures outcome.Ignored? ==>
        isSubmitting == old(isSubmitting) && error == old(error) && success == old(success) && classes == old(classes)
      ensures !outcome.Ignored? ==>
        && outcome == JoinOutcome(old(classes), NormalizeCode(joinCode), uid.value, lookupFails, updateFails)
        && !isSubmitting && error == Message(outcome)
      ensures outcome.Joined? ==>
        FirstWithCode(old(classes), NormalizeCode(joinCode)).Some?
        && classes == AfterJoin(old(classes), NormalizeCode(joinCode), uid.value) && success
      ensures !outcome.Joined? ==> classes == old(classes) && success == old(success)
    {
      if uid.None? || !HasNonSpace(joinCode) {
        return Ignored;
      }
      var code := NormalizeCode(joinCode);
      isSubmitting := true;
      error := None;
      outcome := JoinOutcome(classes, code, uid.value, lookupFails, updateFails);
      if outcome.Joined? {
        classes := AfterJoin(classes, code, uid.value);
        success := true;
      }
      error := Message(outcome);
      isSubmitting := false;
    }
  }

  /** Joining with the same code a second time is refused as already enrolled. */
  lemma JoinTwiceRefused(classes: seq<ClassDoc>, code: string, uid: string)
    requires JoinOutcome(classes, code, uid, false, false).Joined?
    ensures FirstWithCode(classes, code).Some?
    ensures JoinOutcome(AfterJoin(classes, code, uid), code, uid, false, false).AlreadyEnrolled?
  {
    var i := FirstWithCode(classes, code).value;
    var r := AfterJoin(classes, code, uid);
    FirstWithCodeIs(r, code, i);
  }

  lemma {:induction false} FirstWithCodeIs(classes: seq<ClassDoc>, code: string, i: nat)
    requires i < |classes| && classes[i].joinCode == code
    requires forall k :: 0 <= k < i ==> classes[k].joinCode != code
    ensures FirstWithCode(classes, code) == Some(i)
  {
    if i > 0 {
      FirstWithCodeIs(classes[1..], code, i - 1);
    }
  }

  /** A join touches one class: every other class document is the same afterwards. */
  lemma JoinTouchesOneClass(classes: seq<ClassDoc>, i: nat, uid: string)
    requires i < |classes|
    ensures var r := classes[i := Enrol(classes[i], uid)];
      |r| == |classes| && forall k :: 0 <= k < |classes| && k != i ==> r[k] == classes[k]
  {
  }
}
