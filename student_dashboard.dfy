/** The student's dashboard (src/features/dashboard/StudentDashboard.tsx): the enrolled
    classes, their active assignments by due date, and a five-step progress score per
    assignment built from the student's submission and annotations. */
module StudentDashboard {
  import opened Js
  import opened Docs
  import opened Sorting

  // ---- progress ----

  /** `sub?.paragraphs && sub.paragraphs.length > 0`: a list or a string with something in it;
      other values have no length. */
  predicate HasParagraphs(sub: Doc) {
    "paragraphs" in sub &&
    match sub["paragraphs"]
    case Paragraphs(items) => |items| > 0
    case Str(s) => |s| > 0
    case _ => false
  }

  /** `sub?.status === 'submitted'` */
  predicate IsSubmitted(sub: Doc) {
    "status" in sub && sub["status"] == Str("submitted")
  }

  /** The five steps, in the order `getProgress` tests them. */
  function Steps(annotated: bool, sub: Option<Doc>): (r: seq<bool>)
    ensures |r| == 5 && r[0] == annotated
    ensures sub.None? ==> r[1..] == [false, false, false, false]
  {
    [annotated,
     sub.Some? && Has(sub.value, "spacecat"),
     sub.Some? && Has(sub.value, "thesis"),
     sub.Some? && HasParagraphs(sub.value),
     sub.Some? && IsSubmitted(sub.value)]
  }

  function CountTrue(bs: seq<bool>): (n: nat)
    ensures n <= |bs|
  {
    if bs == [] then 0 else (if bs[0] then 1 else 0) + CountTrue(bs[1..])
  }

  /** All steps count exactly when every one is done, none exactly when none is. */
  lemma {:induction false} CountTrueExtremes(bs: seq<bool>)
    ensures CountTrue(bs) == |bs| <==> forall i :: 0 <= i < |bs| ==> bs[i]
    ensures CountTrue(bs) == 0 <==> forall i :: 0 <= i < |bs| ==> !bs[i]
  {
    if bs != [] {
      CountTrueExtremes(bs[1..]);
      assert forall i :: 1 <= i < |bs| ==> bs[i] == bs[1..][i - 1];
    }
  }

  /** The score `getProgress` reports: twenty points per completed step. */
  function Progress(annotated: bool, sub: Option<Doc>): int {
    20 * CountTrue(Steps(annotated, sub))
  }

  /** The score is a multiple of 20 between 0 and 100; it is 100 exactly when all five steps
      are done and 0 exactly when none is. */
  lemma ProgressFacts(annotated: bool, sub: Option<Doc>)
    ensures var p := Progress(annotated, sub);
      && p % 20 == 0 && 0 <= p <= 100
      && (p == 100 <==> forall i :: 0 <= i < 5 ==> Steps(annotated, sub)[i])
      && (p == 0 <==> forall i :: 0 <= i < 5 ==> !Steps(annotated, sub)[i])
  {
    CountTrueExtremes(Steps(annotated, sub));
  }

  lemma CountTrueFive(bs: seq<bool>)
    requires |bs| == 5
    ensures CountTrue(bs) == (if bs[0] then 1 else 0) + (if bs[1] then 1 else 0) + (if bs[2] then 1 else 0)
                             + (if bs[3] then 1 else 0) + (if bs[4] then 1 else 0)
  {
    var t1, t2, t3, t4 := bs[1..], bs[2..], bs[3..], bs[4..];
    assert t1[1..] == t2 && t2[1..] == t3 && t3[1..] == t4 && t4[1..] == [];
    assert CountTrue(t4) == (if bs[4] then 1 else 0);
    assert CountTrue(t3) == (if bs[3] then 1 else 0) + CountTrue(t4);
    assert CountTrue(t2) == (if bs[2] then 1 else 0) + CountTrue(t3);
    assert CountTrue(t1) == (if bs[1] then 1 else 0) + CountTrue(t2);
  }

  /** Without a submission only the annotation step can count. */
  lemma NoSubmissionProgress(annotated: bool)
    ensures Progress(annotated, None) == if annotated then 20 else 0
  {
    var s := Steps(annotated, None);
    assert CountTrue(s) == (if annotated then 1 else 0) + CountTrue(s[1..]);
    assert CountTrue([false, false, false, false]) == 0;
  }

  /** The card's state: started with any progress, done at 100. */
  predicate Started(p: int) { p > 0 }
  predicate Done(p: int) { p == 100 }

  /** The number of elements satisfying p. */
  function Count<T>(xs: seq<T>, p: T -> bool): (n: nat)
    ensures n <= |xs|
  {
    if xs == [] then 0 else (if p(xs[0]) then 1 else 0) + Count(xs[1..], p)
  }

  /** Counting by three predicates that split the elements adds up to the length. */
  lemma {:induction false} CountPartition<T>(xs: seq<T>, p: T -> bool, q: T -> bool, r: T -> bool)
    requires forall x :: x in xs ==>
      (p(x) && !q(x) && !r(x)) || (!p(x) && q(x) && !r(x)) || (!p(x) && !q(x) && r(x))
    ensures Count(xs, p) + Count(xs, q) + Count(xs, r) == |xs|
  {
    if xs != [] {
      assert xs[0] in xs;
      assert forall x :: x in xs[1..] ==> x in xs;
      CountPartition(xs[1..], p, q, r);
    }
  }

  /** The due-date sort key: a missing date counts as 0. */
  function DueKey(a: Assignment): int {
    if a.dueDate.Some? then a.dueDate.value else 0
  }

  /** `subMap[doc.data().assignmentId] = doc.data()`: a document without an assignment id is
      filed under "undefined". */
  function KeyOf(d: Doc): string {
    if "assignmentId" in d && d["assignmentId"].Str? then d["assignmentId"].s else "undefined"
  }

  /** The map the `forEach` builds: a later document replaces an earlier one with its key. */
  function SubMap(docs: seq<Doc>): (m: map<string, Doc>)
    ensures forall k :: k in m <==> exists d :: d in docs && KeyOf(d) == k
  {
    if docs == [] then map[]
    else
      var init := docs[..|docs| - 1];
      assert forall d :: d in docs <==> d in init || d == docs[|docs| - 1] by {
        assert docs == init + [docs[|docs| - 1]];
      }
      SubMap(init)[KeyOf(docs[|docs| - 1]) := docs[|docs| - 1]]
  }

  /** The position of the last document filed under a key, or -1 when there is none. */
  function LastWith(docs: seq<Doc>, k: string): (i: int)
    ensures -1 <= i < |docs|
    ensures i >= 0 ==> KeyOf(docs[i]) == k
    ensures forall j :: i < j < |docs| ==> KeyOf(docs[j]) != k
  {
    if docs == [] then -1
    else if KeyOf(docs[|docs| - 1]) == k then |docs| - 1
    else
      var init := docs[..|docs| - 1];
      assert forall j :: 0 <= j < |init| ==> init[j] == docs[j];
      LastWith(init, k)
  }

  /** Each key maps to the last document filed under it. */
  lemma {:induction false} SubMapLastWins(docs: seq<Doc>, k: string)
    requires k in SubMap(docs)
    ensures 0 <= LastWith(docs, k) && SubMap(docs)[k] == docs[LastWith(docs, k)]
  {
    var n := |docs| - 1;
    var init := docs[..n];
    assert SubMap(docs) == SubMap(init)[KeyOf(docs[n]) := docs[n]];
    if KeyOf(docs[n]) != k {
      assert k in SubMap(init);
      SubMapLastWins(init, k);
      assert docs[LastWith(init, k)] == init[LastWith(init, k)];
    }
  }

  /** The `forEach` that files each submission under its assignment id. */
  method FileSubmissions(docs: seq<Doc>) returns (subMap: map<string, Doc>)
    ensures subMap == SubMap(docs)
  {
    subMap := map[];
    var i := 0;
    while i < |docs|
      invariant 0 <= i <= |docs| && subMap == SubMap(docs[..i])
    {
      assert docs[..i + 1][..i] == docs[..i];
      subMap := subMap[KeyOf(docs[i]) := docs[i]];
      i := i + 1;
    }
    assert docs[..|docs|] == docs;
  }

  /** `where('userId', '==', uid)` on a store collection of documents. */
  function OwnDocs(docs: seq<Doc>, uid: string): (r: seq<Doc>)
    ensures forall d :: d in r <==> d in docs && "userId" in d && d["userId"] == Str(uid)
  {
    Filter(docs, (d: Doc) => "userId" in d && d["userId"] == Str(uid))
  }

  /** The ids of the enrolled classes. */
  function ClassIds(classes: seq<ClassDoc>): (r: seq<string>)
    ensures forall x :: x in r <==> exists c :: c in classes && c.id == x
  {
    if classes == [] then []
    else [classes[0].id] + ClassIds(classes[1..])
  }

  /** `where('classId', 'in', classIds)` and `where('status', '==', 'active')` */
  function ShownIn(classes: seq<ClassDoc>): Assignment -> bool {
    (a: Assignment) => a.classId in ClassIds(classes) && a.status == Active
  }

  /** The assignments query, sorted by due date; every matching document appears as often as
      in the store, and assignments due at the same time keep the store's order. */
  function Visible(all: seq<Assignment>, classes: seq<ClassDoc>): (r: seq<Assignment>)
    ensures forall a :: a in r <==> a in all && a.status == Active && a.classId in ClassIds(classes)
    ensures SortedBy(r, DueKey)
    ensures multiset(r) == multiset(Filter(all, ShownIn(classes)))
    ensures forall k :: WithKey(r, DueKey, k) == WithKey(Filter(all, ShownIn(classes)), DueKey, k)
  {
    var kept := Filter(all, ShownIn(classes));
    assert forall a :: a in SortBy(kept, DueKey) <==> a in kept by {
      assert multiset(SortBy(kept, DueKey)) == multiset(kept);
      forall a ensures a in SortBy(kept, DueKey) <==> a in kept {
        assert a in SortBy(kept, DueKey) <==> a in multiset(SortBy(kept, DueKey));
      }
    }
    assert forall k :: WithKey(SortBy(kept, DueKey), DueKey, k) == WithKey(kept, DueKey, k) by {
      forall k ensures WithKey(SortBy(kept, DueKey), DueKey, k) == WithKey(kept, DueKey, k) {
        SortStable(kept, DueKey, k);
      }
    }
    SortBy(kept, DueKey)
  }

  /** In the sorted list an assignment without a due date only follows dated ones whose date
      is not after 0, so with dates after the epoch the undated ones come first. */
  lemma UndatedFirst(r: seq<Assignment>, i: nat, j: nat)
    requires SortedBy(r, DueKey) && i < j < |r|
    requires r[j].dueDate.None? && r[i].dueDate.Some?
    ensures r[i].dueDate.value <= 0
  {
    assert DueKey(r[i]) <= DueKey(r[j]);
  }

  /** The display name: the first word of the profile's name, else of the sign-in name,
      else "Student". */
  function DisplayName(profile: Option<Profile>, authName: Option<string>): (r: string)
    ensures r != "" && ' ' !in r
    ensures profile.Some? && FirstWord(profile.value.displayName) != "" ==> r == FirstWord(profile.value.displayName)
    ensures (profile.None? || FirstWord(profile.value.displayName) == "") && authName.Some? && FirstWord(authName.value) != ""
      ==> r == FirstWord(authName.value)
    ensures (profile.None? || FirstWord(profile.value.displayName) == "") && (authName.None? || FirstWord(authName.value) == "")
      ==> r == "Student"
  {
    if profile.Some? && FirstWord(profile.value.displayName) != "" then FirstWord(profile.value.displayName)
    else if authName.Some? && FirstWord(authName.value) != "" then FirstWord(authName.value)
    else "Student"
  }

  /** A name that starts with a space has an empty first word, so it falls back. */
  lemma LeadingSpaceFallsBack(name: string, authName: Option<string>, uid: string, email: string, role: Role)
    requires name != [] && name[0] == ' '
    ensures DisplayName(Some(Profile(uid, email, name, role)), authName) == DisplayName(None, authName)
  {
  }

  /** `enrolledClasses.find(c => c.id === assignment.classId)?.name || 'Unknown Class'`: the
      name of the first class with the id, unless it is empty or there is no such class. */
  function ClassName(classes: seq<ClassDoc>, classId: string): (r: string)
    ensures r != ""
    ensures (forall c :: c in classes ==> c.id != classId) ==> r == "Unknown Class"
    ensures forall i :: 0 <= i < |classes| && classes[i].id == classId && (forall k :: 0 <= k < i ==> classes[k].id != classId) ==>
      r == if classes[i].name != "" then classes[i].name else "Unknown Class"
  {
    match Find(classes, (c: ClassDoc) => c.id == classId)
    case Some(c) => if c.name != "" then c.name else "Unknown Class"
    case None =>
      assert forall i :: 0 <= i < |classes| ==> classes[i] in classes;
      "Unknown Class"
  }

  /** `getProgress` over the dashboard's annotated ids and submission map. */
  function ProgressIn(annotated: set<string>, submissions: map<string, Doc>, id: string): int {
    Progress(id in annotated, if id in submissions then Some(submissions[id]) else None)
  }

  function InProgress(xs: seq<Assignment>, annotated: set<string>, submissions: map<string, Doc>): (n: nat)
    ensures n <= |xs|
  {
    Count(xs, (a: Assignment) => 0 < ProgressIn(annotated, submissions, a.id) < 100)
  }

  /** Every assignment is not started, in progress, or done, so the three counts add up to
      the number of assignments. */
  lemma ProgressPartition(xs: seq<Assignment>, annotated: set<string>, submissions: map<string, Doc>)
    ensures Count(xs, (a: Assignment) => !Started(ProgressIn(annotated, submissions, a.id)))
            + InProgress(xs, annotated, submissions)
            + Count(xs, (a: Assignment) => Done(ProgressIn(annotated, submissions, a.id))) == |xs|
  {
    forall a: Assignment ensures 0 <= ProgressIn(annotated, submissions, a.id) <= 100 {
      ProgressFacts(a.id in annotated, if a.id in submissions then Some(submissions[a.id]) else None);
    }
    CountPartition(xs, (a: Assignment) => !Started(ProgressIn(annotated, submissions, a.id)),
                   (a: Assignment) => 0 < ProgressIn(annotated, submissions, a.id) < 100,
                   (a: Assignment) => Done(ProgressIn(annotated, submissions, a.id)));
  }

  /** The classes query: the classes whose roster lists the student. */
  function EnrolledIn(classes: seq<ClassDoc>, uid: string): (r: seq<ClassDoc>)
    ensures forall c :: c in r <==> c in classes && Enrolled(c, uid)
  {
    Filter(classes, (c: ClassDoc) => Enrolled(c, uid))
  }

  /** The annotations query: the assignments the student has annotated. */
  function AnnotatedIds(anns: seq<Annotation>, uid: string): (r: set<string>)
    ensures forall a :: a in anns && a.userId == uid ==> a.assignmentId in r
    ensures forall id :: id in r ==> exists a :: a in anns && a.userId == uid && a.assignmentId == id
  {
    set a | a in anns && a.userId == uid :: a.assignmentId
  }

  class Dashboard {
    var enrolledClasses: seq<ClassDoc>
    var assignments: seq<Assignment>
    /** Submissions by assignment id. */
    var submissions: map<string, Doc>
    /** The assignments the student has annotated. */
    var annotatedIds: set<string>
    var loading: bool

    constructor ()
      ensures enrolledClasses == [] && assignments == [] && submissions == map[] && annotatedIds == {} && loading
    {
      enrolledClasses, assignments := [], [];
      submissions, annotatedIds := map[], {};
      loading := true;
    }

    /** `getProgress`: twenty points for each step the student has done. */
    method GetProgress(assignmentId: string) returns (score: int)
      ensures score == Progress(assignmentId in annotatedIds,
                                if assignmentId in submissions then Some(submissions[assignmentId]) else None)
    {
      var sub := if assignmentId in submissions then Some(submissions[assignmentId]) else None;
      score := 0;
      if assignmentId in annotatedIds { score := score + 20; }
      if sub.Some? && Has(sub.value, "spacecat") { score := score + 20; }
      if sub.Some? && Has(sub.value, "thesis") { score := score + 20; }
      if sub.Some? && HasParagraphs(sub.value) { score := score + 20; }
      if sub.Some? && IsSubmitted(sub.value) { score := score + 20; }
      CountTrueFive(Steps(assignmentId in annotatedIds, sub));
    }

    /** The progress of an assignment, as the cards show it. */
    function ProgressOf(assignmentId: string): int
      reads this
    {
      ProgressIn(annotatedIds, submissions, assignmentId)
    }

    /** `inProgressCount`: the assignments started but not done. */
    function InProgressCount(): (n: nat)
      reads this
      ensures n <= |assignments|
    {
      InProgress(assignments, annotatedIds, submissions)
    }

    /** `fetchDashboardData`: without a user nothing happens. The enrolled classes are the
        ones whose roster lists the student; with none, the assignment list is emptied and the
        rest is left as it was. Otherwise the active assignments of those classes are listed
        by due date, the student's submissions are filed by assignment id, and the annotated
        assignments are collected. The four queries (classes, assignments, submissions,
        annotations) run in that order inside one `try`: `okQueries` of them answer before one
        throws, what the later ones would have set keeps its old value, and loading ends either
        way (4 or more: none throws). */
    method Load(uid: Option<string>, allClasses: seq<ClassDoc>, allAssignments: seq<Assignment>,
                allSubmissions: seq<Doc>, allAnnotations: seq<Annotation>, okQueries: nat)
      modifies this
      ensures uid.None? ==>
        enrolledClasses == old(enrolledClasses) && assignments == old(assignments)
        && submissions == old(submissions) && annotatedIds == old(annotatedIds) && loading == old(loading)
      ensures uid.Some? ==> !loading
      ensures uid.Some? && okQueries == 0 ==>
        enrolledClasses == old(enrolledClasses) && assignments == old(assignments)
        && submissions == old(submissions) && annotatedIds == old(annotatedIds)
      ensures uid.Some? && okQueries >= 1 ==> enrolledClasses == EnrolledIn(allClasses, uid.value)
      ensures uid.Some? && okQueries >= 1 && enrolledClasses == [] ==>
        assignments == [] && submissions == old(submissions) && annotatedIds == old(annotatedIds)
      ensures uid.Some? && okQueries >= 1 && enrolledClasses != [] ==>
        && assignments == (if okQueries >= 2 then Visible(allAssignments, enrolledClasses) else old(assignments))
        && submissions == (if okQueries >= 3 then SubMap(OwnDocs(allSubmissions, uid.value)) else old(submissions))
        && annotatedIds == if okQueries >= 4 then AnnotatedIds(allAnnotations, uid.value)
                           else old(annotatedIds)
    {
      if uid.None? {
        return;
      }
      var classes, listed, filed, annotated := enrolledClasses, assignments, submissions, annotatedIds;
      if okQueries >= 1 {
        classes := EnrolledIn(allClasses, uid.value);
        if classes == [] {
          listed := [];
        } else if okQueries >= 2 {
          listed := Visible(allAssignments, classes);
          if okQueries >= 3 {
            filed := FileSubmissions(OwnDocs(allSubmissions, uid.value));
            if okQueries >= 4 {
              annotated := AnnotatedIds(allAnnotations, uid.value);
            }
          }
        }
      }
      enrolledClasses, assignments, submissions, annotatedIds := classes, listed, filed, annotated;
      loading := false;
    }
  }
}
