/** The teacher's home screen (src/features/dashboard/TeacherDashboard.tsx): the greeting, the
    teacher's classes with one of them active, that class's assignments with the number of
    submissions each has, and the class roster with profile fallbacks. */
module TeacherDashboard {
  import opened Js
  import opened Docs
  import opened Sorting

  /** `getGreeting` for the local hour (0 to 23); the student dashboard has the same rule. */
  function Greeting(hour: int): (g: string)
    requires 0 <= hour < 24
    ensures g == "Good morning" <==> hour < 12
    ensures g == "Good afternoon" <==> 12 <= hour < 18
    ensures g == "Good evening" <==> 18 <= hour
  {
    if hour < 12 then "Good morning"
    else if hour < 18 then "Good afternoon"
    else "Good evening"
  }

  /** The greeting changes exactly twice a day, at noon and at six in the evening. */
  lemma GreetingChanges(hour: int)
    requires 0 <= hour < 23
    ensures Greeting(hour) != Greeting(hour + 1) <==> hour + 1 == 12 || hour + 1 == 18
  {
  }

  /** `where('teacherId', '==', uid)` */
  function TaughtBy(uid: string): ClassDoc -> bool {
    (c: ClassDoc) => c.teacherId == uid
  }

  /** The classes query: the teacher's own classes, newest first; every matching document
      appears as often as in the store, and classes created at the same time keep the
      store's order. */
  function OwnClasses(store: seq<ClassDoc>, uid: string): (r: seq<ClassDoc>)
    ensures forall c :: c in r <==> c in store && c.teacherId == uid
    ensures forall i, j :: 0 <= i < j < |r| ==> r[i].createdAt >= r[j].createdAt
    ensures multiset(r) == multiset(Filter(store, TaughtBy(uid)))
    ensures forall k :: WithKey(r, ClassAge, k) == WithKey(Filter(store, TaughtBy(uid)), ClassAge, k)
  {
    var mine := Filter(store, TaughtBy(uid));
    assert forall c :: c in SortBy(mine, ClassAge) <==> c in mine by {
      assert multiset(SortBy(mine, ClassAge)) == multiset(mine);
      forall c ensures c in SortBy(mine, ClassAge) <==> c in mine {
        assert c in SortBy(mine, ClassAge) <==> c in multiset(SortBy(mine, ClassAge));
      }
    }
    assert forall k :: WithKey(SortBy(mine, ClassAge), ClassAge, k) == WithKey(mine, ClassAge, k) by {
      forall k ensures WithKey(SortBy(mine, ClassAge), ClassAge, k) == WithKey(mine, ClassAge, k) {
        SortStable(mine, ClassAge, k);
      }
    }
    SortBy(mine, ClassAge)
  }

  /** The sort key of `orderBy('createdAt', 'desc')`. */
  function ClassAge(c: ClassDoc): int {
    -c.createdAt
  }

  /** The class that stays active after a refetch: the fetched document with the active
      class's id if one is there, else the first fetched class, else none. */
  function Retained(fetched: seq<ClassDoc>, active: Option<ClassDoc>): (r: Option<ClassDoc>)
    ensures fetched == [] <==> r.None?
    ensures r.Some? ==> r.value in fetched
    ensures r.Some? && active.Some? && (exists c :: c in fetched && c.id == active.value.id) ==>
      r.value.id == active.value.id
    ensures r.Some? && (active.None? || forall c :: c in fetched ==> c.id != active.value.id) ==>
      r.value == fetched[0]
  {
    if fetched == [] then None
    else if active.Some? && Find(fetched, (c: ClassDoc) => c.id == active.value.id).Some? then
      Find(fetched, (c: ClassDoc) => c.id == active.value.id)
    else Some(fetched[0])
  }

  /** The first fetched document with the id is the one kept. */
  lemma RetainedIsFirst(fetched: seq<ClassDoc>, active: ClassDoc, i: nat)
    requires i < |fetched| && fetched[i].id == active.id
    requires forall k :: 0 <= k < i ==> fetched[k].id != active.id
    ensures Retained(fetched, Some(active)) == Some(fetched[i])
  {
    FindFirst(fetched, (c: ClassDoc) => c.id == active.id, i);
  }

  lemma {:induction false} FindFirst(xs: seq<ClassDoc>, p: ClassDoc -> bool, i: nat)
    requires i < |xs| && p(xs[i])
    requires forall k :: 0 <= k < i ==> !p(xs[k])
    ensures Find(xs, p) == Some(xs[i])
  {
    if i > 0 {
      assert !p(xs[0]);
      FindFirst(xs[1..], p, i - 1);
    }
  }

  /** Refetching the same classes again keeps the same active class. */
  lemma RetainedStable(fetched: seq<ClassDoc>, active: Option<ClassDoc>)
    ensures Retained(fetched, Retained(fetched, active)) == Retained(fetched, active)
  {
    var r := Retained(fetched, active);
    if r.Some? {
      var k :| 0 <= k < |fetched| && fetched[k] == r.value;
      var i := FirstId(fetched, r.value.id, k);
      RetainedIsFirst(fetched, r.value, i);
      if active.Some? && exists c :: c in fetched && c.id == active.value.id {
        RetainedIsFirst(fetched, active.value, i);
      } else {
        assert r.value == fetched[0];
        assert i == 0;
      }
    }
  }

  /** The position of the first document with the id, given one at position `k`. */
  lemma {:induction false} FirstId(xs: seq<ClassDoc>, id: string, k: nat) returns (i: nat)
    requires k < |xs| && xs[k].id == id
    ensures i <= k && xs[i].id == id && forall j :: 0 <= j < i ==> xs[j].id != id
  {
    if xs[0].id == id {
      i := 0;
    } else {
      var i' := FirstId(xs[1..], id, k - 1);
      i := i' + 1;
    }
  }

  /** A roster entry of the Students tab. */
  datatype StudentProfile = StudentProfile(id: string, name: string, email: string)

  /** One roster entry: with a profile its display name (or "Unknown Name") and its email
      (or ""); without one, or when the lookup fails, "Unknown Student" with no email. */
  function ProfileRow(uid: string, profile: Option<Profile>): (p: StudentProfile)
    ensures p.id == uid && p.name != ""
    ensures profile.None? ==> p.name == "Unknown Student" && p.email == ""
    ensures profile.Some? ==> p.email == profile.value.email
    ensures profile.Some? ==> p.name == if profile.value.displayName == "" then "Unknown Name" else profile.value.displayName
  {
    if profile.Some? then
      StudentProfile(uid, if profile.value.displayName != "" then profile.value.displayName else "Unknown Name",
                     profile.value.email)
    else StudentProfile(uid, "Unknown Student", "")
  }

  /** The Students tab for a class: empty without a class or without students, otherwise one
      entry per roster id in roster order. */
  function Roster(active: Option<ClassDoc>, users: map<string, Profile>): (r: seq<StudentProfile>)
    ensures active.None? || active.value.studentIds.None? ==> r == []
    ensures active.Some? && active.value.studentIds.Some? ==>
      |r| == |active.value.studentIds.value|
      && forall i :: 0 <= i < |r| ==> r[i] == ProfileRow(active.value.studentIds.value[i], Lookup(users, active.value.studentIds.value[i]))
  {
    if active.None? || active.value.studentIds.None? || active.value.studentIds.value == [] then []
    else Map(active.value.studentIds.value, (uid: string) => ProfileRow(uid, Lookup(users, uid)))
  }

  function Lookup(users: map<string, Profile>, uid: string): Option<Profile> {
    if uid in users then Some(users[uid]) else None
  }

  /** A roster entry is "Unknown Student" exactly when the student has no profile, provided
      no profile is itself named "Unknown Student". */
  lemma UnknownStudentIff(uid: string, users: map<string, Profile>)
    requires forall u :: u in users ==> users[u].displayName != "Unknown Student"
    ensures ProfileRow(uid, Lookup(users, uid)).name == "Unknown Student" <==> uid !in users
  {
  }

  /** The submission documents of the collection that name the assignment. */
  function SubmissionsFor(submissions: seq<Doc>, assignmentId: string): (n: nat)
    ensures n <= |submissions|
  {
    if submissions == [] then 0
    else
      var names := "assignmentId" in submissions[0] && submissions[0]["assignmentId"] == Str(assignmentId);
      (if names then 1 else 0) + SubmissionsFor(submissions[1..], assignmentId)
  }

  /** The completion percentage of an assignment card, `Math.round(submitted / total * 100)`
      in exact arithmetic (round half up), and 0 for a class without students. */
  function Percentage(submitted: nat, total: nat): (p: nat)
    ensures total == 0 ==> p == 0
    ensures total > 0 ==> p * (2 * total) <= 200 * submitted + total < p * (2 * total) + 2 * total
  {
    if total > 0 then (200 * submitted + total) / (2 * total) else 0
  }

  /** A quotient is pinned down by the interval it falls in. */
  lemma QuotientBelow(n: int, d: int, q: int, b: int)
    requires d > 0 && q * d <= n && n < b * d
    ensures q < b
  {
    assert (b - q) * d > 0;
  }

  lemma {:induction false} PercentageAtMost100(submitted: nat, total: nat)
    requires 0 < total && submitted <= total
    ensures Percentage(submitted, total) <= 100
  {
    var d := 2 * total;
    var p := Percentage(submitted, total);
    assert p * d <= 200 * submitted + total < 101 * d;
    QuotientBelow(200 * submitted + total, d, p, 101);
  }

  lemma {:induction false} PercentageAll(total: nat)
    requires 0 < total
    ensures Percentage(total, total) == 100
  {
    var d := 2 * total;
    var p := Percentage(total, total);
    assert 100 * d <= 200 * total + total < p * d + d;
    assert p * d + d == (p + 1) * d;
    QuotientBelow(100 * d, d, 100, p + 1);
    PercentageAtMost100(total, total);
  }

  lemma {:induction false} PercentageMonotone(submitted: nat, total: nat)
    requires 0 < total
    ensures Percentage(submitted, total) <= Percentage(submitted + 1, total)
  {
    var d := 2 * total;
    var n := 200 * submitted + total;
    var p := Percentage(submitted, total);
    var q := Percentage(submitted + 1, total);
    assert n + 200 < q * d + d;
    assert q * d + d == (q + 1) * d;
    QuotientBelow(n, d, p, q + 1);
  }

  /** The percentage is 100 when every student has a submission, at most 100 when there are
      no more submissions than students, and never falls when a submission is added. */
  lemma PercentageBounds(submitted: nat, total: nat)
    ensures total > 0 && submitted == total ==> Percentage(submitted, total) == 100
    ensures submitted <= total ==> Percentage(submitted, total) <= 100
    ensures Percentage(submitted, total) <= Percentage(submitted + 1, total)
  {
    if total > 0 {
      PercentageMonotone(submitted, total);
      if submitted <= total {
        PercentageAtMost100(submitted, total);
      }
      if submitted == total {
        PercentageAll(total);
      }
    }
  }

  /** The number shown for an assignment: its entry in the count map, else 0. */
  function CountOf(counts: map<string, nat>, id: string): (n: nat)
    ensures id !in counts ==> n == 0
    ensures id in counts ==> n == counts[id]
  {
    if id in counts then counts[id] else 0
  }

  class Dashboard {
    var classes: seq<ClassDoc>
    var activeClass: Option<ClassDoc>
    var loading: bool
    var assignments: seq<Assignment>
    var submissionCounts: map<string, nat>
    var classStudents: seq<StudentProfile>

    constructor ()
      ensures classes == [] && activeClass.None? && loading
      ensures assignments == [] && submissionCounts == map[] && classStudents == []
    {
      classes := [];
      activeClass := None;
      loading := true;
      assignments := [];
      submissionCounts := map[];
      classStudents := [];
    }

    /** `fetchClasses`: without a user nothing happens; a failed query leaves the classes and
        the active class as they were. Otherwise the teacher's classes are shown newest first
        and the active class is kept as `Retained` says. */
    method FetchClasses(uid: Option<string>, store: seq<ClassDoc>, queryFails: bool)
      modifies this`classes, this`activeClass, this`loading
      ensures uid.None? ==> classes == old(classes) && activeClass == old(activeClass) && loading == old(loading)
      ensures uid.Some? ==> !loading
      ensures uid.Some? && queryFails ==> classes == old(classes) && activeClass == old(activeClass)
      ensures uid.Some? && !queryFails ==>
        classes == OwnClasses(store, uid.value) && activeClass == Retained(classes, old(activeClass))
    {
      if uid.None? {
        return;
      }
      loading := true;
      if !queryFails {
        var fetched := OwnClasses(store, uid.value);
        classes := fetched;
        activeClass := Retained(fetched, activeClass);
      }
      loading := false;
    }

    /** The per-assignment submission counts (`fetchAssignmentsAndStats`, lines 60-65): each
        fetched assignment's id maps to the number of submissions naming it. */
    method CountSubmissions(fetched: seq<Assignment>, submissions: seq<Doc>) returns (counts: map<string, nat>)
      ensures forall id :: id in counts <==> exists a :: a in fetched && a.id == id
      ensures forall id :: id in counts ==> counts[id] == SubmissionsFor(submissions, id)
    {
      counts := map[];
      var i := 0;
      while i < |fetched|
        invariant 0 <= i <= |fetched|
        invariant forall id :: id in counts <==> exists k :: 0 <= k < i && fetched[k].id == id
        invariant forall id :: id in counts ==> counts[id] == SubmissionsFor(submissions, id)
      {
        counts := counts[fetched[i].id := SubmissionsFor(submissions, fetched[i].id)];
        i := i + 1;
      }
      forall id | id in counts ensures exists a :: a in fetched && a.id == id {
        var k :| 0 <= k < |fetched| && fetched[k].id == id;
        assert fetched[k] in fetched;
      }
    }

    /** The effect on the active class: without one the list and the counts are cleared;
        with one its assignments are shown newest first with their counts. A failed
        assignments query leaves both as they were; a failed count query (`countFails`: one
        of the per-assignment submission queries throws) comes after the list is shown and
        leaves only the counts as they were. */
    method RefreshAssignments(store: seq<Assignment>, submissions: seq<Doc>, queryFails: bool, countFails: bool)
      modifies this`assignments, this`submissionCounts
      ensures activeClass.None? ==> assignments == [] && submissionCounts == map[]
      ensures activeClass.Some? && queryFails ==>
        assignments == old(assignments) && submissionCounts == old(submissionCounts)
      ensures activeClass.Some? && !queryFails ==> assignments == ClassAssignments(store, activeClass.value.id)
      ensures activeClass.Some? && !queryFails && countFails ==> submissionCounts == old(submissionCounts)
      ensures activeClass.Some? && !queryFails && !countFails ==>
        && (forall id :: id in submissionCounts <==> exists a :: a in assignments && a.id == id)
        && forall id :: id in submissionCounts ==> submissionCounts[id] == SubmissionsFor(submissions, id)
    {
      if activeClass.None? {
        assignments := [];
        submissionCounts := map[];
        return;
      }
      if queryFails {
        return;
      }
      var fetched := ClassAssignments(store, activeClass.value.id);
      assignments := fetched;
      if countFails {
        return;
      }
      var counts := CountSubmissions(fetched, submissions);
      submissionCounts := counts;
    }

    /** `fetchStudents` for the active class. */
    method FetchStudents(users: map<string, Profile>)
      modifies this`classStudents
      ensures classStudents == Roster(activeClass, users)
    {
      if activeClass.None? || activeClass.value.studentIds.None? || |activeClass.value.studentIds.value| == 0 {
        classStudents := [];
        return;
      }
      classStudents := Map(activeClass.value.studentIds.value, (uid: string) => ProfileRow(uid, Lookup(users, uid)));
    }

    /** The percentage on an assignment card of the active class. */
    function CardPercentage(a: Assignment): (p: nat)
      reads this
      requires activeClass.Some?
      ensures activeClass.value.studentIds.None? || activeClass.value.studentIds.value == [] ==> p == 0
      ensures a.id !in submissionCounts ==> p == 0
    {
      var total := if activeClass.value.studentIds.Some? then |activeClass.value.studentIds.value| else 0;
      Percentage(CountOf(submissionCounts, a.id), total)
    }
  }

  /** `where('classId', '==', classId)` */
  function InClass(classId: string): Assignment -> bool {
    (a: Assignment) => a.classId == classId
  }

  /** The assignments query: the class's assignments, newest first; every matching document
      appears as often as in the store, and assignments created at the same time keep the
      store's order. */
  function ClassAssignments(store: seq<Assignment>, classId: string): (r: seq<Assignment>)
    ensures forall a :: a in r <==> a in store && a.classId == classId
    ensures forall i, j :: 0 <= i < j < |r| ==> r[i].createdAt >= r[j].createdAt
    ensures multiset(r) == multiset(Filter(store, InClass(classId)))
    ensures forall k :: WithKey(r, AssignmentAge, k) == WithKey(Filter(store, InClass(classId)), AssignmentAge, k)
  {
    var mine := Filter(store, InClass(classId));
    assert forall a :: a in SortBy(mine, AssignmentAge) <==> a in mine by {
      assert multiset(SortBy(mine, AssignmentAge)) == multiset(mine);
      forall a ensures a in SortBy(mine, AssignmentAge) <==> a in mine {
        assert a in SortBy(mine, AssignmentAge) <==> a in multiset(SortBy(mine, AssignmentAge));
      }
    }
    assert forall k :: WithKey(SortBy(mine, AssignmentAge), AssignmentAge, k) == WithKey(mine, AssignmentAge, k) by {
      forall k ensures WithKey(SortBy(mine, AssignmentAge), AssignmentAge, k) == WithKey(mine, AssignmentAge, k) {
        SortStable(mine, AssignmentAge, k);
      }
    }
    SortBy(mine, AssignmentAge)
  }

  /** The sort key of `orderBy('createdAt', 'desc')`. */
  function AssignmentAge(a: Assignment): int {
    -a.createdAt
  }
}
