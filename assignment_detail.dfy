/** The teacher's view of one assignment (src/features/dashboard/AssignmentDetail.tsx): one
    row per enrolled student with a name, a status derived from the submission and the last
    activity time, and the count of submitted work. */
module AssignmentDetail {
  import opened Js
  import opened Docs

  datatype Status = NotStarted | InProgress | Submitted

  /** A row of the progress table. */
  datatype StudentProgress = StudentProgress(studentId: string, name: string, status: Status, lastActive: Option<int>)

  /** The placeholder name, `Student ${uid.slice(0, 5)}`. */
  function DefaultName(uid: string): (r: string)
    ensures |r| == 8 + (if |uid| < 5 then |uid| else 5)
    ensures r[..8] == "Student " && r[8..] == uid[..|r| - 8]
  {
    "Student " + Prefix(uid, 5)
  }

  /** The name shown: the placeholder without a profile; with one, its display name or else
      its email (which may itself be empty). */
  function NameOf(uid: string, profile: Option<Profile>): (r: string)
    ensures profile.None? ==> r == DefaultName(uid)
    ensures profile.Some? && profile.value.displayName != "" ==> r == profile.value.displayName
    ensures profile.Some? && profile.value.displayName == "" ==> r == profile.value.email
  {
    if profile.Some? then
      (if profile.value.displayName != "" then profile.value.displayName else profile.value.email)
    else DefaultName(uid)
  }

  /** The status rule: "submitted" wins; else any spacecat or thesis means in progress. */
  function StatusOf(sub: Option<Doc>): (s: Status)
    ensures sub.None? ==> s == NotStarted
    ensures s == Submitted <==> sub.Some? && "status" in sub.value && sub.value["status"] == Str("submitted")
    ensures s == NotStarted <==>
      sub.None? || (!(("status" in sub.value && sub.value["status"] == Str("submitted")))
                    && !Has(sub.value, "spacecat") && !Has(sub.value, "thesis"))
  {
    if sub.None? then NotStarted
    else if "status" in sub.value && sub.value["status"] == Str("submitted") then Submitted
    else if Has(sub.value, "spacecat") || Has(sub.value, "thesis") then InProgress
    else NotStarted
  }

  /** `lastActive`: the update time when the submission has one; a value without `toDate`
      fails inside the `try` and leaves it null. */
  function LastActiveOf(sub: Option<Doc>): (r: Option<int>)
    ensures r.Some? <==> sub.Some? && "updatedAt" in sub.value && sub.value["updatedAt"].Time?
  {
    if sub.Some? && "updatedAt" in sub.value && sub.value["updatedAt"].Time? then Some(sub.value["updatedAt"].t) else None
  }

  function Lookup<T>(m: map<string, T>, k: string): Option<T> {
    if k in m then Some(m[k]) else None
  }

  /** The row `fetchData` builds for one student. */
  function RowOf(uid: string, assignmentId: string, users: map<string, Profile>, submissions: map<string, Doc>): StudentProgress {
    var sub := Lookup(submissions, SubmissionId(uid, assignmentId));
    StudentProgress(uid, NameOf(uid, Lookup(users, uid)), StatusOf(sub), LastActiveOf(sub))
  }

  /** The table for a roster: one row per student, in roster order. */
  function Table(ids: seq<string>, assignmentId: string, users: map<string, Profile>, submissions: map<string, Doc>)
    : (rows: seq<StudentProgress>)
    ensures |rows| == |ids|
    ensures forall k :: 0 <= k < |ids| ==> rows[k].studentId == ids[k]
  {
    if ids == [] then [] else [RowOf(ids[0], assignmentId, users, submissions)] + Table(ids[1..], assignmentId, users, submissions)
  }

  /** A sequence whose rows are those of the roster, position by position, is its table. */
  lemma {:induction false} TableIs(ids: seq<string>, assignmentId: string, users: map<string, Profile>,
                                   submissions: map<string, Doc>, rows: seq<StudentProgress>)
    requires |rows| == |ids|
    requires forall k :: 0 <= k < |ids| ==> rows[k] == RowOf(ids[k], assignmentId, users, submissions)
    ensures rows == Table(ids, assignmentId, users, submissions)
  {
    if ids != [] {
      TableIs(ids[1..], assignmentId, users, submissions, rows[1..]);
    }
  }

  /** "View Work" is offered for every student who has started. */
  predicate CanViewWork(row: StudentProgress) {
    row.status != NotStarted
  }

  /** A student can be reviewed exactly when a submission exists that is submitted or has a
      spacecat or a thesis; a student without a submission shows no activity. */
  lemma ViewWorkIff(uid: string, assignmentId: string, users: map<string, Profile>, submissions: map<string, Doc>)
    ensures var id := SubmissionId(uid, assignmentId);
      CanViewWork(RowOf(uid, assignmentId, users, submissions)) <==>
        id in submissions &&
        (("status" in submissions[id] && submissions[id]["status"] == Str("submitted"))
         || Has(submissions[id], "spacecat") || Has(submissions[id], "thesis"))
    ensures SubmissionId(uid, assignmentId) !in submissions ==>
      RowOf(uid, assignmentId, users, submissions).status == NotStarted
      && RowOf(uid, assignmentId, users, submissions).lastActive.None?
  {
  }

  /** The header's count of submitted work. */
  function SubmittedCount(rows: seq<StudentProgress>): (n: nat)
    ensures n <= |rows|
    ensures n == |rows| <==> forall r :: r in rows ==> r.status == Submitted
  {
    if rows == [] then 0
    else
      assert forall r :: r in rows <==> r == rows[0] || r in rows[1..];
      (if rows[0].status == Submitted then 1 else 0) + SubmittedCount(rows[1..])
  }

  class Detail {
    const assignmentId: string
    var assignment: Option<Assignment>
    var students: seq<StudentProgress>
    var loading: bool
    /** The `assignments` collection by id. */
    var assignments: map<string, Assignment>

    constructor (assignmentId: string, assignments: map<string, Assignment>)
      ensures this.assignmentId == assignmentId && this.assignments == assignments
      ensures assignment.None? && students == [] && loading
    {
      this.assignmentId := assignmentId;
      this.assignments := assignments;
      assignment := None;
      students := [];
      loading := true;
    }

    /** One student's row: the placeholder name, replaced from the profile; the status and
        last activity, set from the submission. A failed lookup leaves the defaults, as a
        missing document does. */
    method StudentRow(uid: string, users: map<string, Profile>, submissions: map<string, Doc>)
      returns (row: StudentProgress)
      ensures row == RowOf(uid, assignmentId, users, submissions)
    {
      var name := DefaultName(uid);
      if uid in users {
        name := if users[uid].displayName != "" then users[uid].displayName else users[uid].email;
      }
      var status := NotStarted;
      var lastActive: Option<int> := None;
      var id := SubmissionId(uid, assignmentId);
      if id in submissions {
        var subData := submissions[id];
        if "status" in subData && subData["status"] == Str("submitted") {
          status := Submitted;
        } else if Has(subData, "spacecat") || Has(subData, "thesis") {
          status := InProgress;
        }
        if "updatedAt" in subData && subData["updatedAt"].Time? {
          lastActive := Some(subData["updatedAt"].t);
        }
      }
      row := StudentProgress(uid, name, status, lastActive);
    }

    /** `studentIds.map(...)` awaited with `Promise.all`: one row per id, in the same order. */
    method StudentRows(ids: seq<string>, users: map<string, Profile>, submissions: map<string, Doc>)
      returns (rows: seq<StudentProgress>)
      ensures rows == Table(ids, assignmentId, users, submissions)
    {
      rows := [];
      var i := 0;
      while i < |ids|
        invariant 0 <= i <= |ids| && |rows| == i
        invariant forall k :: 0 <= k < i ==> rows[k] == RowOf(ids[k], assignmentId, users, submissions)
      {
        var row := StudentRow(ids[i], users, submissions);
        ghost var prev := rows;
        rows := rows + [row];
        assert rows[i] == row && forall k :: 0 <= k < i ==> rows[k] == prev[k];
        i := i + 1;
      }
      TableIs(ids, assignmentId, users, submissions, rows);
    }

    /** `fetchData`: with the assignment and its class found, one row per roster entry in
        roster order (a missing roster is empty). A missing assignment or class leaves the
        table as it was. */
    method Load(classes: map<string, ClassDoc>, users: map<string, Profile>, submissions: map<string, Doc>)
      modifies this`assignment, this`students, this`loading
      ensures assignmentId == "" ==>
        assignment == old(assignment) && students == old(students) && loading == old(loading)
      ensures assignmentId != "" ==> !loading
      ensures assignmentId != "" && assignmentId !in assignments ==> assignment == old(assignment) && students == old(students)
      ensures assignmentId != "" && assignmentId in assignments ==> assignment == Some(assignments[assignmentId])
      ensures assignmentId != "" && assignmentId in assignments && assignments[assignmentId].classId !in classes ==>
        students == old(students)
      ensures assignmentId != "" && assignmentId in assignments && assignments[assignmentId].classId in classes ==>
        var roster := classes[assignments[assignmentId].classId].studentIds;
        var ids := if roster.Some? then roster.value else [];
        students == Table(ids, assignmentId, users, submissions)
    {
      if assignmentId == "" {
        return;
      }
      loading := true;
      if assignmentId in assignments {
        var a := assignments[assignmentId];
        assignment := Some(a);
        if a.classId in classes {
          var ids := if classes[a.classId].studentIds.Some? then classes[a.classId].studentIds.value else [];
          var rows := StudentRows(ids, users, submissions);
          students := rows;
        }
      }
      loading := false;
    }

    /** `handleDelete`: after confirmation the assignment is removed; a failed delete is
        reported and removes nothing. */
    method HandleDelete(confirmed: bool, storeFails: bool) returns (deleted: bool)
      modifies this`assignments
      ensures deleted <==> assignmentId != "" && confirmed && !storeFails
      ensures deleted ==> assignments == old(assignments) - {assignmentId}
      ensures !deleted ==> assignments == old(assignments)
    {
      if assignmentId == "" || !confirmed || storeFails {
        return false;
      }
      assignments := assignments - {assignmentId};
      deleted := true;
    }
  }

  /** Whether the student's submission is marked submitted. */
  predicate HasSubmitted(submissions: map<string, Doc>, uid: string, assignmentId: string) {
    var id := SubmissionId(uid, assignmentId);
    id in submissions && "status" in submissions[id] && submissions[id]["status"] == Str("submitted")
  }

  /** The number of roster entries whose submission is marked submitted. */
  function CountSubmitted(ids: seq<string>, assignmentId: string, submissions: map<string, Doc>): (n: nat)
    ensures n <= |ids|
  {
    if ids == [] then 0
    else (if HasSubmitted(submissions, ids[0], assignmentId) then 1 else 0) + CountSubmitted(ids[1..], assignmentId, submissions)
  }

  /** The header's count of the loaded table is the number of enrolled students whose
      submission is marked submitted, whatever the profiles say. */
  lemma {:induction false} SubmittedCountOfRoster(ids: seq<string>, assignmentId: string, users: map<string, Profile>, submissions: map<string, Doc>)
    ensures SubmittedCount(Table(ids, assignmentId, users, submissions)) == CountSubmitted(ids, assignmentId, submissions)
  {
    if ids != [] {
      var t := Table(ids, assignmentId, users, submissions);
      assert t[1..] == Table(ids[1..], assignmentId, users, submissions);
      SubmittedCountOfRoster(ids[1..], assignmentId, users, submissions);
    }
  }
}
