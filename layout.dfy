/** The page frame (src/components/Layout.tsx): the header's dashboard link, the short
    display name, the Join Class button and the teacher's student-view toggle. */
module Layout {
  import opened Js
  import opened Docs
  import opened ProtectedRoute

  /** The student view is any page under `/student`. */
  predicate IsStudentView(path: string) {
    StartsWith(path, "/student")
  }

  /** `getDisplayName`: the first word of the profile's name when it has one, else of the
      sign-in name when that is set, else "User". The test is on the whole name, so a name
      that starts with a space gives an empty word. */
  function DisplayName(profile: Option<Profile>, authName: Option<string>): (r: string)
    ensures ' ' !in r
    ensures profile.Some? && profile.value.displayName != "" ==> r == FirstWord(profile.value.displayName)
    ensures (profile.None? || profile.value.displayName == "") && authName.Some? && authName.value != ""
      ==> r == FirstWord(authName.value)
    ensures (profile.None? || profile.value.displayName == "") && (authName.None? || authName.value == "")
      ==> r == "User"
  {
    if profile.Some? && profile.value.displayName != "" then FirstWord(profile.value.displayName)
    else if authName.Some? && authName.value != "" then FirstWord(authName.value)
    else "User"
  }

  /** Unlike the student dashboard's greeting name, a profile name with a leading space
      shows as nothing rather than falling back. */
  lemma LeadingSpaceShowsEmpty(profile: Profile, authName: Option<string>)
    requires profile.displayName != [] && profile.displayName[0] == ' '
    ensures DisplayName(Some(profile), authName) == ""
  {
  }

  /** `getDashboardLink` */
  function DashboardLink(signedIn: bool, profile: Option<Profile>, path: string): (link: string)
    ensures !signedIn ==> link == LoginPath
    ensures signedIn && profile.None? ==> link == OnboardingPath
    ensures signedIn && profile.Some? && IsStudentView(path) ==> link == StudentDashboardPath
    ensures signedIn && profile.Some? && !IsStudentView(path) ==> link == RoleDashboard(profile.value.role)
  {
    if !signedIn then LoginPath
    else if profile.None? then OnboardingPath
    else if IsStudentView(path) then StudentDashboardPath
    else if profile.value.role == Teacher then TeacherDashboardPath else StudentDashboardPath
  }

  /** The dashboard link leads to a page the guard renders, when the link's route admits the
      profile's role (the student dashboard admits students; the teacher dashboard teachers). */
  lemma DashboardLinkRenders(profile: Option<Profile>, path: string, allowedRoles: Option<seq<Role>>)
    requires profile.Some? ==> !Excluded(allowedRoles, profile.value.role)
    requires profile.Some? && IsStudentView(path) ==> !Excluded(allowedRoles, Student) && profile.value.role == Student
    ensures Guard(false, true, profile, DashboardLink(true, profile, path), allowedRoles) == Children
  {
  }

  /** The Join Class button: inside the signed-in part of the header, shown to students, and
      to teachers in student view, while no class lists the user. */
  predicate ShowJoinButton(uid: Option<string>, isTeacher: bool, studentView: bool, hasClasses: bool) {
    uid.Some? && (!isTeacher || studentView) && !hasClasses
  }

  /** A signed-out visitor never sees the button; a signed-in student sees it, after a
      successful enrolment query, exactly when no class lists them. */
  lemma JoinButtonAudience(uid: Option<string>, isTeacher: bool, studentView: bool, classes: seq<ClassDoc>)
    ensures uid.None? ==> !ShowJoinButton(uid, isTeacher, studentView, false)
    ensures uid.Some? && !isTeacher ==>
      (ShowJoinButton(uid, isTeacher, studentView, exists c :: c in classes && Enrolled(c, uid.value)) <==>
         forall c :: c in classes ==> !Enrolled(c, uid.value))
  {
  }

  /** `handleToggleView`: out of the student view to the teacher dashboard, else into it. */
  function ToggleTarget(path: string): (to: string)
    ensures IsStudentView(path) ==> to == TeacherDashboardPath
    ensures !IsStudentView(path) ==> to == StudentDashboardPath
  {
    if IsStudentView(path) then TeacherDashboardPath else StudentDashboardPath
  }

  /** The toggle always flips the view, so toggling twice returns to the same view. */
  lemma ToggleFlips(path: string)
    ensures IsStudentView(ToggleTarget(path)) <==> !IsStudentView(path)
    ensures IsStudentView(ToggleTarget(ToggleTarget(path))) <==> IsStudentView(path)
  {
    assert TeacherDashboardPath[1] != "/student"[1];
  }

  class Header {
    /** Whether a class lists the signed-in user; starts false. */
    var hasClasses: bool

    constructor ()
      ensures !hasClasses
    {
      hasClasses := false;
    }

    /** `checkEnrollment`: only for a signed-in user who is not a teacher, a class listing
        the user is looked for; a failed query leaves the flag as it was. */
    method CheckEnrollment(uid: Option<string>, isTeacher: bool, classes: seq<ClassDoc>, queryFails: bool)
      modifies this
      ensures uid.None? || isTeacher || queryFails ==> hasClasses == old(hasClasses)
      ensures uid.Some? && !isTeacher && !queryFails ==>
        (hasClasses <==> exists c :: c in classes && Enrolled(c, uid.value))
    {
      if uid.Some? && !isTeacher && !queryFails {
        hasClasses := exists c :: c in classes && Enrolled(c, uid.value);
      }
    }

    function JoinButton(uid: Option<string>, isTeacher: bool, path: string): (shown: bool)
      reads this
      ensures shown <==> uid.Some? && (!isTeacher || IsStudentView(path)) && !hasClasses
      ensures uid.None? ==> !shown
    {
      ShowJoinButton(uid, isTeacher, IsStudentView(path), hasClasses)
    }
  }
}
