/** The route guard (src/components/ProtectedRoute.tsx): an ordered list of redirect rules in
    front of every protected page. */
module ProtectedRoute {
  import opened Js
  import opened Docs

  /** What the guard renders. */
  datatype View = Loading | Redirect(to: string) | Children

  const LoginPath: string := "/login"
  const OnboardingPath: string := "/onboarding"
  const TeacherDashboardPath: string := "/teacher/dashboard"
  const StudentDashboardPath: string := "/student/dashboard"

  /** The dashboard a profile's role is sent to. */
  function RoleDashboard(role: Role): (path: string)
    ensures path == TeacherDashboardPath <==> role == Teacher
    ensures path == StudentDashboardPath <==> role != Teacher
  {
    if role == Teacher then TeacherDashboardPath else StudentDashboardPath
  }

  /** The route's `allowedRoles` excludes the role; an empty list, being truthy, excludes
      every role. */
  predicate Excluded(allowedRoles: Option<seq<Role>>, role: Role) {
    allowedRoles.Some? && role !in allowedRoles.value
  }

  /** The guard's decision for a signed-in state (`signedIn` is `user` being set), the
      profile, the current path and the route's allowed roles, rule by rule in the source's
      order. */
  function Guard(loading: bool, signedIn: bool, profile: Option<Profile>, path: string,
                 allowedRoles: Option<seq<Role>>): (v: View)
    ensures loading <==> v == Loading
    ensures !loading && !signedIn ==> v == Redirect(LoginPath)
    ensures v.Redirect? ==> v.to in {LoginPath, OnboardingPath, TeacherDashboardPath, StudentDashboardPath}
    ensures v.Redirect? && v.to != LoginPath ==> signedIn
    ensures v == Redirect(OnboardingPath) <==> !loading && signedIn && profile.None? && path != OnboardingPath
  {
    if loading then Loading
    else if !signedIn then Redirect(LoginPath)
    else if profile.None? && path != OnboardingPath then Redirect(OnboardingPath)
    else if profile.Some? && path == OnboardingPath then Redirect(RoleDashboard(profile.value.role))
    else if profile.Some? && Excluded(allowedRoles, profile.value.role) then Redirect(RoleDashboard(profile.value.role))
    else Children
  }

  /** The page renders exactly for a signed-in user who either has no profile yet and is on
      the onboarding page, or has a profile whose role the route allows and is elsewhere. */
  lemma ChildrenIff(loading: bool, signedIn: bool, profile: Option<Profile>, path: string,
                    allowedRoles: Option<seq<Role>>)
    ensures Guard(loading, signedIn, profile, path, allowedRoles) == Children <==>
      !loading && signedIn &&
      ((profile.None? && path == OnboardingPath) ||
       (profile.Some? && path != OnboardingPath && !Excluded(allowedRoles, profile.value.role)))
  {
  }

  /** A user with a profile is sent to their role's dashboard from the onboarding page or
      from a page their role may not open, and nowhere else. */
  lemma DashboardRedirect(signedIn: bool, profile: Profile, path: string, allowedRoles: Option<seq<Role>>)
    requires signedIn
    ensures var v := Guard(false, signedIn, Some(profile), path, allowedRoles);
      (v.Redirect? <==> path == OnboardingPath || Excluded(allowedRoles, profile.role))
      && (v.Redirect? ==> v.to == RoleDashboard(profile.role))
  {
  }

  /** Following a redirect settles: the onboarding page renders for a user without a
      profile, and a role's dashboard renders for it when that route admits the role. */
  lemma RedirectSettles(profile: Option<Profile>, path: string, allowedRoles: Option<seq<Role>>)
    requires profile.Some? ==> !Excluded(allowedRoles, profile.value.role)
    ensures var v := Guard(false, true, profile, path, allowedRoles);
      v.Redirect? ==> Guard(false, true, profile, v.to, allowedRoles) == Children
    ensures profile.Some? ==> Guard(false, true, profile, RoleDashboard(profile.value.role), allowedRoles) == Children
  {
  }
}
