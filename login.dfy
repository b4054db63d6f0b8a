/** The sign-in page (src/pages/Login.tsx): usernames become addresses on the app's own mail
    domain, the username field is normalised as it is typed, and sign-in failures are mapped
    to messages. */
module Login {
  import opened Js

  const Domain: string := "@langlab.local"

  /** `formatEmail`: the trimmed input, kept as it is when it already holds an '@', else
      with the app's domain appended. */
  function FormatEmail(input: string): (email: string)
    ensures '@' in email
    ensures '@' in Trim(input) ==> email == Trim(input)
    ensures '@' !in Trim(input) ==> email == Trim(input) + Domain
  {
    var clean := Trim(input);
    if '@' in clean then clean else clean + Domain
  }

  /** Formatting an address a second time changes nothing. */
  lemma FormatEmailIdempotent(input: string)
    ensures FormatEmail(FormatEmail(input)) == FormatEmail(input)
  {
    var clean := Trim(input);
    var email := FormatEmail(input);
    if '@' in clean {
      TrimIdempotent(input);
    } else {
      assert email == clean + Domain;
      assert email[|email| - 1] == 'l';
      assert email[0] == if clean == [] then '@' else clean[0];
      TrimOfTrimmed(email);
    }
  }

  predicate NotSpace(c: char) {
    !IsSpace(c)
  }

  /** The username field's handler, `toLowerCase().replace(/\s/g, '')`: every character of
      the text that is not whitespace is kept, lower-cased, and nothing else is. */
  function NormalizeUsername(text: string): (u: string)
    ensures forall c :: c in u ==> !IsSpace(c) && LowerChar(c) == c
    ensures forall c :: c in text && !IsSpace(c) ==> LowerChar(c) in u
    ensures |u| <= |text|
  {
    var lower := ToLower(text);
    assert forall c :: c in lower ==> LowerChar(c) == c;
    LowerKeepsNonSpace(text, lower);
    Filter(lower, NotSpace)
  }

  /** Each non-whitespace character of the text is in its lower-cased form, and is not
      whitespace there either. */
  lemma LowerKeepsNonSpace(text: string, lower: string)
    requires lower == ToLower(text)
    ensures forall c :: c in text && !IsSpace(c) ==> LowerChar(c) in lower && NotSpace(LowerChar(c))
  {
    forall c | c in text && !IsSpace(c)
      ensures LowerChar(c) in lower && NotSpace(LowerChar(c))
    {
      var i :| 0 <= i < |text| && text[i] == c;
      assert lower[i] == LowerChar(c);
      LowerCharSpace(c);
    }
  }

  /** Lower-casing distributes over concatenation. */
  lemma ToLowerAppend(a: string, b: string)
    ensures ToLower(a + b) == ToLower(a) + ToLower(b)
  {
    assert forall i :: 0 <= i < |a + b| ==> ToLower(a + b)[i] == (ToLower(a) + ToLower(b))[i];
  }

  /** Normalising works character by character: the text's pieces normalise separately ... */
  lemma NormalizeUsernameAppend(a: string, b: string)
    ensures NormalizeUsername(a + b) == NormalizeUsername(a) + NormalizeUsername(b)
  {
    ToLowerAppend(a, b);
    FilterAppend(ToLower(a), ToLower(b), NotSpace);
  }

  /** ... and one character is dropped when it is whitespace, else lower-cased. */
  lemma NormalizeUsernameChar(c: char)
    ensures NormalizeUsername([c]) == if IsSpace(c) then [] else [LowerChar(c)]
  {
    assert ToLower([c]) == [LowerChar(c)];
    assert ToLower([c])[1..] == [];
  }

  lemma {:induction false} FilterKeepsAll(s: string)
    requires forall c :: c in s ==> NotSpace(c)
    ensures Filter(s, NotSpace) == s
  {
    if s != [] {
      assert s[0] in s;
      FilterKeepsAll(s[1..]);
    }
  }

  /** Typing a normalised username again changes nothing. */
  lemma NormalizeUsernameIdempotent(text: string)
    ensures NormalizeUsername(NormalizeUsername(text)) == NormalizeUsername(text)
  {
    var u := NormalizeUsername(text);
    assert ToLower(u) == u;
    FilterKeepsAll(u);
  }

  /** A typed username has no whitespace, so signing in uses it exactly, with the domain
      added unless it holds an '@'. */
  lemma TypedUsernameEmail(text: string)
    ensures var u := NormalizeUsername(text);
      FormatEmail(u) == if '@' in u then u else u + Domain
  {
    var u := NormalizeUsername(text);
    assert u != [] ==> u[0] in u && u[|u| - 1] in u;
    TrimOfTrimmed(u);
  }

  const InvalidCredentialMessage: string := "Incorrect username or password."
  const UsernameTakenMessage: string := "That username is taken."
  const WeakPasswordMessage: string := "Password must be 6+ characters."
  const GenericFailureMessage: string := "Failed. Please try again."

  /** The message for a sign-in error code. */
  function ErrorMessage(code: string): (m: string)
    ensures m == InvalidCredentialMessage <==> code == "auth/invalid-credential"
    ensures m == UsernameTakenMessage <==> code == "auth/email-already-in-use"
    ensures m == WeakPasswordMessage <==> code == "auth/weak-password"
    ensures m == GenericFailureMessage <==>
      code !in {"auth/invalid-credential", "auth/email-already-in-use", "auth/weak-password"}
  {
    if code == "auth/invalid-credential" then InvalidCredentialMessage
    else if code == "auth/email-already-in-use" then UsernameTakenMessage
    else if code == "auth/weak-password" then WeakPasswordMessage
    else GenericFailureMessage
  }

  datatype Mode = SignIn | SignUp

  /** The mode toggle. */
  function Flip(m: Mode): (r: Mode)
    ensures r != m
  {
    if m == SignIn then SignUp else SignIn
  }

  lemma FlipTwice(m: Mode)
    ensures Flip(Flip(m)) == m
  {
  }

  /** The account call a submission makes: sign in or sign up, with an address. */
  datatype AuthCall = AuthCall(mode: Mode, email: string)

  class Form {
    var mode: Mode
    var username: string
    var error: Option<string>
    var loading: bool

    constructor ()
      ensures mode == SignIn && username == "" && error.None? && !loading
    {
      mode := SignIn;
      username := "";
      error := None;
      loading := false;
    }

    method TypeUsername(text: string)
      modifies this`username
      ensures username == NormalizeUsername(text)
    {
      username := Filter(ToLower(text), NotSpace);
    }

    /** The link under the form swaps the mode and clears the error. */
    method ToggleMode()
      modifies this`mode, this`error
      ensures mode == Flip(old(mode)) && error.None?
    {
      mode := if mode == SignIn then SignUp else SignIn;
      error := None;
    }

    /** `handleSubmit`: the call made for the current mode with the formatted address, and
        the message the result leaves (`failure` is the error code of a rejected call). */
    method HandleSubmit(failure: Option<string>) returns (call: AuthCall)
      modifies this`error, this`loading
      ensures call == AuthCall(mode, FormatEmail(username))
      ensures failure.None? ==> error.None?
      ensures failure.Some? ==> error == Some(ErrorMessage(failure.value))
      ensures !loading
    {
      error := None;
      loading := true;
      call := AuthCall(mode, FormatEmail(username));
      if failure.Some? {
        error := Some(ErrorMessage(failure.value));
      }
      loading := false;
    }
  }
}
