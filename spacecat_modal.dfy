/** The SPACECAT dialog that unlocks the reader (src/features/reader/SpacecatModal.tsx): eight
    free-text answers, all of which must be non-blank before the form can be submitted. */
module SpacecatModal {
  import opened Js

  /** The eight answers, by the input's `name`. */
  datatype Field = Speaker | Purpose | Audience | Context | Exigence | Choices | Appeals | Tone

  datatype SpacecatData = SpacecatData(
    speaker: string, purpose: string, audience: string, context: string,
    exigence: string, choices: string, appeals: string, tone: string)

  function Get(d: SpacecatData, f: Field): string {
    match f
    case Speaker => d.speaker
    case Purpose => d.purpose
    case Audience => d.audience
    case Context => d.context
    case Exigence => d.exigence
    case Choices => d.choices
    case Appeals => d.appeals
    case Tone => d.tone
  }

  /** The form as it opens: every answer empty. */
  function Initial(): (d: SpacecatData)
    ensures forall f :: Get(d, f) == ""
  {
    SpacecatData("", "", "", "", "", "", "", "")
  }

  /** `handleChange`: the record with the named answer replaced. */
  function Change(d: SpacecatData, f: Field, value: string): (r: SpacecatData)
    ensures Get(r, f) == value
    ensures forall g :: g != f ==> Get(r, g) == Get(d, g)
  {
    match f
    case Speaker => d.(speaker := value)
    case Purpose => d.(purpose := value)
    case Audience => d.(audience := value)
    case Context => d.(context := value)
    case Exigence => d.(exigence := value)
    case Choices => d.(choices := value)
    case Appeals => d.(appeals := value)
    case Tone => d.(tone := value)
  }

  /** `isFormValid`: every answer is non-blank (trimming leaves something, see
      `Js.TrimEmptyIff`). */
  predicate IsFormValid(d: SpacecatData) {
    forall f :: HasNonSpace(Get(d, f))
  }

  /** The validity test is the trimmed-length test, field by field. */
  lemma IsFormValidIff(d: SpacecatData)
    ensures IsFormValid(d) <==> forall f :: |Trim(Get(d, f))| > 0
  {
    forall f ensures HasNonSpace(Get(d, f)) <==> |Trim(Get(d, f))| > 0 {
      TrimEmptyIff(Get(d, f));
    }
  }

  /** The form opens invalid. */
  lemma InitialInvalid()
    ensures !IsFormValid(Initial())
  {
    assert !HasNonSpace(Get(Initial(), Speaker));
  }

  /** After a change the form is valid exactly when the new answer is non-blank and every
      other answer already was. */
  lemma ChangeValidity(d: SpacecatData, f: Field, value: string)
    ensures IsFormValid(Change(d, f, value)) <==>
      HasNonSpace(value) && forall g :: g != f ==> HasNonSpace(Get(d, g))
  {
    var r := Change(d, f, value);
    if HasNonSpace(value) && forall g :: g != f ==> HasNonSpace(Get(d, g)) {
      forall g ensures HasNonSpace(Get(r, g)) {
        if g != f {
          assert Get(r, g) == Get(d, g);
        }
      }
    }
  }

  /** The submit button is enabled exactly for a valid form. */
  predicate SubmitEnabled(d: SpacecatData) {
    IsFormValid(d)
  }

  /** `handleSubmit` itself does not validate: it hands the record on as it is. Through the
      button, only a record with eight non-blank answers is handed on. */
  function Submit(d: SpacecatData): (unlocked: SpacecatData)
    requires SubmitEnabled(d)
    ensures unlocked == d && forall f :: HasNonSpace(Get(unlocked, f))
  {
    d
  }
}
