/** The pop-up that annotates a selection (src/features/reader/RAVSelector.tsx): the student
    first picks a rhetorical verb, then writes commentary on its effect and saves both. */
module RavSelector {
  import opened Js

  datatype Step = VerbStep | CommentaryStep

  /** Where the pop-up sits; without one nothing is drawn. */
  datatype Position = Position(top: int, left: int)

  /** The pop-up renders only with a position. */
  predicate Shown(position: Option<Position>) {
    position.Some?
  }

  /** A verb and its commentary, as handed to `onSelect`. */
  datatype Selection = Selection(verb: string, commentary: string)

  class Selector {
    var step: Step
    var selectedVerb: Option<string>
    var commentary: string

    /** The commentary step is only reached with a verb picked. */
    predicate Valid()
      reads this
    {
      step == CommentaryStep ==> selectedVerb.Some?
    }

    constructor ()
      ensures Valid()
      ensures step == VerbStep && selectedVerb.None? && commentary == ""
    {
      step := VerbStep;
      selectedVerb := None;
      commentary := "";
    }

    /** `handleVerbClick`: the verb is recorded and the commentary step opens. */
    method VerbClick(verb: string)
      modifies this`step, this`selectedVerb
      ensures Valid()
      ensures step == CommentaryStep && selectedVerb == Some(verb)
    {
      selectedVerb := Some(verb);
      step := CommentaryStep;
    }

    /** The text area's change handler. */
    method TypeCommentary(text: string)
      modifies this`commentary
      ensures commentary == text
    {
      commentary := text;
    }

    /** The Save button is enabled for non-blank commentary. */
    function SaveEnabled(): (r: bool)
      reads this
      ensures r <==> HasNonSpace(commentary)
    {
      HasNonSpace(commentary)
    }

    /** `handleSave`: with a non-empty verb and non-blank commentary the pair is handed on, the
        commentary as typed (untrimmed), and the selector starts over; otherwise nothing
        changes. */
    method Save() returns (saved: Option<Selection>)
      requires Valid()
      modifies this`step, this`selectedVerb, this`commentary
      ensures Valid()
      ensures saved.Some? <==> old(selectedVerb).Some? && old(selectedVerb).value != "" && HasNonSpace(old(commentary))
      ensures saved.Some? ==>
        saved.value == Selection(old(selectedVerb).value, old(commentary))
        && step == VerbStep && selectedVerb.None? && commentary == ""
      ensures saved.None? ==>
        step == old(step) && selectedVerb == old(selectedVerb) && commentary == old(commentary)
    {
      if selectedVerb.Some? && selectedVerb.value != "" && HasNonSpace(commentary) {
        saved := Some(Selection(selectedVerb.value, commentary));
        step := VerbStep;
        selectedVerb := None;
        commentary := "";
      } else {
        saved := None;
      }
    }

    /** The Back button returns to the verb list and keeps the verb and the commentary. */
    method Back()
      requires Valid()
      modifies this`step
      ensures Valid()
      ensures step == VerbStep
    {
      step := VerbStep;
    }
  }

  /** Saving starts over: picking a verb, writing commentary and saving hands on exactly that
      pair and leaves the selector as it opened. */
  method SaveRoundTrip(verb: string, text: string) returns (saved: Option<Selection>)
    requires verb != "" && HasNonSpace(text)
    ensures saved == Some(Selection(verb, text))
  {
    var s := new Selector();
    s.VerbClick(verb);
    s.TypeCommentary(text);
    saved := s.Save();
    assert s.step == VerbStep && s.selectedVerb.None? && s.commentary == "";
  }

  /** Going back and choosing another verb keeps the commentary written so far. */
  method BackKeepsCommentary(first: string, second: string, text: string) returns (commentary: string)
    ensures commentary == text
  {
    var s := new Selector();
    s.VerbClick(first);
    s.TypeCommentary(text);
    s.Back();
    s.VerbClick(second);
    commentary := s.commentary;
  }
}
