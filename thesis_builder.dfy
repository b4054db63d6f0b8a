/** The thesis builder panel of the reader (src/features/thesis/ThesisBuilder.tsx): the same
    two slots and purpose as the thesis page, but the saved sentence appends a bare "ing" to
    each verb instead of inflecting it. */
module ThesisBuilder {
  import opened Js
  import opened Docs
  import ThesisPage

  /** A verb slot as the sentence shows it: the verb, or '[verb]' when it is missing. */
  function VerbOrPlaceholder(v: Option<string>): string {
    if Filled(v) then v.value else "[verb]"
  }

  /** `handleSave`'s sentence, with '[verb]' and '[purpose]' for what is missing. */
  function SaveText(author: string, t: ThesisState): string {
    (author + " begins by ") + (VerbOrPlaceholder(t.verb1) + "ing")
    + (", then shifts to " + VerbOrPlaceholder(t.verb2) + "ing in order to "
       + (if t.purpose != "" then t.purpose else "[purpose]") + ".")
  }

  lemma Slices(a: string, b: string, c: string)
    ensures (a + b + c)[..|a|] == a && (a + b + c)[|a|..|a| + |b|] == b
  {
    assert (a + b + c)[..|a|] == (a + b)[..|a|];
    assert (a + b + c)[|a|..|a| + |b|] == (a + b)[|a|..];
  }

  /** The first verb appears right after "<author> begins by ", followed by a bare "ing",
      and the sentence ends with a full stop. */
  lemma SaveTextShape(author: string, t: ThesisState)
    ensures var s := SaveText(author, t); var k := |author| + 11; var w := VerbOrPlaceholder(t.verb1);
      && |s| >= k + |w| + 3
      && s[..k] == author + " begins by "
      && s[k..k + |w| + 3] == w + "ing"
      && s[|s| - 1] == '.'
  {
    var rest := ", then shifts to " + VerbOrPlaceholder(t.verb2) + "ing in order to "
                + (if t.purpose != "" then t.purpose else "[purpose]") + ".";
    Slices(author + " begins by ", VerbOrPlaceholder(t.verb1) + "ing", rest);
  }

  /** Unlike the thesis page, no gerund rule applies: "Highlights" becomes "Highlightsing"
      here and "Highlighting" there. */
  lemma NoGerundRules(author: string, purpose: string)
    ensures var s := SaveText(author, ThesisState(Some("Highlights"), Some("Shows"), purpose)); var k := |author| + 11;
      |s| >= k + 13 && s[k..k + 13] == "Highlightsing" && ThesisPage.ToGerund("Highlights") == "Highlighting"
  {
    var t := ThesisState(Some("Highlights"), Some("Shows"), purpose);
    assert VerbOrPlaceholder(t.verb1) + "ing" == "Highlightsing";
    SaveTextShape(author, t);
    ThesisPage.SExample();
  }

  /** The save button is disabled until both slots and the purpose are non-empty. */
  predicate SaveDisabled(t: ThesisState) {
    !Filled(t.verb1) || !Filled(t.verb2) || t.purpose == ""
  }

  /** Whenever saving is possible no placeholder is used. */
  lemma EnabledSaveHasNoPlaceholder(author: string, t: ThesisState)
    requires !SaveDisabled(t)
    ensures SaveText(author, t) == author + " begins by " + t.verb1.value + "ing, then shifts to "
                                   + t.verb2.value + "ing in order to " + t.purpose + "."
  {
  }

  class Builder {
    const authorName: string
    const availableVerbs: seq<string>
    var thesis: ThesisState

    constructor (authorName: string, availableVerbs: seq<string>)
      ensures this.authorName == authorName && this.availableVerbs == availableVerbs
      ensures thesis == ThesisState(None, None, "")
    {
      this.authorName := authorName;
      this.availableVerbs := availableVerbs;
      thesis := ThesisState(None, None, "");
    }

    /** The verb bank shows each available verb once. */
    function UniqueVerbs(): (r: seq<string>)
      reads this
      ensures forall v :: v in r <==> v in availableVerbs
      ensures NoDuplicates(r)
      ensures forall k :: 0 <= k <= |availableVerbs| ==> Dedup(availableVerbs[..k]) <= r
    {
      assert forall k :: 0 <= k <= |availableVerbs| ==> Dedup(availableVerbs[..k]) <= Dedup(availableVerbs) by {
        forall k | 0 <= k <= |availableVerbs| {
          DedupPrefix(availableVerbs, k);
        }
      }
      Dedup(availableVerbs)
    }

    method HandleDrop(slot: ThesisPage.Slot, verb: string)
      modifies this`thesis
      ensures thesis == ThesisPage.WithSlot(old(thesis), slot, Some(verb))
    {
      match slot {
        case Verb1 => thesis := thesis.(verb1 := Some(verb));
        case Verb2 => thesis := thesis.(verb2 := Some(verb));
      }
    }

    method ClearSlot(slot: ThesisPage.Slot)
      modifies this`thesis
      ensures thesis == ThesisPage.WithSlot(old(thesis), slot, None)
    {
      match slot {
        case Verb1 => thesis := thesis.(verb1 := None);
        case Verb2 => thesis := thesis.(verb2 := None);
      }
    }

    method SetPurpose(purpose: string)
      modifies this`thesis
      ensures thesis == old(thesis).(purpose := purpose)
    {
      thesis := thesis.(purpose := purpose);
    }

    /** `handleSave`: the sentence handed to `onSave`. */
    method HandleSave() returns (text: string)
      ensures text == SaveText(authorName, thesis)
      ensures text[..|authorName| + 11] == authorName + " begins by "
    {
      var v1 := if thesis.verb1.Some? && thesis.verb1.value != "" then thesis.verb1.value else "[verb]";
      var v2 := if thesis.verb2.Some? && thesis.verb2.value != "" then thesis.verb2.value else "[verb]";
      var p := if thesis.purpose != "" then thesis.purpose else "[purpose]";
      text := (authorName + " begins by ") + (v1 + "ing") + (", then shifts to " + v2 + "ing in order to " + p + ".");
      SaveTextShape(authorName, thesis);
    }
  }
}
