/** The paragraph builder (src/features/writer/ParagraphBuilder.tsx): a claim slot filled by
    dragging an annotation, its evidence text, free commentary, and the gate that enables
    completion only when the commentary has at least twice as many sentences as the
    evidence. */
module ParagraphBuilder {
  import opened Js
  import opened Docs

  /** A character of the class `[.!?]`. */
  predicate IsStop(c: char) {
    c == '.' || c == '!' || c == '?'
  }

  predicate StopFree(s: string) {
    forall i :: 0 <= i < |s| ==> !IsStop(s[i])
  }

  predicate AllStops(s: string) {
    forall i :: 0 <= i < |s| ==> IsStop(s[i])
  }

  /** The index of the first stop character, or |s| when there is none. */
  function FirstStop(s: string): (i: nat)
    ensures i <= |s| && StopFree(s[..i])
    ensures i < |s| ==> IsStop(s[i])
  {
    if s == [] || IsStop(s[0]) then 0
    else
      var j := FirstStop(s[1..]);
      assert s[..j + 1] == [s[0]] + s[1..][..j];
      1 + j
  }

  /** The length of the run of stop characters at the start of s. */
  function StopRun(s: string): (n: nat)
    ensures n <= |s| && AllStops(s[..n])
    ensures n < |s| ==> !IsStop(s[n])
  {
    if s == [] || !IsStop(s[0]) then 0
    else
      var j := StopRun(s[1..]);
      assert s[..j + 1] == [s[0]] + s[1..][..j];
      1 + j
  }

  lemma FirstStopIs(s: string, i: nat)
    requires i <= |s| && StopFree(s[..i]) && (i < |s| ==> IsStop(s[i]))
    ensures FirstStop(s) == i
  {
    var j := FirstStop(s);
    assert forall k :: 0 <= k < i ==> s[..i][k] == s[k];
    assert forall k :: 0 <= k < j ==> s[..j][k] == s[k];
  }

  lemma StopRunIs(s: string, n: nat)
    requires n <= |s| && AllStops(s[..n]) && (n < |s| ==> !IsStop(s[n]))
    ensures StopRun(s) == n
  {
    var j := StopRun(s);
    assert forall k :: 0 <= k < n ==> s[..n][k] == s[k];
    assert forall k :: 0 <= k < j ==> s[..j][k] == s[k];
  }

  /** `s.split(/[.!?]+/)`: the pieces between maximal runs of stop characters, including an
      empty piece before a leading run and after a trailing one. */
  function Sentences(s: string): (r: seq<string>)
    ensures |r| >= 1
    ensures forall k :: 0 <= k < |r| ==> StopFree(r[k])
    decreases |s|
  {
    var i := FirstStop(s);
    if i == |s| then [s]
    else
      var n := StopRun(s[i..]);
      [s[..i]] + Sentences(s[i + n..])
  }

  /** Text without stop characters is one piece. */
  lemma SentencesOfStopFree(w: string)
    requires StopFree(w)
    ensures Sentences(w) == [w]
  {
    assert w[..|w|] == w;
    FirstStopIs(w, |w|);
  }

  /** A stop-free piece, a run of stops and the rest split into that piece followed by the
      pieces of the rest. */
  lemma SentencesCons(w: string, run: string, rest: string)
    requires StopFree(w) && run != [] && AllStops(run) && (rest == [] || !IsStop(rest[0]))
    ensures Sentences(w + run + rest) == [w] + Sentences(rest)
  {
    var s := w + run + rest;
    assert s[..|w|] == w;
    FirstStopIs(s, |w|);
    assert s[|w|..] == run + rest;
    assert (run + rest)[..|run|] == run;
    StopRunIs(run + rest, |run|);
    assert s[|w| + |run|..] == rest;
  }

  /** `filter(Boolean)` on strings. */
  predicate NonEmpty(p: string) {
    p != []
  }

  /** `filter(s => s.trim().length > 0)` */
  predicate NonBlank(p: string) {
    Trim(p) != []
  }

  /** The evidence sentence count: 0 for empty evidence, otherwise the number of non-empty
      pieces, and at least 1. */
  function EvidenceCount(evidence: string): (n: nat)
    ensures evidence == [] <==> n == 0
  {
    if evidence == [] then 0
    else
      var k := |Filter(Sentences(evidence), NonEmpty)|;
      if k == 0 then 1 else k
  }

  /** The commentary sentence count: 0 for empty commentary, otherwise the number of pieces
      that are not blank. */
  function CommentaryCount(commentary: string): nat {
    if commentary == [] then 0 else |Filter(Sentences(commentary), NonBlank)|
  }

  /** `isRatioMet` */
  predicate RatioMet(commentarySentences: nat, evidenceSentences: nat) {
    commentarySentences >= 2 * evidenceSentences
  }

  lemma FilterFirst(w: string, rest: seq<string>, p: string -> bool)
    ensures Filter([w] + rest, p) == (if p(w) then [w] else []) + Filter(rest, p)
  {
    assert ([w] + rest)[1..] == rest;
  }

  /** A commentary piece ended by a run of stops counts once when it is not blank, and the
      rest is counted on its own. */
  lemma CommentaryCountCons(w: string, run: string, rest: string)
    requires StopFree(w) && run != [] && AllStops(run) && (rest == [] || !IsStop(rest[0]))
    ensures CommentaryCount(w + run + rest) == (if NonBlank(w) then 1 else 0) + CommentaryCount(rest)
  {
    SentencesCons(w, run, rest);
    FilterFirst(w, Sentences(rest), NonBlank);
    if rest == [] {
      SentencesOfStopFree(rest);
      assert Filter([rest], NonBlank) == [] by {
        assert Trim(rest) == [];
        FilterFirst(rest, [], NonBlank);
      }
    }
  }

  /** The same for the non-empty pieces that the evidence count is built from. */
  lemma EvidencePiecesCons(w: string, run: string, rest: string)
    requires StopFree(w) && run != [] && AllStops(run) && (rest == [] || !IsStop(rest[0]))
    ensures |Filter(Sentences(w + run + rest), NonEmpty)|
            == (if w != [] then 1 else 0) + |Filter(Sentences(rest), NonEmpty)|
  {
    SentencesCons(w, run, rest);
    FilterFirst(w, Sentences(rest), NonEmpty);
  }

  /** Keeping fewer elements keeps no more of them. */
  lemma {:induction false} FilterWeaker(xs: seq<string>)
    ensures |Filter(xs, NonBlank)| <= |Filter(xs, NonEmpty)|
  {
    if xs != [] {
      var h := xs[0];
      assert NonBlank(h) ==> NonEmpty(h) by {
        if NonBlank(h) { assert |Trim(h)| <= |h|; }
      }
      FilterWeaker(xs[1..]);
    }
  }

  /** The commentary rule never counts more sentences than the evidence rule would: blank
      pieces count only as evidence. */
  lemma CommentaryCountsNoMore(s: string)
    ensures CommentaryCount(s) <= EvidenceCount(s)
  {
    if s != [] {
      FilterWeaker(Sentences(s));
    }
  }

  lemma SingleStop(stop: char)
    requires IsStop(stop)
    ensures AllStops([stop])
  {
  }

  /** Appending a stop keeps the first character of a non-empty string. */
  lemma SnocHead(w: string, stop: char)
    requires w != []
    ensures (w + [stop])[0] == w[0]
  {
  }

  lemma NonBlankNonEmpty(w: string)
    requires NonBlank(w)
    ensures w != []
  {
    assert |Trim(w)| <= |w|;
  }

  /** One non-blank sentence and its stop count once under both rules. */
  lemma OneSentence(w: string, stop: char)
    requires StopFree(w) && NonBlank(w) && IsStop(stop)
    ensures EvidenceCount(w + [stop]) == 1 && CommentaryCount(w + [stop]) == 1
  {
    NonBlankNonEmpty(w);
    SingleStop(stop);
    assert w + [stop] == w + [stop] + [];
    SentencesOfStopFree([]);
    FilterFirst([], [], NonEmpty);
    EvidencePiecesCons(w, [stop], []);
    CommentaryCountCons(w, [stop], []);
  }

  /** Two non-blank sentences, each ended by a stop, count twice as commentary. */
  lemma TwoSentences(w1: string, w2: string, stop: char)
    requires StopFree(w1) && NonBlank(w1) && StopFree(w2) && NonBlank(w2) && IsStop(stop)
    ensures CommentaryCount(w1 + [stop] + (w2 + [stop])) == 2
  {
    NonBlankNonEmpty(w2);
    SnocHead(w2, stop);
    SingleStop(stop);
    OneSentence(w2, stop);
    CommentaryCountCons(w1, [stop], w2 + [stop]);
  }

  /** A blank piece between stops counts as evidence but not as commentary. */
  lemma BlankPieceCountsOnlyAsEvidence(w: string, blank: string, stop: char)
    requires StopFree(w) && NonBlank(w) && blank != [] && AllSpace(blank) && IsStop(stop)
    ensures var s := w + [stop] + (blank + [stop]); EvidenceCount(s) == 2 && CommentaryCount(s) == 1
  {
    NonBlankNonEmpty(w);
    SnocHead(blank, stop);
    SingleStop(stop);
    SpacesAreNotStops(blank);
    BlankSentence(blank, stop);
    EvidencePiecesCons(w, [stop], blank + [stop]);
    CommentaryCountCons(w, [stop], blank + [stop]);
  }

  lemma SpacesAreNotStops(blank: string)
    requires AllSpace(blank)
    ensures StopFree(blank)
  {
    forall i | 0 <= i < |blank| ensures !IsStop(blank[i]) {
      assert IsSpace(blank[i]);
    }
  }

  /** A blank piece and its stop: one non-empty piece, no commentary sentence. */
  lemma BlankSentence(blank: string, stop: char)
    requires StopFree(blank) && blank != [] && AllSpace(blank) && IsStop(stop)
    ensures |Filter(Sentences(blank + [stop]), NonEmpty)| == 1 && CommentaryCount(blank + [stop]) == 0
  {
    SingleStop(stop);
    assert Trim(blank) == [];
    assert blank + [stop] == blank + [stop] + [];
    SentencesOfStopFree([]);
    FilterFirst([], [], NonEmpty);
    EvidencePiecesCons(blank, [stop], []);
    CommentaryCountCons(blank, [stop], []);
  }

  /** With one evidence sentence, one commentary sentence keeps completion disabled and two
      enable it. */
  lemma RatioGateBoundary(evidence: string, c1: string, c2: string, stop: char)
    requires StopFree(evidence) && NonBlank(evidence)
    requires StopFree(c1) && NonBlank(c1) && StopFree(c2) && NonBlank(c2) && IsStop(stop)
    ensures EvidenceCount(evidence + [stop]) == 1
    ensures !RatioMet(CommentaryCount(c1 + [stop]), EvidenceCount(evidence + [stop]))
    ensures RatioMet(CommentaryCount(c1 + [stop] + (c2 + [stop])), EvidenceCount(evidence + [stop]))
  {
    OneSentence(evidence, stop);
    OneSentence(c1, stop);
    TwoSentences(c1, c2, stop);
  }

  /** Once a claim brings non-empty evidence, completion needs at least two commentary
      sentences; with empty evidence the gate is open. */
  lemma GateNeedsTwoForAnyEvidence(evidence: string, commentary: string)
    ensures evidence != [] && RatioMet(CommentaryCount(commentary), EvidenceCount(evidence)) ==> CommentaryCount(commentary) >= 2
    ensures evidence == [] ==> RatioMet(CommentaryCount(commentary), EvidenceCount(evidence))
  {
  }

  /** Whether the complete button can fire: it sits inside `{paragraph.claimVerb && (…)}`, so
      it exists only with a claim, and it is disabled unless the ratio holds. */
  predicate Completable(p: Paragraph) {
    p.claimVerb.Some? && RatioMet(CommentaryCount(p.commentary), EvidenceCount(p.evidence))
  }

  /** A fresh paragraph meets the ratio (no evidence asks for no commentary), yet it cannot be
      completed: without a claim there is no button. */
  lemma FreshCannotComplete(now: nat, token: string)
    ensures RatioMet(CommentaryCount(EmptyState(now, token).commentary), EvidenceCount(EmptyState(now, token).evidence))
    ensures !Completable(EmptyState(now, token))
  {
    GateNeedsTwoForAnyEvidence("", "");
  }

  /** `createEmptyState`: a fresh id from the clock and a random token, and nothing else. */
  function EmptyState(now: nat, token: string): (p: Paragraph)
    ensures StartsWith(p.id, "para_")
    ensures p.claimVerb.None? && p.evidence == [] && p.commentary == []
  {
    Paragraph("para_" + NatToString(now) + "_" + token, None, "", "")
  }

  /** The predicate `a.id === annotationId` of `handleDragEnd`'s search. */
  function HasId(id: string): Annotation -> bool {
    (a: Annotation) => a.id == id
  }

  class Builder {
    const annotations: seq<Annotation>
    var paragraph: Paragraph
    var commentarySentences: nat
    var evidenceSentences: nat

    /** The counters describe the current paragraph, as the effect on its evidence and
        commentary keeps them. */
    predicate Valid()
      reads this
    {
      commentarySentences == CommentaryCount(paragraph.commentary)
      && evidenceSentences == EvidenceCount(paragraph.evidence)
    }

    /** The mount: the initial state when one is given, a fresh empty one otherwise. */
    constructor (annotations: seq<Annotation>, initialState: Option<Paragraph>, now: nat, token: string)
      ensures this.annotations == annotations && Valid()
      ensures paragraph == if initialState.Some? then initialState.value else EmptyState(now, token)
    {
      this.annotations := annotations;
      paragraph := if initialState.Some? then initialState.value else EmptyState(now, token);
      new;
      Recount();
    }

    /** The effect that recounts both fields. */
    method Recount()
      modifies this`commentarySentences, this`evidenceSentences
      ensures Valid()
    {
      if paragraph.evidence != [] {
        var k := |Filter(Sentences(paragraph.evidence), NonEmpty)|;
        evidenceSentences := if k == 0 then 1 else k;
      } else {
        evidenceSentences := 0;
      }
      if paragraph.commentary != [] {
        commentarySentences := |Filter(Sentences(paragraph.commentary), NonBlank)|;
      } else {
        commentarySentences := 0;
      }
    }

    /** The effect on a change of `initialState`. */
    method Reset(initialState: Option<Paragraph>, now: nat, token: string)
      modifies this`paragraph, this`commentarySentences, this`evidenceSentences
      ensures Valid()
      ensures paragraph == if initialState.Some? then initialState.value else EmptyState(now, token)
    {
      paragraph := if initialState.Some? then initialState.value else EmptyState(now, token);
      Recount();
    }

    /** `handleDragEnd`: a drop on the claim slot of an annotation that is in the bank makes it
        the claim and its text the evidence; any other drop changes nothing. */
    method HandleDragEnd(destination: Option<string>, draggableId: string)
      modifies this`paragraph, this`commentarySentences, this`evidenceSentences
      requires Valid()
      ensures Valid()
      ensures var a := Find(annotations, HasId(draggableId));
        paragraph == if destination == Some("claim-slot") && a.Some?
                     then old(paragraph).(claimVerb := a, evidence := a.value.text)
                     else old(paragraph)
      ensures var a := Find(annotations, HasId(draggableId));
        destination == Some("claim-slot") && a.Some? ==> a.value in annotations && IsUsed(a.value)
    {
      if destination.None? {
        return;
      }
      var annotation := Find(annotations, HasId(draggableId));
      if annotation.Some? && destination.value == "claim-slot" {
        paragraph := paragraph.(claimVerb := annotation, evidence := annotation.value.text);
        Recount();
      }
    }

    /** `handleCommentaryChange`: only the commentary changes. */
    method HandleCommentaryChange(text: string)
      modifies this`paragraph, this`commentarySentences, this`evidenceSentences
      ensures Valid()
      ensures paragraph == old(paragraph).(commentary := text)
    {
      paragraph := paragraph.(commentary := text);
      Recount();
    }

    predicate IsRatioMet()
      reads this
    {
      RatioMet(commentarySentences, evidenceSentences)
    }

    /** The annotation in the claim slot cannot be dragged again. */
    predicate IsUsed(ann: Annotation)
      reads this
    {
      paragraph.claimVerb.Some? && paragraph.claimVerb.value.id == ann.id
    }

    /** The complete button: rendered only once a claim is set, enabled only when the ratio
        holds, and then it hands over the paragraph as it stands. */
    method Complete() returns (r: Option<Paragraph>)
      requires Valid()
      ensures r.Some? <==> Completable(paragraph)
      ensures r.Some? ==> r.value == paragraph
      ensures paragraph.claimVerb.None? ==> r.None?
      ensures r.Some? && paragraph.evidence != [] ==> CommentaryCount(paragraph.commentary) >= 2
    {
      if paragraph.claimVerb.Some? && IsRatioMet() {
        r := Some(paragraph);
      } else {
        r := None;
      }
    }
  }
}
