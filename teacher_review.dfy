/** The teacher's heatmap over every student's annotations of one assignment
    (src/features/teacher/TeacherReview.tsx): the text is cut at every annotation boundary,
    each piece is shaded by the number of annotations covering it, and clicking a piece
    selects exactly those annotations for the sidebar. */
module TeacherReview {
  import opened Js
  import opened Sorting
  import opened Docs

  /** The numeric comparator `(a, b) => a - b` sorts by the number itself. */
  function Id(x: int): int { x }

  /** The start and end offsets of the annotations, in the order `forEach` adds them. */
  function Offsets(anns: seq<Annotation>): (r: seq<int>)
    ensures |r| == 2 * |anns|
  {
    if anns == [] then []
    else Offsets(anns[..|anns| - 1]) + [anns[|anns| - 1].startOffset, anns[|anns| - 1].endOffset]
  }

  lemma {:induction false} OffsetsMembers(anns: seq<Annotation>, x: int)
    ensures x in Offsets(anns) <==> exists a :: a in anns && (x == a.startOffset || x == a.endOffset)
  {
    if anns != [] {
      var init, last := anns[..|anns| - 1], anns[|anns| - 1];
      OffsetsMembers(init, x);
      assert anns == init + [last];
      if x in Offsets(init) {
        var a :| a in init && (x == a.startOffset || x == a.endOffset);
        assert a in anns;
      }
    }
  }

  /** The cut points: a Set seeded with 0 and the text length, extended with every offset,
      then sorted ascending. */
  function Cuts(text: string, anns: seq<Annotation>): seq<int> {
    SortBy(Dedup([0, |text|] + Offsets(anns)), Id)
  }

  predicate IsBoundary(text: string, anns: seq<Annotation>, x: int) {
    x == 0 || x == |text| || exists a :: a in anns && (x == a.startOffset || x == a.endOffset)
  }

  lemma CutsMember(text: string, anns: seq<Annotation>, x: int)
    ensures x in Cuts(text, anns) <==> IsBoundary(text, anns, x)
  {
    var d := Dedup([0, |text|] + Offsets(anns));
    OffsetsMembers(anns, x);
    assert x in Cuts(text, anns) <==> x in multiset(Cuts(text, anns));
    assert x in d <==> x in multiset(d);
  }

  predicate Ascending(c: seq<int>) {
    forall i, j :: 0 <= i < j < |c| ==> c[i] < c[j]
  }

  lemma CutsAscending(text: string, anns: seq<Annotation>)
    ensures Ascending(Cuts(text, anns))
  {
    var c := Cuts(text, anns);
    SortByDistinct(Dedup([0, |text|] + Offsets(anns)), Id);
    forall i, j | 0 <= i < j < |c| ensures c[i] < c[j] {
      assert Id(c[i]) <= Id(c[j]);
    }
  }

  /** The cut points are exactly the boundaries, each once, strictly ascending. */
  lemma CutsAreSortedBoundaries(text: string, anns: seq<Annotation>)
    ensures forall x :: x in Cuts(text, anns) <==> IsBoundary(text, anns, x)
    ensures Ascending(Cuts(text, anns))
  {
    forall x ensures x in Cuts(text, anns) <==> IsBoundary(text, anns, x) {
      CutsMember(text, anns, x);
    }
    CutsAscending(text, anns);
  }

  /** An annotation is active in [s, e) when it covers the whole piece. */
  function Active(anns: seq<Annotation>, s: int, e: int): (r: seq<Annotation>)
    ensures forall a :: a in r <==> a in anns && a.startOffset <= s && a.endOffset >= e
  {
    Filter(anns, (a: Annotation) => a.startOffset <= s && a.endOffset >= e)
  }

  /** `Math.min(0.2 + 0.15 * n, 0.6)`, in hundredths. */
  function Intensity(n: nat): (r: int)
    ensures 20 <= r <= 60
    ensures n <= 2 ==> r == 20 + 15 * n
    ensures n >= 3 ==> r == 60
  {
    if 20 + 15 * n < 60 then 20 + 15 * n else 60
  }

  /** More covering annotations never give a lighter shade. */
  lemma IntensityMonotone(m: nat, n: nat)
    requires m <= n
    ensures Intensity(m) <= Intensity(n)
  {
  }

  /** `activeAnnotations.some(ann => selectedAnnotationIds.includes(ann.id))` */
  predicate AnySelected(active: seq<Annotation>, selected: seq<string>) {
    exists a :: a in active && a.id in selected
  }

  datatype Segment =
    | Plain(start: int, end: int, text: string)
    | Highlighted(start: int, end: int, text: string, active: seq<Annotation>, intensity: int, selected: bool)

  /** Without annotations the text is returned whole; otherwise as a list of pieces. */
  datatype Rendered = Whole(content: string) | Pieces(segments: seq<Segment>)

  /** What the piece between cut points s and e shows. */
  predicate SegmentRenders(seg: Segment, text: string, anns: seq<Annotation>, selected: seq<string>, s: int, e: int) {
    var active := Active(anns, s, e);
    && seg.start == s && seg.end == e && seg.text == Slice(text, s, e)
    && (if active == [] then seg.Plain?
        else seg.Highlighted? && seg.active == active && seg.intensity == Intensity(|active|)
             && seg.selected == AnySelected(active, selected))
  }

  /** The heatmap of `text`: one piece per pair of consecutive cut points. */
  predicate IsRendering(text: string, anns: seq<Annotation>, selected: seq<string>, r: Rendered) {
    if anns == [] then r == Whole(text)
    else
      var cuts := Cuts(text, anns);
      && r.Pieces? && |r.segments| == |cuts| - 1
      && forall i :: 0 <= i < |r.segments| ==> SegmentRenders(r.segments[i], text, anns, selected, cuts[i], cuts[i + 1])
  }

  lemma OffsetsSnoc(anns: seq<Annotation>, i: nat)
    requires i < |anns|
    ensures Offsets(anns[..i + 1]) == Offsets(anns[..i]) + [anns[i].startOffset, anns[i].endOffset]
  {
    assert anns[..i + 1][..i] == anns[..i];
  }

  /** `set.add(x)` on a Set kept as its insertion-ordered list. */
  function AddToSet(xs: seq<int>, x: int): seq<int> {
    if x in xs then xs else xs + [x]
  }

  lemma CollectStep(text: string, anns: seq<Annotation>, i: nat)
    requires i < |anns|
    ensures Dedup([0, |text|] + Offsets(anns[..i + 1]))
         == AddToSet(AddToSet(Dedup([0, |text|] + Offsets(anns[..i])), anns[i].startOffset), anns[i].endOffset)
  {
    var pre := [0, |text|] + Offsets(anns[..i]);
    OffsetsSnoc(anns, i);
    assert [0, |text|] + Offsets(anns[..i + 1]) == (pre + [anns[i].startOffset]) + [anns[i].endOffset];
    DedupSnoc(pre, anns[i].startOffset);
    DedupSnoc(pre + [anns[i].startOffset], anns[i].endOffset);
  }

  /** The boundary Set, in insertion order. */
  method CollectBoundaries(text: string, anns: seq<Annotation>) returns (boundaries: seq<int>)
    ensures boundaries == Dedup([0, |text|] + Offsets(anns))
  {
    boundaries := Dedup([0, |text|]);
    var i := 0;
    assert [0, |text|] + Offsets(anns[..0]) == [0, |text|];
    while i < |anns|
      invariant 0 <= i <= |anns|
      invariant boundaries == Dedup([0, |text|] + Offsets(anns[..i]))
    {
      var a := anns[i];
      CollectStep(text, anns, i);
      if a.startOffset !in boundaries {
        boundaries := boundaries + [a.startOffset];
      }
      if a.endOffset !in boundaries {
        boundaries := boundaries + [a.endOffset];
      }
      i := i + 1;
    }
    assert anns[..i] == anns;
  }

  /** The piece between two consecutive cut points. */
  method RenderSegment(text: string, anns: seq<Annotation>, selected: seq<string>, s: int, e: int) returns (seg: Segment)
    ensures SegmentRenders(seg, text, anns, selected, s, e)
  {
    var segmentText := Slice(text, s, e);
    var active := Active(anns, s, e);
    if |active| > 0 {
      var isSelected := exists a :: a in active && a.id in selected;
      seg := Highlighted(s, e, segmentText, active, Intensity(|active|), isSelected);
    } else {
      seg := Plain(s, e, segmentText);
    }
  }

  /** The segments built so far render the first k pieces. */
  predicate RendersUpTo(segments: seq<Segment>, text: string, anns: seq<Annotation>, selected: seq<string>, cuts: seq<int>, k: nat) {
    && |segments| == k && k < |cuts|
    && forall j :: 0 <= j < k ==> SegmentRenders(segments[j], text, anns, selected, cuts[j], cuts[j + 1])
  }

  lemma RendersSnoc(segments: seq<Segment>, seg: Segment, text: string, anns: seq<Annotation>, selected: seq<string>, cuts: seq<int>, k: nat)
    requires RendersUpTo(segments, text, anns, selected, cuts, k) && k + 1 < |cuts|
    requires SegmentRenders(seg, text, anns, selected, cuts[k], cuts[k + 1])
    ensures RendersUpTo(segments + [seg], text, anns, selected, cuts, k + 1)
  {
    forall j | 0 <= j < k + 1
      ensures SegmentRenders((segments + [seg])[j], text, anns, selected, cuts[j], cuts[j + 1])
    {
      if j < k { assert (segments + [seg])[j] == segments[j]; }
    }
  }

  lemma CutsNonEmpty(text: string, anns: seq<Annotation>)
    ensures |Cuts(text, anns)| >= 1
  {
    CutsMember(text, anns, 0);
  }

  method RenderHighlightedContent(text: string, anns: seq<Annotation>, selected: seq<string>) returns (r: Rendered)
    ensures IsRendering(text, anns, selected, r)
  {
    if |anns| == 0 {
      return Whole(text);
    }
    var boundaries := CollectBoundaries(text, anns);
    var cuts := SortBy(boundaries, Id);
    CutsNonEmpty(text, anns);
    var segments: seq<Segment> := [];
    var k := 0;
    while k < |cuts| - 1
      invariant RendersUpTo(segments, text, anns, selected, cuts, k)
    {
      var seg := RenderSegment(text, anns, selected, cuts[k], cuts[k + 1]);
      RendersSnoc(segments, seg, text, anns, selected, cuts, k);
      segments := segments + [seg];
      k := k + 1;
    }
    return Pieces(segments);
  }

  /** The texts of the pieces, in order. */
  function Texts(segs: seq<Segment>): (r: seq<string>)
    ensures |r| == |segs|
  {
    if segs == [] then [] else Texts(segs[..|segs| - 1]) + [segs[|segs| - 1].text]
  }

  lemma {:induction false} PiecesConcat(text: string, segs: seq<Segment>, cuts: seq<int>)
    requires |segs| == |cuts| - 1
    requires forall i :: 0 <= i < |cuts| ==> 0 <= cuts[i] <= |text|
    requires Ascending(cuts)
    requires forall i :: 0 <= i < |segs| ==> segs[i].text == Slice(text, cuts[i], cuts[i + 1])
    ensures Concat(Texts(segs)) == text[cuts[0]..cuts[|segs|]]
  {
    var n := |segs|;
    if n > 0 {
      PiecesConcat(text, segs[..n - 1], cuts[..n]);
      var ts := Texts(segs);
      assert ts[..n - 1] == Texts(segs[..n - 1]);
      assert text[cuts[0]..cuts[n]] == text[cuts[0]..cuts[n - 1]] + text[cuts[n - 1]..cuts[n]];
    }
  }

  lemma AscendingEnds(c: seq<int>, lo: int, hi: int)
    requires Ascending(c)
    requires lo in c && hi in c
    requires forall i :: 0 <= i < |c| ==> lo <= c[i] <= hi
    ensures c[0] == lo && c[|c| - 1] == hi
  {
    var z :| 0 <= z < |c| && c[z] == lo;
    assert c[0] <= c[z];
    var w :| 0 <= w < |c| && c[w] == hi;
    assert c[w] <= c[|c| - 1];
  }

  lemma CutsInRange(text: string, anns: seq<Annotation>, i: nat)
    requires forall a :: a in anns ==> 0 <= a.startOffset <= |text| && 0 <= a.endOffset <= |text|
    requires i < |Cuts(text, anns)|
    ensures 0 <= Cuts(text, anns)[i] <= |text|
  {
    var x := Cuts(text, anns)[i];
    CutsMember(text, anns, x);
    if x != 0 && x != |text| {
      var a :| a in anns && (x == a.startOffset || x == a.endOffset);
    }
  }

  lemma CutsSpanText(text: string, anns: seq<Annotation>)
    requires forall a :: a in anns ==> 0 <= a.startOffset <= |text| && 0 <= a.endOffset <= |text|
    ensures var c := Cuts(text, anns);
      && |c| >= 1 && c[0] == 0 && c[|c| - 1] == |text|
      && forall i :: 0 <= i < |c| ==> 0 <= c[i] <= |text|
  {
    var cuts := Cuts(text, anns);
    CutsAscending(text, anns);
    CutsMember(text, anns, 0);
    CutsMember(text, anns, |text|);
    forall i | 0 <= i < |cuts| ensures 0 <= cuts[i] <= |text| {
      CutsInRange(text, anns, i);
    }
    AscendingEnds(cuts, 0, |text|);
  }

  /** When every offset lies within the text, the pieces concatenate back to exactly the text. */
  lemma HeatmapCoversText(text: string, anns: seq<Annotation>, selected: seq<string>, r: Rendered)
    requires IsRendering(text, anns, selected, r)
    requires forall a :: a in anns ==> 0 <= a.startOffset <= |text| && 0 <= a.endOffset <= |text|
    ensures r.Whole? ==> r.content == text
    ensures r.Pieces? ==> Concat(Texts(r.segments)) == text
  {
    if r.Pieces? {
      var cuts := Cuts(text, anns);
      CutsAscending(text, anns);
      CutsSpanText(text, anns);
      forall i | 0 <= i < |r.segments| ensures r.segments[i].text == Slice(text, cuts[i], cuts[i + 1]) {
        assert SegmentRenders(r.segments[i], text, anns, selected, cuts[i], cuts[i + 1]);
      }
      PiecesConcat(text, r.segments, cuts);
    }
  }

  /** Every piece is non-empty, so a zero-length annotation is never active in any piece. */
  lemma PiecesNonEmpty(text: string, anns: seq<Annotation>, selected: seq<string>, r: Rendered)
    requires IsRendering(text, anns, selected, r)
    ensures r.Pieces? ==> forall seg :: seg in r.segments ==> seg.start < seg.end
    ensures r.Pieces? ==> forall seg, a :: seg in r.segments && seg.Highlighted? && a in seg.active ==> a.startOffset < a.endOffset
  {
    if r.Pieces? {
      CutsAreSortedBoundaries(text, anns);
      var cuts := Cuts(text, anns);
      forall seg | seg in r.segments ensures seg.start < seg.end {
        var i :| 0 <= i < |r.segments| && r.segments[i] == seg;
        assert SegmentRenders(r.segments[i], text, anns, selected, cuts[i], cuts[i + 1]);
      }
      forall seg, a | seg in r.segments && seg.Highlighted? && a in seg.active ensures a.startOffset < a.endOffset {
        var i :| 0 <= i < |r.segments| && r.segments[i] == seg;
        assert SegmentRenders(r.segments[i], text, anns, selected, cuts[i], cuts[i + 1]);
        assert a in Active(anns, cuts[i], cuts[i + 1]);
      }
    }
  }

  /** The sidebar lists the annotations whose id is selected, in their original order,
      and nothing while the selection is empty. */
  function DisplayedAnnotations(anns: seq<Annotation>, selected: seq<string>): (r: seq<Annotation>)
    ensures selected == [] ==> r == []
    ensures selected != [] ==> forall a :: a in r <==> a in anns && a.id in selected
  {
    if |selected| > 0 then Filter(anns, (a: Annotation) => a.id in selected) else []
  }

  function AnnotationId(a: Annotation): string { a.id }

  /** Clicking a highlighted piece selects its active annotations, so the piece is then drawn
      selected and the sidebar lists each of them. */
  lemma ClickShowsActive(anns: seq<Annotation>, active: seq<Annotation>)
    requires active != []
    requires forall a :: a in active ==> a in anns
    ensures AnySelected(active, Map(active, AnnotationId))
    ensures forall a :: a in active ==> a in DisplayedAnnotations(anns, Map(active, AnnotationId))
  {
    var ids := Map(active, AnnotationId);
    assert ids[0] == active[0].id;
    forall a | a in active ensures a.id in ids {
      var i :| 0 <= i < |active| && active[i] == a;
      assert ids[i] == a.id;
    }
  }

  /** `students.find(s => s.uid === uid)?.displayName || 'Unknown Student'` */
  function GetStudentName(students: seq<Profile>, uid: string): (r: string)
    ensures (forall s :: s in students ==> s.uid != uid) ==> r == "Unknown Student"
    ensures forall i :: 0 <= i < |students| && students[i].uid == uid && (forall j :: 0 <= j < i ==> students[j].uid != uid)
              ==> r == if students[i].displayName != "" then students[i].displayName else "Unknown Student"
  {
    var found := Find(students, (s: Profile) => s.uid == uid);
    FirstMatch(students, uid, found);
    if found.Some? && found.value.displayName != "" then found.value.displayName else "Unknown Student"
  }

  lemma FirstMatch(students: seq<Profile>, uid: string, found: Option<Profile>)
    requires found.Some? ==> exists i :: 0 <= i < |students| && students[i] == found.value && found.value.uid == uid
                                         && forall j :: 0 <= j < i ==> students[j].uid != uid
    requires found.None? ==> forall s :: s in students ==> s.uid != uid
    ensures forall i :: 0 <= i < |students| && students[i].uid == uid && (forall j :: 0 <= j < i ==> students[j].uid != uid)
              ==> found == Some(students[i])
  {
    forall i | 0 <= i < |students| && students[i].uid == uid && (forall j :: 0 <= j < i ==> students[j].uid != uid)
      ensures found == Some(students[i])
    {
      assert students[i] in students;
      var k :| 0 <= k < |students| && students[k] == found.value && found.value.uid == uid
               && forall j :: 0 <= j < k ==> students[j].uid != uid;
      assert !(k < i) && !(i < k);
    }
  }

  /** The selection state of the review page. */
  class Review {
    var selectedIds: seq<string>

    constructor ()
      ensures selectedIds == []
    {
      selectedIds := [];
    }

    /** A click on a highlighted piece replaces the selection by the ids of its active annotations. */
    method ClickSegment(active: seq<Annotation>)
      modifies this
      ensures selectedIds == Map(active, AnnotationId)
    {
      var ids: seq<string> := [];
      var i := 0;
      while i < |active|
        invariant 0 <= i <= |active|
        invariant ids == Map(active[..i], AnnotationId)
      {
        assert active[..i + 1] == active[..i] + [active[i]];
        MapSnoc(active[..i], active[i]);
        ids := ids + [active[i].id];
        i := i + 1;
      }
      assert active[..i] == active;
      selectedIds := ids;
    }
  }

  lemma MapSnoc(xs: seq<Annotation>, x: Annotation)
    ensures Map(xs + [x], AnnotationId) == Map(xs, AnnotationId) + [x.id]
  {
  }
}
