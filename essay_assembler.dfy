/** The final assembly view (src/features/writer/EssayAssembler.tsx): the plain-text copy of
    the essay skeleton, drag-and-drop reordering of the paragraphs, and their list keys. */
module EssayAssembler {
  import opened Js
  import opened Docs

  /** How a template literal shows an optional string: a missing value prints "undefined". */
  function Shown(v: Option<string>): string {
    if v.Some? then v.value else "undefined"
  }

  /** One paragraph's block of the copied text. */
  function Block(p: Paragraph): string {
    "Paragraph:\nClaim: " + Shown(if p.claimVerb.Some? then Some(p.claimVerb.value.verb) else None)
    + " - " + Shown(if p.claimVerb.Some? then p.claimVerb.value.commentary else None)
    + "\nEvidence: \"" + p.evidence + "\"\nCommentary: " + p.commentary
  }

  /** The first line of the copied text and the blank line after it. */
  function Header(thesis: string): string {
    "Thesis: " + thesis + "\n\n"
  }

  /** `handleCopy`'s text: the thesis header, then the paragraph blocks joined by blank lines. */
  function CopyText(thesis: string, paragraphs: seq<Paragraph>): string {
    Header(thesis) + Join(Map(paragraphs, Block), "\n\n")
  }

  /** Joining one more mapped element appends the separator and its image. */
  lemma JoinMapSnoc<T>(xs: seq<T>, x: T, f: T -> string, sep: string)
    requires xs != []
    ensures Join(Map(xs + [x], f), sep) == Join(Map(xs, f), sep) + sep + f(x)
  {
    var m := Map(xs + [x], f);
    assert m[..|m| - 1] == Map(xs, f);
  }

  lemma Regroup(h: string, j: string, sep: string, b: string)
    ensures h + (j + sep + b) == (h + j) + sep + b
  {
  }

  /** Without paragraphs only the header is copied; each further paragraph adds a blank line
      and its block at the end, so the blocks appear in the list's order. */
  lemma CopyTextGrows(thesis: string, paragraphs: seq<Paragraph>, p: Paragraph)
    ensures CopyText(thesis, []) == Header(thesis)
    ensures CopyText(thesis, [p]) == Header(thesis) + Block(p)
    ensures paragraphs != [] ==>
      CopyText(thesis, paragraphs + [p]) == CopyText(thesis, paragraphs) + "\n\n" + Block(p)
  {
    assert Map([p], Block) == [Block(p)];
    if paragraphs != [] {
      JoinMapSnoc(paragraphs, p, Block, "\n\n");
      Regroup(Header(thesis), Join(Map(paragraphs, Block), "\n\n"), "\n\n", Block(p));
    }
  }

  /** A claim without a verb is copied with "undefined" in both places. */
  lemma MissingClaimPrintsUndefined(p: Paragraph)
    requires p.claimVerb.None?
    ensures Block(p) == "Paragraph:\nClaim: undefined - undefined\nEvidence: \"" + p.evidence
                        + "\"\nCommentary: " + p.commentary
  {
    var head := "Paragraph:\nClaim: " + Shown(None) + " - " + Shown(None) + "\nEvidence: \"";
    assert head == "Paragraph:\nClaim: undefined - undefined\nEvidence: \"";
  }

  /** The list without its element at index i. */
  function Without<T>(xs: seq<T>, i: nat): seq<T>
    requires i < |xs|
  {
    xs[..i] + xs[i + 1..]
  }

  /** Where the moved item lands: `splice` clamps an index past the end to the end. */
  function Landing(n: nat, dst: nat): (d: nat)
    requires n > 0
    ensures d < n && (dst < n ==> d == dst)
  {
    if dst < n then dst else n - 1
  }

  /** The order after removing the item at src and re-inserting it at dst. */
  function Moved<T>(xs: seq<T>, src: nat, dst: nat): seq<T>
    requires src < |xs|
  {
    var rest := Without(xs, src);
    var d := Landing(|xs|, dst);
    rest[..d] + [xs[src]] + rest[d..]
  }

  /** A move keeps every paragraph, puts the dragged one at its landing index, and keeps the
      relative order of all the others. */
  lemma MovedFacts<T>(xs: seq<T>, src: nat, dst: nat)
    requires src < |xs|
    ensures var r := Moved(xs, src, dst); var d := Landing(|xs|, dst);
      && |r| == |xs|
      && multiset(r) == multiset(xs)
      && r[d] == xs[src]
      && Without(r, d) == Without(xs, src)
  {
    var rest := Without(xs, src);
    var d := Landing(|xs|, dst);
    var r := Moved(xs, src, dst);
    assert xs == xs[..src] + [xs[src]] + xs[src + 1..];
    assert rest == rest[..d] + rest[d..];
    calc {
      multiset(r);
      multiset(rest[..d]) + multiset([xs[src]]) + multiset(rest[d..]);
      multiset(rest) + multiset([xs[src]]);
      multiset(xs[..src]) + multiset(xs[src + 1..]) + multiset([xs[src]]);
      multiset(xs);
    }
    assert r[..d] == rest[..d];
    assert r[d + 1..] == rest[d..];
  }

  /** Dropping a paragraph where it was picked up leaves the order unchanged. */
  lemma MoveInPlace<T>(xs: seq<T>, i: nat)
    requires i < |xs|
    ensures Moved(xs, i, i) == xs
  {
    assert xs == xs[..i] + [xs[i]] + xs[i + 1..];
  }

  /** Dragging the paragraph back from where it landed to where it came from restores the
      original order. */
  lemma MoveBackRestores<T>(xs: seq<T>, src: nat, dst: nat)
    requires src < |xs|
    ensures Moved(Moved(xs, src, dst), Landing(|xs|, dst), src) == xs
  {
    var d := Landing(|xs|, dst);
    var r := Moved(xs, src, dst);
    MovedFacts(xs, src, dst);
    var rest := Without(xs, src);
    assert Landing(|r|, src) == src;
    assert Moved(r, d, src) == rest[..src] + [xs[src]] + rest[src..];
    assert rest[..src] == xs[..src];
    assert rest[src..] == xs[src + 1..];
    assert xs == xs[..src] + [xs[src]] + xs[src + 1..];
  }

  /** `handleDragEnd`: a drop outside the list, or a view without a reorder callback, gives
      no new order; otherwise a copy of the list has the dragged paragraph spliced out at the
      source index and back in at the destination index. */
  method HandleDragEnd(paragraphs: seq<Paragraph>, source: nat, destination: Option<nat>, canReorder: bool)
    returns (newOrder: Option<seq<Paragraph>>)
    requires source < |paragraphs|
    ensures newOrder.None? <==> destination.None? || !canReorder
    ensures newOrder.Some? ==> newOrder.value == Moved(paragraphs, source, destination.value)
  {
    if destination.None? || !canReorder {
      return None;
    }
    var items := paragraphs;
    var reordered := items[source];
    items := items[..source] + items[source + 1..];
    var d := if destination.value <= |items| then destination.value else |items|;
    items := items[..d] + [reordered] + items[d..];
    newOrder := Some(items);
  }

  /** The key and draggable id of the paragraph at an index. */
  function Key(id: string, index: nat): string {
    id + "_" + NatToString(index)
  }

  /** Keys at different indices differ, whatever the paragraph ids, because the decimal
      index after the last '_' holds no '_'. */
  lemma KeysDistinct(id1: string, i: nat, id2: string, j: nat)
    requires i != j
    ensures Key(id1, i) != Key(id2, j)
  {
    var d1 := NatToString(i);
    var d2 := NatToString(j);
    var k1 := Key(id1, i);
    var k2 := Key(id2, j);
    if |k1| == |k2| {
      if |d1| == |d2| {
        assert k1[|k1| - |d1|..] == d1;
        assert k2[|k2| - |d2|..] == d2;
        if d1 == d2 {
          NatToStringInjective(i, j);
        }
      } else if |d1| < |d2| {
        var p := |k1| - |d1| - 1;
        assert k1[p] == '_';
        assert k2[p] == d2[|d2| - |d1| - 1];
      } else {
        var p := |k2| - |d2| - 1;
        assert k2[p] == '_';
        assert k1[p] == d1[|d1| - |d2| - 1];
      }
    }
  }

  /** Hence every paragraph in the list has its own key, even when ids repeat. */
  lemma ListKeysDistinct(paragraphs: seq<Paragraph>)
    ensures forall i, j :: 0 <= i < j < |paragraphs| ==> Key(paragraphs[i].id, i) != Key(paragraphs[j].id, j)
  {
    forall i, j | 0 <= i < j < |paragraphs|
      ensures Key(paragraphs[i].id, i) != Key(paragraphs[j].id, j)
    {
      KeysDistinct(paragraphs[i].id, i, paragraphs[j].id, j);
    }
  }
}
