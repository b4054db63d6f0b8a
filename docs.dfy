/** The application's records and its document store.
    A stored document is a map from field names to values; `setDoc(ref, fields, { merge: true })`
    overrides the named fields and keeps every other one. Optional string fields that the
    application only tests for truthiness are modelled as strings, with "" for an absent value. */
module Docs {
  import opened Js

  datatype Role = Teacher | Student

  /** A user profile of the `users` collection. */
  datatype Profile = Profile(uid: string, email: string, displayName: string, role: Role)

  /** An annotation of the `annotations` collection; `commentary` is optional in the store. */
  datatype Annotation = Annotation(
    id: string, text: string, verb: string, commentary: Option<string>,
    startOffset: int, endOffset: int, color: string, userId: string, assignmentId: string)

  /** The two verb slots and the purpose of a thesis under construction. */
  datatype ThesisState = ThesisState(verb1: Option<string>, verb2: Option<string>, purpose: string)

  /** A body paragraph: the annotation used as the claim, the evidence and the commentary. */
  datatype Paragraph = Paragraph(id: string, claimVerb: Option<Annotation>, evidence: string, commentary: string)

  /** A class of the `classes` collection; `studentIds` may be absent. */
  datatype ClassDoc = ClassDoc(
    id: string, name: string, description: string, teacherId: string, teacherName: string,
    joinCode: string, studentIds: Option<seq<string>>, createdAt: int)

  /** The class roster lists the student (`studentIds.includes(uid)`, `array-contains`). */
  predicate Enrolled(c: ClassDoc, uid: string) {
    c.studentIds.Some? && uid in c.studentIds.value
  }

  datatype AssignmentStatus = Active | Draft | Archived

  /** An assignment of the `assignments` collection; a missing due date is `None`. */
  datatype Assignment = Assignment(
    id: string, classId: string, title: string, author: string, dueDate: Option<int>,
    status: AssignmentStatus, content: string, createdAt: int)

  /** A field value of a submission document. */
  datatype Value =
    | Str(s: string)
    | Time(t: int)
    | ThesisVal(thesis: ThesisState)
    | Fields(fields: map<string, string>)
    | Paragraphs(items: seq<Paragraph>)

  type Doc = map<string, Value>

  /** A submission document is keyed `${uid}_${assignmentId}`. */
  function SubmissionId(uid: string, assignmentId: string): (r: string)
    ensures |r| == |uid| + 1 + |assignmentId|
    ensures r[..|uid|] == uid && r[|uid|] == '_' && r[|uid| + 1..] == assignmentId
  {
    uid + "_" + assignmentId
  }

  /** JavaScript truthiness of a stored value: only the empty string is falsy among these. */
  predicate Truthy(v: Value) {
    !(v.Str? && v.s == "")
  }

  /** `data.field` is truthy. */
  predicate Has(d: Doc, field: string) {
    field in d && Truthy(d[field])
  }

  /** `setDoc(ref, upd, { merge: true })` applied to the stored document (absent = empty). */
  function Merge(d: Doc, upd: Doc): (r: Doc)
    ensures r.Keys == d.Keys + upd.Keys
    ensures forall f :: f in upd ==> r[f] == upd[f]
    ensures forall f :: f in d && f !in upd ==> r[f] == d[f]
  {
    d + upd
  }

  /** Writes with merge into the submissions collection. */
  function MergeInto(store: map<string, Doc>, id: string, upd: Doc): (r: map<string, Doc>)
    ensures r.Keys == store.Keys + {id}
    ensures forall k :: k in store && k != id ==> r[k] == store[k]
    ensures r[id] == Merge(if id in store then store[id] else map[], upd)
  {
    store[id := Merge(if id in store then store[id] else map[], upd)]
  }

  /** Two merges whose field sets are disjoint both survive: a later save never erases
      the fields an earlier save wrote elsewhere. */
  lemma MergeCommutesOnDisjoint(d: Doc, u1: Doc, u2: Doc)
    requires u1.Keys !! u2.Keys
    ensures Merge(Merge(d, u1), u2) == Merge(Merge(d, u2), u1)
    ensures forall f :: f in u1 ==> Merge(Merge(d, u1), u2)[f] == u1[f]
  {
    var a, b := Merge(Merge(d, u1), u2), Merge(Merge(d, u2), u1);
    assert a.Keys == b.Keys;
    forall f | f in a ensures a[f] == b[f] {
      if f in u1 { assert f !in u2; } else if f in u2 { assert f !in u1; }
    }
  }
}
