/** The teacher's create-class dialog (src/features/dashboard/components/CreateClassModal.tsx):
    it draws a six-character join code from an unambiguous alphabet, checks it against the
    stored classes up to three times, and stores the new class under the first free code. */
module CreateClass {
  import opened Js
  import opened Docs

  /** The join-code alphabet: capitals and digits without I, O, 0 and 1. */
  const Alphabet: string := "ABCDEFGHJKLMNPQRSTUVWXYZ23456789"

  /** `Math.floor(Math.random() * chars.length)`: one draw of the random source. */
  type Draw = x: int | 0 <= x < 32

  predicate Unambiguous(c: char) {
    c != 'I' && c != 'O' && c != '0' && c != '1'
  }

  /** Where a character sits in the alphabet: letters in order with I and O skipped, then
      the digits from 2. */
  function Pos(c: char): int {
    if c < 'A' then 24 + (c as int - '2' as int)
    else if c < 'I' then c as int - 'A' as int
    else if c < 'O' then c as int - 'A' as int - 1
    else c as int - 'A' as int - 2
  }

  lemma AlphabetPositions()
    ensures forall i :: 0 <= i < |Alphabet| ==> Pos(Alphabet[i]) == i
  {
  }

  lemma AlphabetChars()
    ensures forall i :: 0 <= i < |Alphabet| ==>
      Unambiguous(Alphabet[i]) && ('A' <= Alphabet[i] <= 'Z' || '2' <= Alphabet[i] <= '9')
  {
  }

  lemma AlphabetFacts()
    ensures |Alphabet| == 32 && NoDuplicates(Alphabet)
    ensures forall c :: c in Alphabet ==> Unambiguous(c) && ('A' <= c <= 'Z' || '2' <= c <= '9')
  {
    AlphabetPositions();
    AlphabetChars();
  }

  /** A well-formed join code. */
  predicate IsCode(s: string) {
    |s| == 6 && forall i :: 0 <= i < 6 ==> s[i] in Alphabet
  }

  /** The code built from the six draws starting at the given position of the random
      stream. */
  function CodeAt(random: nat -> Draw, start: nat): (code: string)
    ensures |code| == 6
  {
    seq(6, i requires 0 <= i < 6 => Alphabet[random(start + i)])
  }

  /** Every generated code is well formed and free of ambiguous characters. */
  lemma CodeAtIsCode(random: nat -> Draw, start: nat)
    ensures IsCode(CodeAt(random, start))
    ensures forall i :: 0 <= i < 6 ==> Unambiguous(CodeAt(random, start)[i])
  {
    AlphabetFacts();
    var code := CodeAt(random, start);
    forall i | 0 <= i < 6 ensures code[i] in Alphabet && Unambiguous(code[i]) {
      assert code[i] == Alphabet[random(start + i)];
    }
  }

  /** The `where('joinCode', '==', code)` query is non-empty. */
  predicate Taken(classes: seq<ClassDoc>, code: string) {
    exists c :: c in classes && c.joinCode == code
  }

  /** The three candidates one submission may check, in order. */
  function Candidates(random: nat -> Draw, start: nat): (r: seq<string>)
    ensures |r| == 3
    ensures r[0] == CodeAt(random, start) && r[1] == CodeAt(random, start + 6) && r[2] == CodeAt(random, start + 12)
  {
    [CodeAt(random, start), CodeAt(random, start + 6), CodeAt(random, start + 12)]
  }

  /** The index of the first candidate that no class uses, if any. */
  function FirstFree(classes: seq<ClassDoc>, candidates: seq<string>): (r: Option<nat>)
    ensures r.Some? ==> r.value < |candidates| && !Taken(classes, candidates[r.value])
    ensures r.Some? ==> forall k :: 0 <= k < r.value ==> Taken(classes, candidates[k])
    ensures r.None? ==> forall k :: 0 <= k < |candidates| ==> Taken(classes, candidates[k])
  {
    if candidates == [] then None
    else if !Taken(classes, candidates[0]) then Some(0)
    else match FirstFree(classes, candidates[1..]) {
      case None => None
      case Some(k) => Some(k + 1)
    }
  }

  /** The search stops at the first candidate that is free. */
  lemma {:induction false} FirstFreeIs(classes: seq<ClassDoc>, candidates: seq<string>, i: nat)
    requires i < |candidates| && !Taken(classes, candidates[i])
    requires forall k :: 0 <= k < i ==> Taken(classes, candidates[k])
    ensures FirstFree(classes, candidates) == Some(i)
  {
    if i > 0 {
      assert Taken(classes, candidates[0]);
      FirstFreeIs(classes, candidates[1..], i - 1);
    }
  }

  /** The draws one submission consumes: six per generated code, and a fourth code is
      generated after the third taken one. */
  function DrawsUsed(classes: seq<ClassDoc>, random: nat -> Draw, start: nat): (n: nat)
    ensures n % 6 == 0 && 6 <= n <= 24
  {
    var free := FirstFree(classes, Candidates(random, start));
    if free.Some? then 6 * (free.value + 1) else 24
  }

  /** No two classes share a join code. */
  predicate CodesUnique(classes: seq<ClassDoc>) {
    forall i, j :: 0 <= i < j < |classes| ==> classes[i].joinCode != classes[j].joinCode
  }

  /** Adding a class under a free code keeps the codes unique. */
  lemma AddFreeKeepsUnique(classes: seq<ClassDoc>, c: ClassDoc)
    requires CodesUnique(classes) && !Taken(classes, c.joinCode)
    ensures CodesUnique(classes + [c])
  {
    var r := classes + [c];
    forall i, j | 0 <= i < j < |r| ensures r[i].joinCode != r[j].joinCode {
      if j == |classes| {
        assert r[i] in classes;
      }
    }
  }

  datatype Outcome = Ignored | Created(code: string) | Failed

  /** The alert shown when creation fails. */
  const FailureMessage: string := "Failed to create class. Please try again."

  class Modal {
    /** The random source, read through a position. */
    const random: nat -> Draw
    var draws: nat
    /** The `classes` collection in insertion order. */
    var classes: seq<ClassDoc>
    var createdCode: Option<string>
    var isSubmitting: bool

    constructor (random: nat -> Draw, classes: seq<ClassDoc>)
      ensures this.random == random && this.classes == classes && draws == 0
      ensures createdCode.None? && !isSubmitting
    {
      this.random := random;
      this.classes := classes;
      draws := 0;
      createdCode := None;
      isSubmitting := false;
    }

    /** `generateJoinCode`: six draws, each picking a letter of the alphabet. */
    method GenerateJoinCode() returns (code: string)
      modifies this`draws
      ensures draws == old(draws) + 6
      ensures code == CodeAt(random, old(draws))
    {
      code := "";
      var i := 0;
      while i < 6
        invariant 0 <= i <= 6 && draws == old(draws) + i
        invariant |code| == i && forall j :: 0 <= j < i ==> code[j] == Alphabet[random(old(draws) + j)]
      {
        code := code + [Alphabet[random(draws)]];
        draws := draws + 1;
        i := i + 1;
      }
    }

    /** The retry loop of `handleSubmit`: the first candidate is checked, and after each
        taken one a fresh candidate is drawn, at most three checks in all. */
    method FindFreeCode() returns (found: Option<string>)
      modifies this`draws
      ensures draws == old(draws) + DrawsUsed(classes, random, old(draws))
      ensures found.Some? <==> FirstFree(classes, Candidates(random, old(draws))).Some?
      ensures found.Some? ==> found.value == Candidates(random, old(draws))[FirstFree(classes, Candidates(random, old(draws))).value]
    {
      ghost var start := draws;
      ghost var candidates := Candidates(random, start);
      var code := GenerateJoinCode();
      var isUnique := false;
      var i := 0;
      while i < 3
        invariant 0 <= i <= 3
        invariant draws == start + 6 * (i + 1) && code == CodeAt(random, draws - 6)
        invariant i < 3 ==> code == candidates[i]
        invariant forall k :: 0 <= k < i ==> Taken(classes, candidates[k])
        invariant isUnique ==> i < 3 && !Taken(classes, code)
        decreases 3 - i
      {
        if !(exists c :: c in classes && c.joinCode == code) {
          isUnique := true;
          break;
        }
        code := GenerateJoinCode();
        i := i + 1;
      }
      if isUnique {
        FirstFreeIs(classes, candidates, i);
        assert DrawsUsed(classes, random, start) == 6 * (i + 1);
        found := Some(code);
      } else {
        assert FirstFree(classes, candidates).None?;
        assert DrawsUsed(classes, random, start) == 24;
        found := None;
      }
    }

    /** `handleSubmit`: without a user, or with a name that trims to nothing (one without a
        non-space character, see `Js.TrimEmptyIff`), nothing happens. Otherwise the
        class is stored under the first free candidate; when all three are taken, or the write
        fails, the dialog reports a failure and stores nothing. */
    method HandleSubmit(uid: Option<string>, displayName: string, className: string, description: string,
                        newId: string, now: int, storeFails: bool) returns (outcome: Outcome)
      modifies this`draws, this`classes, this`createdCode, this`isSubmitting
      ensures uid.None? || !HasNonSpace(className) <==> outcome.Ignored?
      ensures outcome.Ignored? ==>
        draws == old(draws) && classes == old(classes) && createdCode == old(createdCode) && isSubmitting == old(isSubmitting)
      ensures !outcome.Ignored? ==> draws == old(draws) + DrawsUsed(old(classes), random, old(draws))
      ensures outcome.Created? <==> !outcome.Ignored? && FirstFree(old(classes), Candidates(random, old(draws))).Some? && !storeFails
      ensures outcome.Created? ==>
        outcome.code == Candidates(random, old(draws))[FirstFree(old(classes), Candidates(random, old(draws))).value]
      ensures outcome.Created? ==>
        && classes == old(classes) + [ClassDoc(newId, className, description, uid.value, displayName, outcome.code, Some([]), now)]
        && createdCode == Some(outcome.code) && isSubmitting
      ensures outcome.Failed? ==> classes == old(classes) && createdCode == old(createdCode) && !isSubmitting
      ensures CodesUnique(old(classes)) ==> CodesUnique(classes)
    {
      if uid.None? || !HasNonSpace(className) {
        return Ignored;
      }
      isSubmitting := true;
      var found := FindFreeCode();
      if found.None? || storeFails {
        isSubmitting := false;
        return Failed;
      }
      var created := ClassDoc(newId, className, description, uid.value, displayName, found.value, Some([]), now);
      if CodesUnique(classes) {
        AddFreeKeepsUnique(classes, created);
      }
      classes := classes + [created];
      createdCode := found;
      outcome := Created(found.value);
    }
  }

  /** A class created through the dialog never shares its code with an earlier class. */
  lemma CreatedCodeIsFresh(classes: seq<ClassDoc>, random: nat -> Draw, start: nat)
    requires FirstFree(classes, Candidates(random, start)).Some?
    ensures forall c :: c in classes ==>
      c.joinCode != Candidates(random, start)[FirstFree(classes, Candidates(random, start)).value]
  {
  }
}
