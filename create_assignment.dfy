/** The "magic formatter" of the create-assignment dialog
    (src/features/dashboard/components/CreateAssignmentModal.tsx, `handleAutoFormat`): three
    global regular-expression replacements over pasted text. */
module AutoFormat {
  import opened Js

  /** Step 1 as written, `replace(/\r\n/g, '\n')`: one left-to-right pass. */
  function ReplaceCrLf(s: string): string {
    if s == [] then []
    else if |s| >= 2 && s[0] == '\r' && s[1] == '\n' then "\n" + ReplaceCrLf(s[2..])
    else [s[0]] + ReplaceCrLf(s[1..])
  }

  /** The number of carriage returns at the start of s. */
  function CrRun(s: string): (n: nat)
    ensures n <= |s| && forall i :: 0 <= i < n ==> s[i] == '\r'
    ensures n < |s| ==> s[n] != '\r'
  {
    if s != [] && s[0] == '\r' then 1 + CrRun(s[1..]) else 0
  }

  /** Step 1 corrected, `replace(/\r+\n/g, '\n')`: a run of carriage returns before a line
      feed becomes that line feed. */
  function Fix1(s: string): string {
    if s == [] then []
    else if s[0] == '\r' && CrRun(s) < |s| && s[CrRun(s)] == '\n' then "\n" + Fix1(s[CrRun(s) + 1..])
    else [s[0]] + Fix1(s[1..])
  }

  /** The index in s of the last line feed in the whitespace that starts s, or -1: the end of
      the match of `\s*\n` at the start of s. */
  function LastNl(s: string): (r: int)
    ensures -1 <= r < |s|
    ensures r >= 0 ==> s[r] == '\n' && AllSpace(s[..r + 1])
  {
    if s == [] || !IsSpace(s[0]) then -1
    else
      var r := LastNl(s[1..]);
      if r >= 0 then
        assert s[..r + 2] == [s[0]] + s[1..][..r + 1];
        r + 1
      else if s[0] == '\n' then 0
      else -1
  }

  /** Step 2, `replace(/\n\s*\n/g, '\n')`: a line feed, any whitespace and a last line feed
      become one line feed; the scan resumes after the match. */
  function Collapse(s: string): string {
    if s == [] then []
    else if s[0] == '\n' && LastNl(s[1..]) >= 0 then "\n" + Collapse(s[LastNl(s[1..]) + 2..])
    else [s[0]] + Collapse(s[1..])
  }

  /** Step 3, `replace(/\n/g, '\n\n')`. */
  function Double(s: string): string {
    if s == [] then []
    else (if s[0] == '\n' then "\n\n" else [s[0]]) + Double(s[1..])
  }

  /** `handleAutoFormat` as written; empty content is left alone. */
  function FormatAsWritten(content: string): string {
    if content == [] then content else Double(Collapse(ReplaceCrLf(content)))
  }

  /** `handleAutoFormat` with the corrected first step. */
  function Format(content: string): string {
    if content == [] then content else Double(Collapse(Fix1(content)))
  }

  /** No carriage return is directly followed by a line feed. */
  predicate NoCrLf(s: string) {
    |s| < 2 || (!(s[0] == '\r' && s[1] == '\n') && NoCrLf(s[1..]))
  }

  /** No line feed is followed, across whitespace only, by another line feed: the text has
      no blank lines. */
  predicate Normal(z: string) {
    z == [] || ((z[0] == '\n' ==> LastNl(z[1..]) == -1) && Normal(z[1..]))
  }

  // ---- the formatter as written is not idempotent ----

  /** "\r\r\n" keeps a Windows line ending after formatting, and formatting again changes
      the text. */
  lemma AsWrittenKeepsCrLf()
    ensures FormatAsWritten("\r\r\n") == "\r\n\n"
    ensures !NoCrLf(FormatAsWritten("\r\r\n"))
    ensures FormatAsWritten(FormatAsWritten("\r\r\n")) == "\n\n" != FormatAsWritten("\r\r\n")
  {
    assert ReplaceCrLf("\r\n") == "\n" + ReplaceCrLf([]);
    assert ReplaceCrLf("\r\r\n") == "\r" + ReplaceCrLf("\r\n");
    assert LastNl([]) == -1;
    assert Collapse("\n") == "\n" + Collapse([]);
    assert Collapse("\r\n") == "\r" + Collapse("\n");
    assert Double("\n") == "\n\n";
    assert Double("\r\n") == "\r" + Double("\n");
    assert ReplaceCrLf("\n") == "\n";
    assert ReplaceCrLf("\r\n\n") == "\n" + ReplaceCrLf("\n");
    assert LastNl("\n") == 0;
    assert Collapse("\n\n") == "\n" + Collapse([]);
  }

  /** Without a doubled carriage return the corrected first step is the one as written. */
  lemma {:induction false} Fix1AgreesWithoutDoubleCr(s: string)
    requires forall i :: 0 <= i < |s| - 1 ==> !(s[i] == '\r' && s[i + 1] == '\r')
    ensures Fix1(s) == ReplaceCrLf(s)
  {
    if s != [] {
      if s[0] == '\r' && |s| >= 2 {
        assert s[1] != '\r';
        assert CrRun(s) == 1;
      }
      if |s| >= 2 && s[0] == '\r' && s[1] == '\n' {
        Fix1AgreesWithoutDoubleCr(s[2..]);
      } else {
        Fix1AgreesWithoutDoubleCr(s[1..]);
      }
    }
  }

  // ---- facts about the three steps ----

  lemma Fix1Head(s: string)
    requires s != []
    ensures Fix1(s) != []
    ensures Fix1(s)[0] == if s[0] == '\r' && CrRun(s) < |s| && s[CrRun(s)] == '\n' then '\n' else s[0]
  {
  }

  /** The corrected first step leaves no Windows line ending. */
  lemma {:induction false} Fix1NoCrLf(s: string)
    ensures NoCrLf(Fix1(s))
    decreases |s|
  {
    if s == [] {
    } else if s[0] == '\r' && CrRun(s) < |s| && s[CrRun(s)] == '\n' {
      var rest := s[CrRun(s) + 1..];
      Fix1NoCrLf(rest);
      if rest != [] { Fix1Head(rest); }
      assert ("\n" + Fix1(rest))[1..] == Fix1(rest);
    } else {
      var rest := s[1..];
      Fix1NoCrLf(rest);
      if rest != [] {
        Fix1Head(rest);
        if s[0] == '\r' {
          assert CrRun(rest) + 1 == CrRun(s);
          assert rest[0] != '\n';
        }
      }
      assert ([s[0]] + Fix1(rest))[1..] == Fix1(rest);
    }
  }

  /** Text without Windows line endings passes the corrected first step unchanged. */
  lemma {:induction false} Fix1Identity(s: string)
    requires NoCrLf(s)
    ensures Fix1(s) == s
  {
    if s != [] {
      if s[0] == '\r' && CrRun(s) < |s| && s[CrRun(s)] == '\n' {
        var k := CrRun(s);
        NoCrLfAt(s, k - 1);
        assert false;
      }
      if |s| >= 2 { assert NoCrLf(s[1..]); }
      Fix1Identity(s[1..]);
      assert [s[0]] + s[1..] == s;
    }
  }

  lemma {:induction false} NoCrLfAt(s: string, i: nat)
    requires NoCrLf(s) && i + 1 < |s|
    ensures !(s[i] == '\r' && s[i + 1] == '\n')
  {
    if i > 0 {
      NoCrLfAt(s[1..], i - 1);
    }
  }

  lemma CollapseHead(s: string)
    requires s != []
    ensures Collapse(s) != [] && Collapse(s)[0] == s[0]
  {
  }

  /** Collapsing keeps text free of Windows line endings. */
  lemma {:induction false} CollapseNoCrLf(s: string)
    requires NoCrLf(s)
    ensures NoCrLf(Collapse(s))
    decreases |s|
  {
    if s == [] {
    } else if s[0] == '\n' && LastNl(s[1..]) >= 0 {
      var rest := s[LastNl(s[1..]) + 2..];
      NoCrLfSuffix(s, LastNl(s[1..]) + 2);
      CollapseNoCrLf(rest);
      assert ("\n" + Collapse(rest))[1..] == Collapse(rest);
    } else {
      var rest := s[1..];
      if |s| >= 2 { assert NoCrLf(rest); }
      CollapseNoCrLf(rest);
      if rest != [] {
        CollapseHead(rest);
      }
      assert ([s[0]] + Collapse(rest))[1..] == Collapse(rest);
    }
  }

  lemma {:induction false} NoCrLfSuffix(s: string, k: nat)
    requires NoCrLf(s) && k <= |s|
    ensures NoCrLf(s[k..])
  {
    if k > 0 && |s| >= 2 {
      NoCrLfSuffix(s[1..], k - 1);
      assert s[1..][k - 1..] == s[k..];
    }
  }

  /** Doubling line feeds keeps text free of Windows line endings. */
  lemma {:induction false} DoubleNoCrLf(s: string)
    requires NoCrLf(s)
    ensures NoCrLf(Double(s))
  {
    if s != [] {
      var rest := s[1..];
      if |s| >= 2 { assert NoCrLf(rest); }
      DoubleNoCrLf(rest);
      if s[0] == '\n' {
        assert ("\n\n" + Double(rest))[1..] == "\n" + Double(rest);
        assert ("\n" + Double(rest))[1..] == Double(rest);
      } else {
        if rest != [] {
          assert Double(rest)[0] == if rest[0] == '\n' then '\n' else rest[0];
        }
        assert ([s[0]] + Double(rest))[1..] == Double(rest);
      }
    }
  }

  /** After the last line feed of a whitespace prefix no line feed follows in whitespace. */
  lemma {:induction false} AfterLastNl(u: string)
    requires LastNl(u) >= 0
    ensures LastNl(u[LastNl(u) + 1..]) == -1
  {
    if LastNl(u[1..]) >= 0 {
      AfterLastNl(u[1..]);
      assert u[1..][LastNl(u[1..]) + 1..] == u[LastNl(u) + 1..];
    }
  }

  /** Collapsing text that does not start with whitespace and a line feed does not create
      such a start. */
  lemma {:induction false} CollapseKeepsNoLeadingNl(t: string)
    requires LastNl(t) == -1
    ensures LastNl(Collapse(t)) == -1
  {
    if t != [] && IsSpace(t[0]) {
      CollapseKeepsNoLeadingNl(t[1..]);
      assert Collapse(t) == [t[0]] + Collapse(t[1..]);
      assert Collapse(t)[1..] == Collapse(t[1..]);
    } else if t != [] {
      CollapseHead(t);
    }
  }

  lemma {:induction false} DoubleKeepsNoLeadingNl(t: string)
    requires LastNl(t) == -1
    ensures LastNl(Double(t)) == -1
  {
    if t != [] && IsSpace(t[0]) {
      DoubleKeepsNoLeadingNl(t[1..]);
      assert Double(t) == [t[0]] + Double(t[1..]);
      assert Double(t)[1..] == Double(t[1..]);
    } else if t != [] {
      assert Double(t)[0] == t[0];
    }
  }

  /** Collapsed text has no blank lines. */
  lemma {:induction false} CollapseNormal(s: string)
    ensures Normal(Collapse(s))
    decreases |s|
  {
    if s == [] {
    } else if s[0] == '\n' && LastNl(s[1..]) >= 0 {
      var r := LastNl(s[1..]);
      var rest := s[r + 2..];
      CollapseNormal(rest);
      AfterLastNl(s[1..]);
      assert s[1..][r + 1..] == rest;
      CollapseKeepsNoLeadingNl(rest);
      assert ("\n" + Collapse(rest))[1..] == Collapse(rest);
    } else {
      var rest := s[1..];
      CollapseNormal(rest);
      if s[0] == '\n' {
        CollapseKeepsNoLeadingNl(rest);
      }
      assert ([s[0]] + Collapse(rest))[1..] == Collapse(rest);
    }
  }

  /** A doubled line feed before text that does not start with a blank line collapses
      back to one. */
  lemma CollapseDoubledNl(t: string)
    requires LastNl(t) == -1
    ensures Collapse("\n\n" + t) == "\n" + Collapse(t)
  {
    var s := "\n\n" + t;
    assert s[1..] == "\n" + t;
    assert ("\n" + t)[1..] == t;
    assert LastNl(s[1..]) == 0;
    assert s[2..] == t;
  }

  /** Any other character passes through collapsing. */
  lemma CollapseOther(c: char, t: string)
    requires c != '\n'
    ensures Collapse([c] + t) == [c] + Collapse(t)
  {
    assert ([c] + t)[1..] == t;
  }

  /** On text without blank lines, collapsing undoes doubling. */
  lemma {:induction false} CollapseUndoesDouble(z: string)
    requires Normal(z)
    ensures Collapse(Double(z)) == z
  {
    if z != [] {
      var rest := z[1..];
      CollapseUndoesDouble(rest);
      if z[0] == '\n' {
        DoubleKeepsNoLeadingNl(rest);
        assert Double(z) == "\n\n" + Double(rest);
        CollapseDoubledNl(Double(rest));
      } else {
        assert Double(z) == [z[0]] + Double(rest);
        CollapseOther(z[0], Double(rest));
      }
      assert [z[0]] + rest == z;
    }
  }

  /** The corrected formatter leaves no Windows line ending, and its result is the
      doubling of a text without blank lines. */
  lemma FormatShape(content: string)
    requires content != []
    ensures NoCrLf(Format(content))
    ensures Normal(Collapse(Fix1(content))) && Format(content) == Double(Collapse(Fix1(content)))
  {
    Fix1NoCrLf(content);
    CollapseNoCrLf(Fix1(content));
    DoubleNoCrLf(Collapse(Fix1(content)));
    CollapseNormal(Fix1(content));
  }

  /** On content without two carriage returns in a row, the formatter as written is the
      corrected one, so it leaves no Windows line ending either. */
  lemma AsWrittenWithoutDoubleCr(content: string)
    ensures (forall i :: 0 <= i < |content| - 1 ==> !(content[i] == '\r' && content[i + 1] == '\r')) ==>
      FormatAsWritten(content) == Format(content) && (content != [] ==> NoCrLf(FormatAsWritten(content)))
  {
    if forall i :: 0 <= i < |content| - 1 ==> !(content[i] == '\r' && content[i + 1] == '\r') {
      Fix1AgreesWithoutDoubleCr(content);
      if content != [] {
        FormatShape(content);
      }
    }
  }

  /** Text without carriage returns has no Windows line ending. */
  lemma {:induction false} NoCrHasNoCrLf(s: string)
    requires '\r' !in s
    ensures NoCrLf(s)
  {
    if |s| >= 2 {
      assert s[1..][0] == s[1];
      NoCrHasNoCrLf(s[1..]);
    }
  }

  /** Collapsing brings in no carriage return. */
  lemma {:induction false} CollapseKeepsNoCr(s: string)
    requires '\r' !in s
    ensures '\r' !in Collapse(s)
    decreases |s|
  {
    if s == [] {
    } else if s[0] == '\n' && LastNl(s[1..]) >= 0 {
      var rest := s[LastNl(s[1..]) + 2..];
      assert forall c :: c in rest ==> c in s;
      CollapseKeepsNoCr(rest);
    } else {
      assert forall c :: c in s[1..] ==> c in s;
      CollapseKeepsNoCr(s[1..]);
    }
  }

  /** Doubling line feeds brings in no carriage return. */
  lemma {:induction false} DoubleKeepsNoCr(s: string)
    requires '\r' !in s
    ensures '\r' !in Double(s)
  {
    if s != [] {
      assert forall c :: c in s[1..] ==> c in s;
      DoubleKeepsNoCr(s[1..]);
    }
  }

  /** Content typed into a textarea holds no carriage return (the browser turns every line
      ending of its value into a line feed); on such content the formatter as written equals
      the corrected one, and pressing it a second time changes nothing. */
  lemma AsWrittenIdempotentWithoutCr(content: string)
    requires '\r' !in content
    ensures FormatAsWritten(content) == Format(content)
    ensures '\r' !in FormatAsWritten(content)
    ensures FormatAsWritten(FormatAsWritten(content)) == FormatAsWritten(content)
  {
    AsWrittenWithoutDoubleCr(content);
    if content != [] {
      NoCrHasNoCrLf(content);
      Fix1Identity(content);
      CollapseKeepsNoCr(content);
      DoubleKeepsNoCr(Collapse(content));
    }
    AsWrittenWithoutDoubleCr(Format(content));
    FormatIdempotent(content);
  }

  /** Pressing the corrected formatter twice gives the same text as pressing it once. */
  lemma FormatIdempotent(content: string)
    ensures Format(Format(content)) == Format(content)
  {
    if content != [] {
      var z := Collapse(Fix1(content));
      FormatShape(content);
      var w := Double(z);
      assert w != [] by {
        Fix1Head(content);
        CollapseHead(Fix1(content));
      }
      Fix1Identity(w);
      CollapseUndoesDouble(z);
    }
  }
}

/** The teacher's create-assignment dialog
    (src/features/dashboard/components/CreateAssignmentModal.tsx): the formatter button and
    the submission that stores a new active assignment. */
module CreateAssignment {
  import opened Js
  import opened Docs
  import opened AutoFormat

  datatype Outcome = Ignored | Created | Failed

  /** The alert shown when the write fails. */
  const FailureMessage: string := "Failed to create assignment. Please try again."

  /** `author.trim() || "Unknown Author"` */
  function StoredAuthor(author: string): (r: string)
    ensures r != []
    ensures HasNonSpace(author) ==> r == Trim(author)
    ensures !HasNonSpace(author) ==> r == "Unknown Author"
  {
    TrimEmptyIff(author);
    if Trim(author) != [] then Trim(author) else "Unknown Author"
  }

  /** The submit guard `!title.trim() || !content.trim() || !dueDate`, negated. */
  predicate Ready(title: string, content: string, dueDate: string) {
    HasNonSpace(title) && HasNonSpace(content) && dueDate != ""
  }

  /** The document `handleSubmit` adds: an active assignment with the title and content as
      typed and the trimmed author, or "Unknown Author". */
  function NewAssignment(id: string, classId: string, title: string, author: string, content: string,
                 dueTime: int, now: int): (a: Assignment)
    ensures a.id == id && a.classId == classId && a.title == title && a.content == content
    ensures a.author == StoredAuthor(author)
    ensures a.status == Active && a.dueDate == Some(dueTime) && a.createdAt == now
  {
    Assignment(id, classId, title, StoredAuthor(author), Some(dueTime), Active, content, now)
  }

  class Modal {
    const classId: string
    var title: string
    var author: string
    var content: string
    /** The date input's text; "" until a date is picked. */
    var dueDate: string
    var isSubmitting: bool
    /** The `assignments` collection in insertion order. */
    var assignments: seq<Assignment>

    constructor (classId: string, assignments: seq<Assignment>)
      ensures this.classId == classId && this.assignments == assignments
      ensures title == "" && author == "" && content == "" && dueDate == "" && !isSubmitting
    {
      this.classId := classId;
      this.assignments := assignments;
      title, author, content, dueDate := "", "", "", "";
      isSubmitting := false;
    }

    /** The formatter button, as written: empty content is left alone. On content without
        two carriage returns in a row its result is the corrected formatting, so it leaves
        no Windows line ending; with them it can (`AutoFormat.AsWrittenKeepsCrLf`). */
    method HandleAutoFormat()
      modifies this`content
      ensures content == FormatAsWritten(old(content))
      ensures (forall i :: 0 <= i < |old(content)| - 1 ==> !(old(content)[i] == '\r' && old(content)[i + 1] == '\r')) ==>
        content == Format(old(content)) && (old(content) != [] ==> NoCrLf(content))
      ensures '\r' !in old(content) ==> FormatAsWritten(content) == content
    {
      if content == [] {
        return;
      }
      content := Double(Collapse(ReplaceCrLf(content)));
      AsWrittenWithoutDoubleCr(old(content));
      if '\r' !in old(content) {
        AsWrittenIdempotentWithoutCr(old(content));
      }
    }

    /** `handleSubmit`: a title or content that trims to nothing (one without a non-space
        character, see `Js.TrimEmptyIff`), or no due date, does nothing; otherwise the
        assignment `NewAssignment` describes is stored. A failed write is reported and stores nothing.
        `dueTime` is the parsed due date. */
    method HandleSubmit(newId: string, dueTime: int, now: int, storeFails: bool) returns (outcome: Outcome)
      modifies this`assignments, this`isSubmitting
      ensures outcome.Ignored? <==> !Ready(title, content, dueDate)
      ensures outcome.Ignored? ==> assignments == old(assignments) && isSubmitting == old(isSubmitting)
      ensures outcome.Created? <==> !outcome.Ignored? && !storeFails
      ensures outcome.Created? ==>
        assignments == old(assignments) + [NewAssignment(newId, classId, title, author, content, dueTime, now)] && isSubmitting
      ensures outcome.Failed? ==> assignments == old(assignments) && !isSubmitting
    {
      if !Ready(title, content, dueDate) {
        return Ignored;
      }
      isSubmitting := true;
      if storeFails {
        isSubmitting := false;
        return Failed;
      }
      assignments := assignments + [NewAssignment(newId, classId, title, author, content, dueTime, now)];
      outcome := Created;
    }
  }
}
