/**
 * The conventional-commit message of main.go's last form: the fields are
 * formatted as `type(scope): summary`, a blank line, then the description,
 * and the message exists only when the user confirmed. The program prints it
 * and never commits it.
 *
 * `Parse` is not part of the program: it reads a message back into its
 * fields and is the partner that `Format` is proved against.
 */
module CommitMessage {
  import opened Optional

  datatype ConventionalCommit =
    ConventionalCommit(commitType: string, scope: string, summary: string, description: string)

  /** `fmt.Sprintf("%s(%s): %s\n\n%s", commitType, scope, summary, description)`. */
  function Format(c: ConventionalCommit): (msg: string)
    ensures |msg| == |c.commitType| + |c.scope| + |c.summary| + |c.description| + 6
  {
    c.commitType + "(" + c.scope + "): " + c.summary + "\n\n" + c.description
  }

  /** The message shown at the end of a run: the formatted fields, only when confirmed. */
  function FinalMessage(c: ConventionalCommit, confirm: bool): (m: Option<string>)
    ensures m.Some? <==> confirm
    ensures m.Some? ==> m.value == Format(c)
  {
    if confirm then Some(Format(c)) else None
  }

  /** A confirmed message of unambiguous fields reads back to those fields. */
  lemma FinalMessageReadsBack(c: ConventionalCommit)
    requires Unambiguous(c)
    ensures Parse(FinalMessage(c, true).value) == Some(c)
  {
    FormatParse(c);
  }

  // ---------------------------------------------------------------------
  // Reading a message back

  /** Splits `s` at the first `c`: the text before it and the text after it. */
  function Cut(s: string, c: char): (r: Option<(string, string)>)
    ensures r.Some? <==> c in s
  {
    if |s| == 0 then None
    else if s[0] == c then Some(([], s[1..]))
    else match Cut(s[1..], c)
      case None => None
      case Some(p) => Some(([s[0]] + p.0, p.1))
  }

  /** What `Cut` returns glues back to its input around the first `c`. */
  lemma {:induction false} CutSound(s: string, c: char)
    requires Cut(s, c).Some?
    ensures Cut(s, c).value.0 + [c] + Cut(s, c).value.1 == s
    ensures c !in Cut(s, c).value.0
  {
    if s[0] != c {
      CutSound(s[1..], c);
      assert [s[0]] + s[1..] == s;
    }
  }

  /** Cutting at the first `c` finds the part before it again. */
  lemma {:induction false} CutAt(a: string, b: string, c: char)
    requires c !in a
    ensures Cut(a + [c] + b, c) == Some((a, b))
  {
    var s := a + [c] + b;
    if |a| == 0 {
      assert s[1..] == b;
    } else {
      CutAt(a[1..], b, c);
      assert s[1..] == a[1..] + [c] + b;
      assert [a[0]] + a[1..] == a;
    }
  }

  /**
   * Reads `type(scope): summary` + blank line + description: the type ends
   * at the first `(`, the scope at the first `)`, the summary at the first
   * line break.
   */
  function Parse(msg: string): Option<ConventionalCommit> {
    match Cut(msg, '(')
    case None => None
    case Some(p1) =>
      match Cut(p1.1, ')')
      case None => None
      case Some(p2) =>
        if |p2.1| < 2 || p2.1[..2] != ": " then None
        else match Cut(p2.1[2..], '\n')
          case None => None
          case Some(p3) =>
            if |p3.1| == 0 || p3.1[0] != '\n' then None
            else Some(ConventionalCommit(p1.0, p2.0, p3.0, p3.1[1..]))
  }

  /** The fields a parser can tell apart: no `(` in the type, no `)` in the scope, one-line summary. */
  predicate Unambiguous(c: ConventionalCommit) {
    '(' !in c.commitType && ')' !in c.scope && '\n' !in c.summary
  }

  /** Round trip: a formatted message parses back to its fields. */
  lemma FormatParse(c: ConventionalCommit)
    requires Unambiguous(c)
    ensures Parse(Format(c)) == Some(c)
  {
    var afterSummary := "\n" + c.description;
    var afterScope := ": " + (c.summary + ['\n'] + afterSummary);
    var afterType := c.scope + [')'] + afterScope;
    FormatNested(c);
    CutAt(c.commitType, afterType, '(');
    CutAt(c.scope, afterScope, ')');
    assert afterScope[..2] == ": " && afterScope[2..] == c.summary + ['\n'] + afterSummary;
    CutAt(c.summary, afterSummary, '\n');
  }

  /** `Format` nested around its four separators, as the parser peels them. */
  lemma FormatNested(c: ConventionalCommit)
    ensures Format(c) == c.commitType + ['('] +
      (c.scope + [')'] + (": " + (c.summary + ['\n'] + ("\n" + c.description))))
  {
  }

  /** Other direction: a message that parses is exactly the format of its fields. */
  lemma ParseFormat(msg: string)
    requires Parse(msg).Some?
    ensures Unambiguous(Parse(msg).value)
    ensures Format(Parse(msg).value) == msg
  {
    var p1 := Cut(msg, '(').value;
    var p2 := Cut(p1.1, ')').value;
    var r3 := p2.1[2..];
    var p3 := Cut(r3, '\n').value;
    var d := p3.1[1..];
    var c := ConventionalCommit(p1.0, p2.0, p3.0, d);
    assert Parse(msg) == Some(c);
    CutSound(msg, '(');
    CutSound(p1.1, ')');
    CutSound(r3, '\n');
    assert p2.1 == ": " + r3;
    assert p3.1 == "\n" + d;
    FormatNested(c);
    calc {
      msg;
      p1.0 + ['('] + p1.1;
      p1.0 + ['('] + (p2.0 + [')'] + (": " + r3));
      p1.0 + ['('] + (p2.0 + [')'] + (": " + (p3.0 + ['\n'] + ("\n" + d))));
      Format(c);
    }
  }

  /** A worked example: `feat`, `api`, `add endpoint`, `details`. */
  lemma Example()
    ensures Format(ConventionalCommit("feat", "api", "add endpoint", "details"))
         == "feat(api): add endpoint\n\ndetails"
  {
  }
}
