/**
 * The post-processing of statement extraction: the model answers with one
 * statement per line, and the answer is cut at each newline and every
 * piece stripped of surrounding whitespace. Blank lines are kept as empty
 * statements. The model itself is not part of this module: its answer is
 * the input.
 */
module StatementChain {
  import opened PyStr

  const Newline := '\n'

  /** `[st.strip() for st in res.split('\n')]`. */
  function Statements(answer: string): (r: seq<string>)
    ensures |r| == Count(answer, Newline) + 1
    ensures forall i :: 0 <= i < |r| ==> r[i] == Strip(SplitOn(answer, Newline)[i])
    ensures forall i :: 0 <= i < |r| ==> Newline !in r[i]
  {
    var lines := SplitOn(answer, Newline);
    var r := seq(|lines|, i requires 0 <= i < |lines| => Strip(lines[i]));
    assert forall i :: 0 <= i < |r| ==> Newline !in r[i] by {
      forall i | 0 <= i < |r| ensures Newline !in r[i] {
        StripKeeps(lines[i], Newline);
      }
    }
    r
  }

  /** The lines the statements come from are the answer's lines, in order: joined back they give the answer. */
  lemma LinesInOrder(answer: string)
    ensures Join(SplitOn(answer, Newline), Newline) == answer
    ensures |Statements(answer)| == |SplitOn(answer, Newline)|
  {
    JoinSplitOn(answer, Newline);
  }

  /** A blank or whitespace-only line yields an empty statement, which is kept. */
  lemma BlankLineKept(answer: string, i: nat)
    requires i < |SplitOn(answer, Newline)|
    requires forall j :: 0 <= j < |SplitOn(answer, Newline)[i]| ==> IsSpace(SplitOn(answer, Newline)[i][j])
    ensures i < |Statements(answer)| && Statements(answer)[i] == []
  {
    StripBlank(SplitOn(answer, Newline)[i]);
  }

  /** An answer without a newline is one statement: the whole answer, stripped. */
  lemma SingleLine(answer: string)
    requires Newline !in answer
    ensures Statements(answer) == [Strip(answer)]
  {
    SplitOnWithout(answer, Newline);
  }

  /** Every statement is already stripped. */
  lemma StatementsStripped(answer: string, i: nat)
    requires i < |Statements(answer)|
    ensures Strip(Statements(answer)[i]) == Statements(answer)[i]
  {
    StripIdempotent(SplitOn(answer, Newline)[i]);
  }

  /** Stripped statements written one per line are read back exactly. */
  lemma {:induction false} RoundTrip(statements: seq<string>)
    requires |statements| >= 1
    requires forall i :: 0 <= i < |statements| ==> Newline !in statements[i] && Strip(statements[i]) == statements[i]
    ensures Statements(Join(statements, Newline)) == statements
  {
    SplitOnJoin(statements, Newline);
  }
}
