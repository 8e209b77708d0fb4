/** A reader that goes line by line and stops at the first line it refuses. */
module Folding {
  import opened Wrappers

  function Run<S, L>(step: (S, L) -> Outcome<S>, start: S, lines: seq<L>): Outcome<S> {
    if lines == [] then Ok(start)
    else
      var before := Run(step, start, lines[..|lines| - 1]);
      if before.Raised? then Raised else step(before.value, lines[|lines| - 1])
  }

  lemma RunOneMore<S, L>(step: (S, L) -> Outcome<S>, start: S, lines: seq<L>, line: L)
    ensures Run(step, start, lines + [line]) ==
      if Run(step, start, lines).Raised? then Raised else step(Run(step, start, lines).value, line)
  {
    assert (lines + [line])[..|lines|] == lines;
  }

  /** Once a line is refused, the file is. */
  lemma {:induction false} StaysRaised<S, L>(step: (S, L) -> Outcome<S>, start: S, lines: seq<L>, more: seq<L>)
    requires Run(step, start, lines).Raised?
    ensures Run(step, start, lines + more).Raised?
  {
    if more == [] {
      assert lines + more == lines;
    } else {
      var init, last := more[..|more| - 1], more[|more| - 1];
      StaysRaised(step, start, lines, init);
      assert lines + more == lines + init + [last];
      RunOneMore(step, start, lines + init, last);
    }
  }

  /** A line that never changes anything can be left out anywhere. */
  lemma {:induction false} WithoutNeutral<S(!new), L>(
      step: (S, L) -> Outcome<S>, start: S, a: seq<L>, neutral: L, b: seq<L>)
    requires forall s :: step(s, neutral) == Ok(s)
    ensures Run(step, start, a + [neutral] + b) == Run(step, start, a + b)
  {
    if b == [] {
      RunOneMore(step, start, a, neutral);
      assert a + [neutral] + b == a + [neutral] && a + b == a;
    } else {
      var init, last := b[..|b| - 1], b[|b| - 1];
      WithoutNeutral(step, start, a, neutral, init);
      RunOneMore(step, start, a + [neutral] + init, last);
      RunOneMore(step, start, a + init, last);
      assert a + [neutral] + b == a + [neutral] + init + [last] && a + b == a + init + [last];
    }
  }

  /** One turn of the reader's loop. */
  lemma NextLine<S, L>(step: (S, L) -> Outcome<S>, start: S, lines: seq<L>, i: nat)
    requires i < |lines| && Run(step, start, lines[..i]).Ok?
    ensures Run(step, start, lines[..i + 1]) == step(Run(step, start, lines[..i]).value, lines[i])
    ensures Run(step, start, lines[..i + 1]).Raised? ==> Run(step, start, lines).Raised?
  {
    RunOneMore(step, start, lines[..i], lines[i]);
    assert lines[..i + 1] == lines[..i] + [lines[i]];
    if Run(step, start, lines[..i + 1]).Raised? {
      StaysRaised(step, start, lines[..i + 1], lines[i + 1..]);
      assert lines == lines[..i + 1] + lines[i + 1..];
    }
  }
}
