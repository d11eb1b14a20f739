/** Python's `sep.join(parts)` and `s.endswith(suffix)`. */
module Text {
  predicate EndsWith(s: string, suffix: string) { |s| >= |suffix| && s[|s| - |suffix|..] == suffix }

  function Join(sep: string, ts: seq<string>): string {
    if ts == [] then ""
    else if |ts| == 1 then ts[0]
    else Join(sep, ts[..|ts| - 1]) + sep + ts[|ts| - 1]
  }

  /** Every joined part is a stretch of the result. */
  lemma {:induction false} JoinContains(sep: string, ts: seq<string>, i: nat) returns (before: string, after: string)
    requires i < |ts|
    ensures Join(sep, ts) == before + ts[i] + after
  {
    var n := |ts| - 1;
    if n == 0 {
      before, after := "", "";
      assert Join(sep, ts) == before + ts[i] + after;
    } else if i == n {
      before, after := Join(sep, ts[..n]) + sep, "";
      assert Join(sep, ts) == before + ts[i] + after;
    } else {
      before, after := JoinContains(sep, ts[..n], i);
      assert before + ts[i] + after + sep + ts[n] == before + ts[i] + (after + sep + ts[n]);
      after := after + sep + ts[n];
    }
  }

  /** A text that does not contain the separator can be read back from in front of it. */
  lemma FirstPartUnique(sep: char, a: string, b: string, x: string, y: string)
    requires sep !in a && sep !in b && a + [sep] + x == b + [sep] + y
    ensures a == b && x == y
  {
    var s := a + [sep] + x;
    assert s[|a|] == sep && s[|b|] == sep;
    assert forall k :: 0 <= k < |a| ==> a[k] == s[k];
    assert forall k :: 0 <= k < |b| ==> b[k] == s[k];
    assert |a| == |b|;
    assert a == s[..|a|] && b == s[..|b|];
    assert x == s[|a| + 1..] && y == s[|b| + 1..];
  }

  /** What joining is: nothing for nothing, a single part as it is, and a separator between two lists. */
  lemma {:induction false} JoinLaws(sep: string, xs: seq<string>, ys: seq<string>, x: string)
    ensures Join(sep, []) == "" && Join(sep, [x]) == x
    ensures xs != [] && ys != [] ==> Join(sep, xs + ys) == Join(sep, xs) + sep + Join(sep, ys)
  {
    if xs != [] && ys != [] {
      var n := |ys| - 1;
      assert (xs + ys)[..|xs + ys| - 1] == xs + ys[..n];
      if n == 0 {
        assert xs + ys[..n] == xs;
      } else {
        JoinLaws(sep, xs, ys[..n], x);
        assert Join(sep, xs) + sep + Join(sep, ys[..n]) + sep + ys[n]
            == Join(sep, xs) + sep + (Join(sep, ys[..n]) + sep + ys[n]);
      }
    }
  }

  /** The lines of a text, `s.split("\n")`. */
  function Lines(s: string): (ls: seq<string>)
    ensures ls != []
  {
    if s == "" then [""]
    else
      var before, c := Lines(s[..|s| - 1]), s[|s| - 1];
      if c == '\n' then before + [""] else before[..|before| - 1] + [before[|before| - 1] + [c]]
  }

  lemma {:induction false} LinesAfterBreak(s: string, line: string)
    requires '\n' !in line
    ensures Lines(s + "\n" + line) == Lines(s) + [line]
  {
    var whole := s + "\n" + line;
    if line == "" {
      assert whole[..|whole| - 1] == s;
    } else {
      var n := |line| - 1;
      assert whole[..|whole| - 1] == s + "\n" + line[..n];
      assert line[..n] + [line[n]] == line && line[n] in line;
      LinesAfterBreak(s, line[..n]);
    }
  }

  lemma {:induction false} OneLine(line: string)
    requires '\n' !in line
    ensures Lines(line) == [line]
  {
    if line != "" {
      var n := |line| - 1;
      assert line[..n] + [line[n]] == line && line[n] in line;
      OneLine(line[..n]);
    }
  }

  /** Joining newline-free lines with newlines and reading the lines back are inverse. */
  lemma {:induction false} LinesOfJoin(ls: seq<string>)
    requires ls != [] && forall i :: 0 <= i < |ls| ==> '\n' !in ls[i]
    ensures Lines(Join("\n", ls)) == ls
  {
    hide Lines;
    var n := |ls| - 1;
    if n == 0 {
      assert Join("\n", ls) == ls[0];
      hide Join;
      OneLine(ls[0]);
    } else {
      assert Join("\n", ls) == Join("\n", ls[..n]) + "\n" + ls[n];
      hide Join;
      LinesOfJoin(ls[..n]);
      LinesAfterBreak(Join("\n", ls[..n]), ls[n]);
    }
  }

  /** And `Lines` loses nothing of any text. */
  lemma {:induction false} JoinOfLines(s: string)
    ensures Join("\n", Lines(s)) == s
  {
    if s != "" {
      var before, c := Lines(s[..|s| - 1]), s[|s| - 1];
      JoinOfLines(s[..|s| - 1]);
      var n := |before| - 1;
      assert s == s[..|s| - 1] + [c];
      if c == '\n' {
        assert (before + [""])[..|before|] == before;
      } else {
        var last := before[n] + [c];
        assert (before[..n] + [last])[..n] == before[..n];
        if n > 0 {
          assert Join("\n", before[..n]) + "\n" + before[n] + [c] == Join("\n", before[..n]) + "\n" + last;
        }
      }
    }
  }
}
