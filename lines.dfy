/** Splitting command output into lines, as Go's `strings.Split(s, "\n")` does,
    and the two ways of putting lines back together. */
module Lines {

  /** The pieces of `s` between newline characters. Like `strings.Split`, an
      empty input gives one empty piece and a trailing newline gives a final
      empty piece. */
  function SplitLines(s: string): (pieces: seq<string>)
    ensures |pieces| >= 1
    ensures forall k :: 0 <= k < |pieces| ==> '\n' !in pieces[k]
    decreases |s|
  {
    if s == [] then [""]
    else if s[0] == '\n' then [""] + SplitLines(s[1..])
    else
      var rest := SplitLines(s[1..]);
      [[s[0]] + rest[0]] + rest[1..]
  }

  /** The pieces joined with a newline between neighbours (`strings.Join`). */
  function JoinLines(pieces: seq<string>): string
    decreases |pieces|
  {
    if |pieces| == 0 then ""
    else if |pieces| == 1 then pieces[0]
    else pieces[0] + "\n" + JoinLines(pieces[1..])
  }

  /** Every line followed by its own newline, as a `strings.Builder` fills up
      when each write ends in "\n". */
  function Terminated(lines: seq<string>): string
    decreases |lines|
  {
    if lines == [] then ""
    else Terminated(lines[..|lines| - 1]) + lines[|lines| - 1] + "\n"
  }

  /** Joining the pieces of a split gives back the original text. */
  lemma {:induction false} JoinSplit(s: string)
    ensures JoinLines(SplitLines(s)) == s
    decreases |s|
  {
    if s == [] {
    } else if s[0] == '\n' {
      var rest := SplitLines(s[1..]);
      JoinSplit(s[1..]);
      assert ([""] + rest)[1..] == rest;
      assert s == "\n" + s[1..];
    } else {
      var rest := SplitLines(s[1..]);
      JoinSplit(s[1..]);
      var pieces := [[s[0]] + rest[0]] + rest[1..];
      assert pieces[1..] == rest[1..];
      if |rest| == 1 {
        assert JoinLines(pieces) == [s[0]] + rest[0];
      } else {
        assert JoinLines(rest) == rest[0] + "\n" + JoinLines(rest[1..]);
        assert JoinLines(pieces) == [s[0]] + rest[0] + "\n" + JoinLines(rest[1..]);
      }
      assert s == [s[0]] + s[1..];
    }
  }

  /** A newline cuts the text in two: the pieces of each side, one after the other. */
  lemma {:induction false} SplitAroundNewline(a: string, b: string)
    ensures SplitLines(a + "\n" + b) == SplitLines(a) + SplitLines(b)
    decreases |a|
  {
    var s := a + "\n" + b;
    if a == [] {
      assert s[0] == '\n' && s[1..] == b;
      assert SplitLines(s) == [""] + SplitLines(b);
    } else {
      assert s[0] == a[0];
      assert s[1..] == a[1..] + "\n" + b;
      SplitAroundNewline(a[1..], b);
      var left := SplitLines(a[1..]);
      var rest := SplitLines(s[1..]);
      assert rest == left + SplitLines(b);
      if a[0] == '\n' {
        assert SplitLines(s) == [""] + rest;
        assert SplitLines(a) == [""] + left;
      } else {
        assert rest[0] == left[0];
        assert rest[1..] == left[1..] + SplitLines(b);
        assert SplitLines(s) == [[a[0]] + rest[0]] + rest[1..];
        assert SplitLines(a) == [[a[0]] + left[0]] + left[1..];
      }
    }
  }

  /** Text without a newline is a single piece. */
  lemma {:induction false} SplitWithoutNewline(s: string)
    requires '\n' !in s
    ensures SplitLines(s) == [s]
    decreases |s|
  {
    if s != [] {
      assert s[0] in s;
      assert forall c :: c in s[1..] ==> c in s;
      SplitWithoutNewline(s[1..]);
      assert s == [s[0]] + s[1..];
    }
  }

  /** Splitting joined pieces gives the pieces back, when none holds a newline. */
  lemma {:induction false} SplitJoin(pieces: seq<string>)
    requires |pieces| >= 1
    requires forall k :: 0 <= k < |pieces| ==> '\n' !in pieces[k]
    ensures SplitLines(JoinLines(pieces)) == pieces
    decreases |pieces|
  {
    SplitWithoutNewline(pieces[0]);
    if |pieces| > 1 {
      SplitJoin(pieces[1..]);
      SplitAroundNewline(pieces[0], JoinLines(pieces[1..]));
      assert pieces == [pieces[0]] + pieces[1..];
    }
  }

  /** Splitting newline-terminated lines followed by a last unterminated piece
      gives back the lines and then that piece. */
  lemma {:induction false} SplitTerminated(lines: seq<string>, tail: string)
    requires forall k :: 0 <= k < |lines| ==> '\n' !in lines[k]
    requires '\n' !in tail
    ensures SplitLines(Terminated(lines) + tail) == lines + [tail]
    decreases |lines|
  {
    if lines == [] {
      SplitWithoutNewline(tail);
      assert Terminated(lines) + tail == tail;
    } else {
      var init, last := lines[..|lines| - 1], lines[|lines| - 1];
      SplitTerminated(init, last);
      assert Terminated(lines) + tail == (Terminated(init) + last) + "\n" + tail;
      SplitAroundNewline(Terminated(init) + last, tail);
      SplitWithoutNewline(tail);
      assert lines == init + [last];
    }
  }
}
