/**
  How /bin/sh splits the worker launch line into the argument vector it
  hands to the program, for the part of the shell language that line uses:
  blanks separate words, a single-quoted segment is taken literally, and a
  run of plain characters is a literal part of a word. Any other character
  (double quotes, backslashes, `$`, globbing and control characters) is
  outside this model and makes the split undefined (None).
*/
module ShellWords {
  import opened Wrappers

  /** Characters the shell passes through unchanged outside quotes. */
  predicate Plain(c: char)
  {
    || ('a' <= c <= 'z') || ('A' <= c <= 'Z') || ('0' <= c <= '9')
    || c == '-' || c == '_' || c == '.' || c == '/' || c == ':' || c == ','
    || c == '@' || c == '+' || c == '%' || c == '='
  }

  /** A word the shell reads back unchanged when written without quotes. */
  predicate BareWord(s: string)
  {
    |s| >= 1 && forall i :: 0 <= i < |s| ==> Plain(s[i])
  }

  /** Text that can stand between two single quotes. */
  predicate Quotable(s: string)
  {
    forall i :: 0 <= i < |s| ==> s[i] != '\''
  }

  /** The words finished so far, and the word being built (None between words). */
  datatype State = State(words: seq<string>, word: Option<string>)

  const Start := State([], None)

  /** The word being built, or the empty string when none has started. */
  function Current(st: State): string
  {
    if st.word.Some? then st.word.value else ""
  }

  /** The finished words once the word being built, if any, is closed. */
  function Close(st: State): (r: seq<string>)
    ensures |r| == |st.words| + (if st.word.Some? then 1 else 0)
  {
    if st.word.Some? then st.words + [st.word.value] else st.words
  }

  /** The position of the first single quote in s at or after k, or |s| when there is none. */
  function QuoteEnd(s: string, k: nat): (j: nat)
    requires k <= |s|
    ensures k <= j <= |s|
    ensures j < |s| ==> s[j] == '\''
    ensures forall m :: k <= m < j ==> s[m] != '\''
    decreases |s| - k
  {
    if k == |s| || s[k] == '\'' then k else QuoteEnd(s, k + 1)
  }

  /**
    The state after the shell has read all of s starting from st; None on a
    character outside the model or an unterminated quote.
  */
  function Scan(s: string, st: State): Option<State>
    decreases |s|
  {
    if |s| == 0 then Some(st)
    else if s[0] == ' ' then Scan(s[1..], State(Close(st), None))
    else if s[0] == '\'' then
      var j := QuoteEnd(s, 1);
      if j == |s| then None
      else Scan(s[j + 1..], State(st.words, Some(Current(st) + s[1..j])))
    else if Plain(s[0]) then Scan(s[1..], State(st.words, Some(Current(st) + [s[0]])))
    else None
  }

  /** The argument vector the shell builds from a command line. */
  function Words(s: string): Option<seq<string>>
  {
    match Scan(s, Start)
    case None => None
    case Some(st) => Some(Close(st))
  }

  /** A line read in two parts: the second part starts from where the first left off. */
  lemma {:induction false} ScanConcat(p: string, s: string, st: State)
    requires Scan(p, st).Some?
    ensures Scan(p + s, st) == Scan(s, Scan(p, st).value)
    decreases |p|
  {
    if |p| > 0 {
      var ps := p + s;
      assert ps[0] == p[0];
      if p[0] == ' ' {
        assert ps[1..] == p[1..] + s;
        ScanConcat(p[1..], s, State(Close(st), None));
      } else if p[0] == '\'' {
        var j := QuoteEnd(p, 1);
        QuoteEndExtends(p, s);
        assert ps[1..j] == p[1..j];
        assert ps[j + 1..] == p[j + 1..] + s;
        ScanConcat(p[j + 1..], s, State(st.words, Some(Current(st) + p[1..j])));
      } else {
        assert ps[1..] == p[1..] + s;
        ScanConcat(p[1..], s, State(st.words, Some(Current(st) + [p[0]])));
      }
    } else {
      assert p + s == s;
    }
  }

  /** A quote closed within p is closed at the same place in p + s. */
  lemma QuoteEndExtends(p: string, s: string)
    requires 1 <= |p| && QuoteEnd(p, 1) < |p|
    ensures QuoteEnd(p + s, 1) == QuoteEnd(p, 1)
  {
    var j := QuoteEnd(p, 1);
    var k := QuoteEnd(p + s, 1);
    assert (p + s)[j] == '\'';
  }

  /** A run of k blanks. */
  function Blanks(k: nat): (r: string)
    ensures |r| == k && forall i :: 0 <= i < k ==> r[i] == ' '
  {
    if k == 0 then "" else " " + Blanks(k - 1)
  }

  /** One or more blanks end the word being built and start no new one. */
  lemma {:induction false} ScanBlanks(k: nat, st: State)
    requires k >= 1
    ensures Scan(Blanks(k), st) == Some(State(Close(st), None))
  {
    assert Blanks(k)[1..] == Blanks(k - 1);
    if k > 1 {
      ScanBlanks(k - 1, State(Close(st), None));
    }
  }

  /** A bare word is appended to the word being built. */
  lemma {:induction false} ScanBare(w: string, st: State)
    requires BareWord(w)
    ensures Scan(w, st) == Some(State(st.words, Some(Current(st) + w)))
    decreases |w|
  {
    var st' := State(st.words, Some(Current(st) + [w[0]]));
    assert Scan(w, st) == Scan(w[1..], st');
    if |w| > 1 {
      ScanBare(w[1..], st');
      assert Current(st') + w[1..] == Current(st) + w;
    } else {
      assert Current(st') == Current(st) + w;
    }
  }

  /** A word written in single quotes. */
  function Quote(w: string): string
  {
    "'" + w + "'"
  }

  /** A single-quoted segment is appended to the word being built, character for character. */
  lemma ScanQuoted(w: string, st: State)
    requires Quotable(w)
    ensures Scan(Quote(w), st) == Some(State(st.words, Some(Current(st) + w)))
  {
    var q := Quote(w);
    assert q[|w| + 1] == '\'';
    assert forall m :: 1 <= m < |w| + 1 ==> q[m] == w[m - 1];
    assert QuoteEnd(q, 1) == |w| + 1;
    assert q[1..|w| + 1] == w;
    assert q[|w| + 2..] == "";
  }
}
