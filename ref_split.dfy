/** The `character.expression` reference encoding and Python's
    `str.split('.')`, which the registry check uses to take it apart. The
    separator is not escaped, so the encoding is only reversible for names
    that contain no `.`. */
module RefSplit {

  const SEP: char := '.'

  /** `s.split('.')`: the maximal dot-free pieces of `s`, including empty
      ones ("" gives [""], "a." gives ["a", ""]). */
  function Split(s: string): (parts: seq<string>)
    ensures |parts| >= 1
    decreases |s|
  {
    if s == [] then [""]
    else
      var rest := Split(s[1..]);
      if s[0] == SEP then [""] + rest
      else [[s[0]] + rest[0]] + rest[1..]
  }

  /** `'.'.join(parts)`. */
  function Join(parts: seq<string>): string
    requires |parts| >= 1
    decreases |parts|
  {
    if |parts| == 1 then parts[0] else parts[0] + [SEP] + Join(parts[1..])
  }

  /** How many separators `s` contains. */
  function Dots(s: string): nat
    decreases |s|
  {
    if s == [] then 0 else (if s[0] == SEP then 1 else 0) + Dots(s[1..])
  }

  /** Splitting loses nothing: joining the pieces gives back `s`, no piece
      contains a separator, and there is one more piece than separators. */
  lemma {:induction false} SplitJoin(s: string)
    ensures Join(Split(s)) == s
    ensures forall k :: 0 <= k < |Split(s)| ==> SEP !in Split(s)[k]
    ensures |Split(s)| == Dots(s) + 1
    decreases |s|
  {
    if s != [] {
      SplitJoin(s[1..]);
      var rest := Split(s[1..]);
      if s[0] == SEP {
        assert Split(s) == [""] + rest;
        assert ([""] + rest)[1..] == rest;
        assert s == [SEP] + s[1..];
      } else {
        var parts := Split(s);
        assert parts == [[s[0]] + rest[0]] + rest[1..];
        assert forall k :: 1 <= k < |parts| ==> parts[k] == rest[k];
        if |rest| == 1 {
          assert s == [s[0]] + rest[0];
        } else {
          assert parts[1..] == rest[1..];
          assert Join(rest) == rest[0] + [SEP] + Join(rest[1..]);
          assert s == [s[0]] + s[1..];
        }
      }
    }
  }

  /** A dot-free string splits into itself alone. */
  lemma SplitDotFree(s: string)
    requires SEP !in s
    ensures Split(s) == [s]
  {
    SplitJoin(s);
    DotsZero(s);
  }

  lemma {:induction false} DotsZero(s: string)
    requires SEP !in s
    ensures Dots(s) == 0
    decreases |s|
  {
    if s != [] {
      assert s[1..] == s[1..] && forall k :: 0 <= k < |s[1..]| ==> s[1..][k] == s[k + 1];
      DotsZero(s[1..]);
    }
  }

  /** A dot-free first piece is split off at the first separator. */
  lemma {:induction false} SplitAfterDotFree(a: string, b: string)
    requires SEP !in a
    ensures Split(a + [SEP] + b) == [a] + Split(b)
    decreases |a|
  {
    if a == [] {
      assert a + [SEP] + b == [SEP] + b;
      assert ([SEP] + b)[1..] == b;
    } else {
      var s := a + [SEP] + b;
      assert s[0] == a[0] && s[1..] == a[1..] + [SEP] + b;
      SplitAfterDotFree(a[1..], b);
      assert [a[0]] + a[1..] == a;
    }
  }

  /** The key `character.expression` of two dot-free names splits back into
      exactly those two names. */
  lemma EncodedRefRoundTrip(character: string, expression: string)
    requires SEP !in character && SEP !in expression
    ensures Split(character + [SEP] + expression) == [character, expression]
  {
    SplitAfterDotFree(character, expression);
    SplitDotFree(expression);
  }

  /** With a `.` inside an expression name the key splits into three
      pieces: the encoding is ambiguous once names may contain the separator. */
  lemma DottedExpressionSplitsInThree()
    ensures Split("ann" + [SEP] + "sad.tears") == ["ann", "sad", "tears"]
  {
    var ann, sad, tears := "ann", "sad", "tears";
    assert SEP !in ann && SEP !in sad && SEP !in tears;
    SplitAfterDotFree(ann, sad + [SEP] + tears);
    assert sad + [SEP] + tears == "sad.tears";
    SplitAfterDotFree(sad, tears);
    SplitDotFree(tears);
  }

  /** A bare character name with a `.` in it splits into two pieces, so it
      reads as a character and an expression. */
  lemma DottedCharacterSplitsInTwo()
    ensures Split("dr.who") == ["dr", "who"]
  {
    var dr, who := "dr", "who";
    assert SEP !in dr && SEP !in who;
    EncodedRefRoundTrip(dr, who);
    assert dr + [SEP] + who == "dr.who";
  }
}
