/** Python's `str.split(sep)` with an explicit one-character separator. */
module Text {

  /** `sep.join(pieces)`. */
  function Join(pieces: seq<string>, sep: string): string
  {
    if |pieces| == 0 then ""
    else if |pieces| == 1 then pieces[0]
    else pieces[0] + sep + Join(pieces[1..], sep)
  }

  /** `s.split(sep)`: every occurrence of `sep` separates two pieces, so
      empty pieces appear around leading, trailing and doubled separators and
      the empty string splits into one empty piece. */
  function Split(s: string, sep: char): (r: seq<string>)
    ensures |r| >= 1
    ensures |r| == 1 <==> sep !in s
    ensures Join(r, [sep]) == s
    ensures forall i :: 0 <= i < |r| ==> sep !in r[i]
    decreases |s|
  {
    if |s| == 0 then [""]
    else
      var rest := Split(s[1..], sep);
      if s[0] == sep then [""] + rest
      else [[s[0]] + rest[0]] + rest[1..]
  }

  lemma SplitNoSeparator(s: string, sep: char)
    requires sep !in s
    ensures Split(s, sep) == [s]
  {
  }

  /** The first separator ends the first piece. */
  lemma {:induction false} SplitAtSeparator(a: string, sep: char, b: string)
    requires sep !in a
    ensures Split(a + [sep] + b, sep) == [a] + Split(b, sep)
  {
    if |a| == 0 {
      assert (a + [sep] + b)[1..] == b;
    } else {
      assert (a + [sep] + b)[1..] == a[1..] + [sep] + b;
      SplitAtSeparator(a[1..], sep, b);
      assert [a[0]] + a[1..] == a;
    }
  }

  /** `Split` is the only way to cut `s` into separator-free pieces that join
      back to `s`: the reference characterisation of `str.split`. */
  lemma {:induction false} SplitUnique(s: string, sep: char, pieces: seq<string>)
    requires |pieces| >= 1
    requires forall i :: 0 <= i < |pieces| ==> sep !in pieces[i]
    requires Join(pieces, [sep]) == s
    ensures pieces == Split(s, sep)
    decreases |pieces|
  {
    if |pieces| == 1 {
      SplitNoSeparator(s, sep);
    } else {
      var tail := pieces[1..];
      assert s == pieces[0] + [sep] + Join(tail, [sep]);
      SplitUnique(Join(tail, [sep]), sep, tail);
      SplitAtSeparator(pieces[0], sep, Join(tail, [sep]));
      assert pieces == [pieces[0]] + tail;
    }
  }

  /** The first piece is `w` exactly when `s` is `w` or starts with `w` and a separator. */
  lemma FirstPiece(s: string, sep: char, w: string)
    requires sep !in w
    ensures Split(s, sep)[0] == w <==> s == w || w + [sep] <= s
  {
    var r := Split(s, sep);
    if s == w {
      SplitNoSeparator(w, sep);
    } else if w + [sep] <= s {
      var b := s[|w| + 1..];
      assert s == w + [sep] + b;
      SplitAtSeparator(w, sep, b);
    }
    if r[0] == w && |r| > 1 {
      assert s == r[0] + [sep] + Join(r[1..], [sep]);
      assert w + [sep] <= s;
    }
  }

  /** After a first piece `w`, the second piece runs up to the next separator
      or the end of the string; whatever follows is not looked at. */
  lemma {:induction false} SecondPiece(w: string, sep: char, t: string, rest: string)
    requires sep !in w && sep !in t
    requires rest == [] || rest[0] == sep
    ensures |Split(w + [sep] + t + rest, sep)| >= 2
    ensures Split(w + [sep] + t + rest, sep)[1] == t
  {
    var h := w + [sep] + t + rest;
    assert h == w + [sep] + (t + rest);
    SplitAtSeparator(w, sep, t + rest);
    var tail := Split(t + rest, sep);
    assert Split(h, sep) == [w] + tail;
    if rest == [] {
      assert t + rest == t;
      SplitNoSeparator(t, sep);
      assert tail[0] == t;
    } else {
      assert t + rest == t + [sep] + rest[1..];
      SplitAtSeparator(t, sep, rest[1..]);
      assert tail[0] == t;
    }
  }
}
