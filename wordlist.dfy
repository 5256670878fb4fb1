/** The line filter of `load_list_from_file`: every line of the file,
    stripped, with the lines that strip to nothing dropped. The file is given
    as the sequence of lines Python's file iterator yields; opening and
    reading it is not modelled. */
module Wordlist {
  import opened Text

  /** `[line.strip() for line in f if line.strip()]` */
  function LoadList(lines: seq<string>): (words: seq<string>)
    ensures |words| <= |lines|
    ensures forall w :: w in words ==> w != [] && IsStripped(w)
  {
    if |lines| == 0 then []
    else
      var w := Strip(lines[|lines| - 1]);
      LoadList(lines[..|lines| - 1]) + (if w == [] then [] else [w])
  }

  /** The filter works line by line: the words of a file are the words of its
      first part followed by the words of the rest, so file order is kept. */
  lemma {:induction false} LoadListAppend(a: seq<string>, b: seq<string>)
    ensures LoadList(a + b) == LoadList(a) + LoadList(b)
  {
    if |b| == 0 {
      assert a + b == a;
    } else {
      assert (a + b)[..|a + b| - 1] == a + b[..|b| - 1];
      LoadListAppend(a, b[..|b| - 1]);
    }
  }

  /** A single line contributes its stripped form, or nothing when it is blank. */
  lemma LoadListLine(line: string)
    ensures LoadList([line]) == if AllSpace(line) then [] else [Strip(line)]
  {
    StripEmptyIff(line);
    assert [line][..0] == [];
  }

  /** Some line before index `n` strips to `w`. */
  predicate StripsTo(lines: seq<string>, n: int, w: string)
    requires 0 <= n <= |lines|
  {
    exists i :: 0 <= i < n && Strip(lines[i]) == w
  }

  lemma {:induction false} LoadListPrefixMember(lines: seq<string>, n: int, w: string)
    requires 0 <= n <= |lines|
    ensures w in LoadList(lines[..n]) <==> w != [] && StripsTo(lines, n, w)
  {
    if n > 0 {
      assert lines[..n][..n - 1] == lines[..n - 1];
      LoadListPrefixMember(lines, n - 1, w);
      assert lines[..n][n - 1] == lines[n - 1];
      if StripsTo(lines, n, w) && Strip(lines[n - 1]) != w {
        var i :| 0 <= i < n && Strip(lines[i]) == w;
        assert StripsTo(lines, n - 1, w);
      }
    }
  }

  /** A word is kept exactly when some line strips to it and it is not empty. */
  lemma LoadListMember(lines: seq<string>, w: string)
    ensures w in LoadList(lines) <==>
            w != [] && exists i :: 0 <= i < |lines| && Strip(lines[i]) == w
  {
    LoadListPrefixMember(lines, |lines|, w);
    assert lines[..|lines|] == lines;
  }
}
