/**
  The `Text` line buffer every emitter appends to: an array of lines and an
  indentation level. Appending a string splits it on newlines and indents
  each non-empty piece by two spaces per level.
*/
module LineBuffer {
  import opened Strings

  /** `_indentLine`: two spaces per level in front of a non-empty line; an empty line stays empty. */
  function IndentLine(indent: nat, line: string): string
  {
    if |line| > 0 then Repeat("  ", indent) + line else line
  }

  function IndentAll(indent: nat, lines: seq<string>): (r: seq<string>)
    ensures |r| == |lines|
    ensures forall i :: 0 <= i < |lines| ==> r[i] == IndentLine(indent, lines[i])
  {
    seq(|lines|, i requires 0 <= i < |lines| => IndentLine(indent, lines[i]))
  }

  /** The lines one `append(s)` adds at the given level. */
  function Block(indent: nat, s: string): seq<string>
  {
    IndentAll(indent, Split(s, '\n'))
  }

  /** The lines a sequence of `append` calls adds at one level. */
  function Render(indent: nat, chunks: seq<string>): seq<string>
  {
    if chunks == [] then [] else Block(indent, chunks[0]) + Render(indent, chunks[1..])
  }

  lemma {:induction false} RenderConcat(indent: nat, a: seq<string>, b: seq<string>)
    ensures Render(indent, a + b) == Render(indent, a) + Render(indent, b)
  {
    if a != [] {
      assert (a + b)[1..] == a[1..] + b;
      RenderConcat(indent, a[1..], b);
    } else {
      assert a + b == b;
    }
  }

  /** Removing `indent` levels of indentation from a line. */
  function Dedent(indent: nat, line: string): string
  {
    if |line| >= 2 * indent then line[2 * indent..] else line
  }

  function DedentAll(indent: nat, lines: seq<string>): (r: seq<string>)
    ensures |r| == |lines|
    ensures forall i :: 0 <= i < |lines| ==> r[i] == Dedent(indent, lines[i])
  {
    seq(|lines|, i requires 0 <= i < |lines| => Dedent(indent, lines[i]))
  }

  /**
    `append` loses nothing: every line it adds is empty or starts with two
    spaces per level, and removing that indentation and joining the lines
    with newlines gives back the appended string.
  */
  lemma BlockRoundTrip(indent: nat, s: string)
    ensures forall i :: 0 <= i < |Block(indent, s)| ==>
      Block(indent, s)[i] == [] || Repeat("  ", indent) <= Block(indent, s)[i]
    ensures Join(DedentAll(indent, Block(indent, s)), "\n") == s
  {
    var pieces := Split(s, '\n');
    var b := Block(indent, s);
    forall i | 0 <= i < |b|
      ensures b[i] == [] || Repeat("  ", indent) <= b[i]
      ensures DedentAll(indent, b)[i] == pieces[i]
    {
      IndentLineRoundTrip(indent, pieces[i]);
    }
    assert DedentAll(indent, b) == pieces;
    JoinSplit(s, '\n');
  }

  lemma IndentLineRoundTrip(indent: nat, line: string)
    ensures IndentLine(indent, line) == [] || Repeat("  ", indent) <= IndentLine(indent, line)
    ensures Dedent(indent, IndentLine(indent, line)) == line
  {
    if |line| > 0 {
      var pad := Repeat("  ", indent);
      assert (pad + line)[..|pad|] == pad;
      assert (pad + line)[2 * indent..] == line;
    }
  }

  lemma {:induction false} JoinConcat(a: seq<string>, b: seq<string>, sep: string)
    requires |a| >= 1 && |b| >= 1
    ensures Join(a + b, sep) == Join(a, sep) + sep + Join(b, sep)
  {
    if |a| == 1 {
      assert (a + b)[1..] == b;
    } else {
      assert (a + b)[1..] == a[1..] + b;
      JoinConcat(a[1..], b, sep);
    }
  }

  lemma {:induction false} BlockAtZero(s: string)
    ensures Block(0, s) == Split(s, '\n')
  {
    var pieces := Split(s, '\n');
    forall i | 0 <= i < |pieces| ensures Block(0, s)[i] == pieces[i] {
      assert Repeat("  ", 0) == [];
    }
  }

  /**
    At level 0 the buffer's text is exactly the appended strings joined by
    newlines.
  */
  lemma {:induction false} RenderAtZero(chunks: seq<string>)
    requires |chunks| >= 1
    ensures |Render(0, chunks)| >= 1
    ensures Join(Render(0, chunks), "\n") == Join(chunks, "\n")
  {
    var b := Block(0, chunks[0]);
    BlockAtZero(chunks[0]);
    JoinSplit(chunks[0], '\n');
    assert Join(b, "\n") == chunks[0];
    assert Render(0, chunks) == b + Render(0, chunks[1..]);
    if |chunks| > 1 {
      var rest := Render(0, chunks[1..]);
      RenderAtZero(chunks[1..]);
      JoinConcat(b, rest, "\n");
      assert Join(chunks, "\n") == chunks[0] + "\n" + Join(chunks[1..], "\n");
    } else {
      assert Render(0, chunks[1..]) == [];
      assert Render(0, chunks) == b;
    }
  }

  /** The `Text` class: the lines written so far and the current indentation level. */
  class Text {
    var lines: seq<string>
    var indent: nat

    constructor ()
      ensures lines == [] && indent == 0
    {
      lines := [];
      indent := 0;
    }

    /** `append(s)` for a string argument. */
    method Append(s: string)
      modifies this
      ensures indent == old(indent)
      ensures lines == old(lines) + Block(indent, s)
    {
      var pieces := Split(s, '\n');
      for i := 0 to |pieces|
        invariant indent == old(indent)
        invariant lines == old(lines) + IndentAll(indent, pieces[..i])
      {
        assert IndentAll(indent, pieces[..i + 1]) == IndentAll(indent, pieces[..i]) + [IndentLine(indent, pieces[i])];
        lines := lines + [IndentLine(indent, pieces[i])];
      }
      assert pieces[..|pieces|] == pieces;
    }

    /** `toString()`: the lines joined by newlines. */
    function ToString(): string
      reads this
    {
      Join(lines, "\n")
    }
  }
}
