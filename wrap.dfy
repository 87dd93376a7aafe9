/**
  `splitIntoLines(text, maxlen)`: the greedy word wrap applied to
  descriptions. Each input line (split on newlines) is cut into words on
  single spaces; a word goes on the current output line unless the line's
  length plus the word's length exceeds `maxlen`, in which case the current
  line is emitted first (even when it is empty). A non-empty last line is
  emitted at the end of every input line.
*/
module Wrap {
  import opened Strings

  /** The state of the inner loop: the lines emitted so far and the line being filled. */
  datatype Wrapping = Wrapping(done: seq<string>, current: string)

  /** One iteration of the inner loop: place `word`. */
  function Place(w: Wrapping, word: string, maxlen: nat): Wrapping
  {
    var w1 := if |w.current| + |word| > maxlen then Wrapping(w.done + [w.current], "") else w;
    Wrapping(w1.done, if |w1.current| > 0 then w1.current + " " + word else word)
  }

  function PlaceAll(w: Wrapping, words: seq<string>, maxlen: nat): Wrapping
    decreases |words|
  {
    if words == [] then w else PlaceAll(Place(w, words[0], maxlen), words[1..], maxlen)
  }

  /** After the inner loop: a non-empty current line is emitted. */
  function Flush(w: Wrapping): seq<string>
  {
    if |w.current| > 0 then w.done + [w.current] else w.done
  }

  /** The output lines one input line contributes. */
  function WrapLine(line: string, maxlen: nat): seq<string>
  {
    Flush(PlaceAll(Wrapping([], ""), Split(line, ' '), maxlen))
  }

  function WrapLines(lines: seq<string>, maxlen: nat): seq<string>
  {
    if lines == [] then [] else WrapLine(lines[0], maxlen) + WrapLines(lines[1..], maxlen)
  }

  /** The value of `splitIntoLines(text, maxlen)`. */
  function WrapText(text: string, maxlen: nat): seq<string>
  {
    WrapLines(Split(text, '\n'), maxlen)
  }

  /** The lines already emitted do not influence how the rest is placed. */
  lemma {:induction false} PlaceAllPrefix(acc: seq<string>, d: seq<string>, c: string, words: seq<string>, maxlen: nat)
    ensures PlaceAll(Wrapping(acc + d, c), words, maxlen).done == acc + PlaceAll(Wrapping(d, c), words, maxlen).done
    ensures PlaceAll(Wrapping(acc + d, c), words, maxlen).current == PlaceAll(Wrapping(d, c), words, maxlen).current
    decreases |words|
  {
    if words != [] {
      var p := Place(Wrapping(d, c), words[0], maxlen);
      var q := Place(Wrapping(acc + d, c), words[0], maxlen);
      assert q.done == acc + p.done && q.current == p.current by {
        if |c| + |words[0]| > maxlen {
          assert (acc + d) + [c] == acc + (d + [c]);
        }
      }
      PlaceAllPrefix(acc, p.done, p.current, words[1..], maxlen);
    }
  }

  /**
    One iteration of the outer loop: flushing the inner loop's final state
    appends the wrap of line `i` to the lines emitted before it.
  */
  lemma LineStep(linesIn: seq<string>, i: nat, start: seq<string>, w: Wrapping, maxlen: nat)
    requires i < |linesIn|
    requires w == PlaceAll(Wrapping(start, ""), Split(linesIn[i], ' '), maxlen)
    ensures Flush(w) + WrapLines(linesIn[i + 1..], maxlen) == start + WrapLines(linesIn[i..], maxlen)
  {
    FlushPrefix(start, linesIn[i], maxlen);
    WrapLinesStep(linesIn, i, maxlen);
    ConcatAssoc(start, WrapLine(linesIn[i], maxlen), WrapLines(linesIn[i + 1..], maxlen));
  }

  lemma WrapLinesStep(lines: seq<string>, i: nat, maxlen: nat)
    requires i < |lines|
    ensures WrapLines(lines[i..], maxlen) == WrapLine(lines[i], maxlen) + WrapLines(lines[i + 1..], maxlen)
  {
    assert lines[i..][1..] == lines[i + 1..];
  }

  lemma FlushPrefix(start: seq<string>, line: string, maxlen: nat)
    ensures Flush(PlaceAll(Wrapping(start, ""), Split(line, ' '), maxlen)) == start + WrapLine(line, maxlen)
  {
    PlaceAllPrefix(start, [], "", Split(line, ' '), maxlen);
    assert start + [] == start;
  }

  lemma PlaceAllStep(w: Wrapping, words: seq<string>, j: nat, maxlen: nat)
    requires j < |words|
    ensures PlaceAll(w, words[j..], maxlen) == PlaceAll(Place(w, words[j], maxlen), words[j + 1..], maxlen)
  {
    assert words[j..][1..] == words[j + 1..];
  }

  /** `splitIntoLines` with its two nested loops, as the generator runs it. */
  method SplitIntoLines(text: string, maxlen: nat) returns (linesOut: seq<string>)
    ensures linesOut == WrapText(text, maxlen)
  {
    var linesIn := Split(text, '\n');
    linesOut := [];
    assert linesIn[0..] == linesIn;
    for i := 0 to |linesIn|
      invariant linesOut + WrapLines(linesIn[i..], maxlen) == WrapText(text, maxlen)
    {
      var start := linesOut;
      var lineOut;
      linesOut, lineOut := FillLine(linesOut, Split(linesIn[i], ' '), maxlen);
      LineStep(linesIn, i, start, Wrapping(linesOut, lineOut), maxlen);
      if |lineOut| > 0 {
        linesOut := linesOut + [lineOut];
      }
    }
    assert linesIn[|linesIn|..] == [];
  }

  /** The inner loop of `splitIntoLines`: place the words of one input line. */
  method FillLine(start: seq<string>, words: seq<string>, maxlen: nat) returns (linesOut: seq<string>, lineOut: string)
    ensures Wrapping(linesOut, lineOut) == PlaceAll(Wrapping(start, ""), words, maxlen)
  {
    linesOut, lineOut := start, "";
    assert words[0..] == words;
    for j := 0 to |words|
      invariant PlaceAll(Wrapping(linesOut, lineOut), words[j..], maxlen) == PlaceAll(Wrapping(start, ""), words, maxlen)
    {
      PlaceAllStep(Wrapping(linesOut, lineOut), words, j, maxlen);
      PlaceCases(linesOut, lineOut, words[j], maxlen);
      if |lineOut| + |words[j]| > maxlen {
        linesOut := linesOut + [lineOut];
        lineOut := "";
      }
      if |lineOut| > 0 {
        lineOut := lineOut + " ";
      }
      lineOut := lineOut + words[j];
    }
    assert words[|words|..] == [];
  }

  /** `Place` by cases, in the order the loop body takes them. */
  lemma PlaceCases(done: seq<string>, current: string, word: string, maxlen: nat)
    ensures |current| + |word| > maxlen ==> Place(Wrapping(done, current), word, maxlen) == Wrapping(done + [current], "" + word)
    ensures |current| + |word| <= maxlen && |current| > 0 ==> Place(Wrapping(done, current), word, maxlen) == Wrapping(done, current + " " + word)
    ensures |current| + |word| <= maxlen && |current| == 0 ==> Place(Wrapping(done, current), word, maxlen) == Wrapping(done, current + word)
  {
    assert "" + word == word;
    if |current| == 0 {
      assert current + word == word;
    }
  }

  /** The first word of a line. */
  function FirstWord(line: string): string
  {
    Split(line, ' ')[0]
  }

  /**
    The width promise of the wrap as the code keeps it: no newline, and a
    line holding more than one word is at most one character longer than
    `maxlen` (the separating space is not counted). A single word longer
    than `maxlen` stands alone on its line.
  */
  predicate Fits(line: string, maxlen: nat)
  {
    '\n' !in line && (' ' in line ==> |line| <= maxlen + 1)
  }

  /** What the inner loop keeps true: every line fits, and every line break was forced. */
  ghost predicate Good(w: Wrapping, maxlen: nat)
  {
    (forall i :: 0 <= i < |w.done| ==> Fits(w.done[i], maxlen)) &&
    Fits(w.current, maxlen) &&
    (forall i :: 0 <= i < |w.done| - 1 ==> |w.done[i]| + |FirstWord(w.done[i + 1])| > maxlen) &&
    (|w.done| > 0 ==> |w.done[|w.done| - 1]| + |FirstWord(w.current)| > maxlen)
  }

  lemma PlaceGood(w: Wrapping, word: string, maxlen: nat)
    requires Good(w, maxlen)
    requires ' ' !in word && '\n' !in word
    ensures Good(Place(w, word, maxlen), maxlen)
  {
    SplitWithout(word, ' ');
    if |w.current| + |word| > maxlen {
      BreakGood(w, word, maxlen);
    } else if |w.current| > 0 {
      JoinGood(w, word, maxlen);
    } else {
      assert Split(w.current, ' ') == [[]];
    }
  }

  /** A word that does not fit moves to a fresh line. */
  lemma BreakGood(w: Wrapping, word: string, maxlen: nat)
    requires Good(w, maxlen) && |w.current| + |word| > maxlen
    requires ' ' !in word && '\n' !in word && FirstWord(word) == word
    ensures Good(Place(w, word, maxlen), maxlen)
  {
    var p := Place(w, word, maxlen);
    assert p.done == w.done + [w.current] && p.current == word;
    forall i | 0 <= i < |p.done| - 1
      ensures |p.done[i]| + |FirstWord(p.done[i + 1])| > maxlen
    {
      if i + 1 == |w.done| {
        assert p.done[i + 1] == w.current;
      }
    }
  }

  /** A word that fits is added to the current line after a space. */
  lemma JoinGood(w: Wrapping, word: string, maxlen: nat)
    requires Good(w, maxlen) && |w.current| + |word| <= maxlen && |w.current| > 0
    requires ' ' !in word && '\n' !in word
    ensures Good(Place(w, word, maxlen), maxlen)
  {
    var p := Place(w, word, maxlen);
    assert p.current == w.current + " " + word && p.done == w.done;
    SplitAround(w.current, word, ' ');
    assert w.current + " " + word == w.current + [' '] + word;
    assert FirstWord(p.current) == FirstWord(w.current);
  }

  lemma {:induction false} PlaceAllGood(w: Wrapping, words: seq<string>, maxlen: nat)
    requires Good(w, maxlen)
    requires forall i :: 0 <= i < |words| ==> ' ' !in words[i] && '\n' !in words[i]
    ensures Good(PlaceAll(w, words, maxlen), maxlen)
    decreases |words|
  {
    if words != [] {
      PlaceGood(w, words[0], maxlen);
      PlaceAllGood(Place(w, words[0], maxlen), words[1..], maxlen);
    }
  }

  /** A character that is not in a string is in none of its pieces. */
  lemma {:induction false} SplitKeepsOut(s: string, sep: char, c: char)
    requires c !in s
    ensures forall i :: 0 <= i < |Split(s, sep)| ==> c !in Split(s, sep)[i]
  {
    if s != [] {
      assert c !in s[1..];
      SplitKeepsOut(s[1..], sep, c);
    }
  }

  /**
    The lines one input line wraps into fit, and each line break was forced:
    the next line's first word would have made the line longer than `maxlen`.
  */
  lemma WrapLineShape(line: string, maxlen: nat)
    requires '\n' !in line
    ensures forall i :: 0 <= i < |WrapLine(line, maxlen)| ==> Fits(WrapLine(line, maxlen)[i], maxlen)
    ensures forall i :: 0 <= i < |WrapLine(line, maxlen)| - 1 ==>
      |WrapLine(line, maxlen)[i]| + |FirstWord(WrapLine(line, maxlen)[i + 1])| > maxlen
  {
    SplitKeepsOut(line, ' ', '\n');
    assert Split([], ' ') == [[]];
    PlaceAllGood(Wrapping([], ""), Split(line, ' '), maxlen);
  }

  /** Every line `splitIntoLines` returns fits. */
  lemma WrapTextFits(text: string, maxlen: nat)
    ensures forall i :: 0 <= i < |WrapText(text, maxlen)| ==> Fits(WrapText(text, maxlen)[i], maxlen)
  {
    var lines := Split(text, '\n');
    WrapLinesFit(lines, maxlen);
  }

  lemma {:induction false} WrapLinesFit(lines: seq<string>, maxlen: nat)
    requires forall i :: 0 <= i < |lines| ==> '\n' !in lines[i]
    ensures forall i :: 0 <= i < |WrapLines(lines, maxlen)| ==> Fits(WrapLines(lines, maxlen)[i], maxlen)
  {
    if lines != [] {
      WrapLineShape(lines[0], maxlen);
      WrapLinesFit(lines[1..], maxlen);
    }
  }

  /** A line of spaces only (or an empty line) wraps into no line at all: blank lines vanish. */
  lemma BlankLineVanishes(line: string, maxlen: nat)
    requires forall k :: 0 <= k < |line| ==> line[k] == ' '
    ensures WrapLine(line, maxlen) == []
  {
    var words := Split(line, ' ');
    forall i | 0 <= i < |words| ensures words[i] == [] {
      if words[i] != [] {
        assert words[i][0] in words[i];
        SplitKeepsOut(line, ' ', words[i][0]);
      }
    }
    EmptyWordsPlaceNothing(words, maxlen);
  }

  lemma {:induction false} EmptyWordsPlaceNothing(words: seq<string>, maxlen: nat)
    requires forall i :: 0 <= i < |words| ==> words[i] == []
    ensures PlaceAll(Wrapping([], ""), words, maxlen) == Wrapping([], "")
    decreases |words|
  {
    if words != [] {
      assert Place(Wrapping([], ""), words[0], maxlen) == Wrapping([], "");
      EmptyWordsPlaceNothing(words[1..], maxlen);
    }
  }

  /** The non-empty strings of `ws`, in order. */
  function NonEmpty(ws: seq<string>): (r: seq<string>)
    ensures forall i :: 0 <= i < |r| ==> r[i] != []
  {
    if ws == [] then [] else (if ws[0] == [] then [] else [ws[0]]) + NonEmpty(ws[1..])
  }

  /** The words of some lines: everything between spaces that is not empty. */
  function Words(lines: seq<string>): seq<string>
  {
    if lines == [] then [] else NonEmpty(Split(lines[0], ' ')) + Words(lines[1..])
  }

  lemma {:induction false} NonEmptyConcat(a: seq<string>, b: seq<string>)
    ensures NonEmpty(a + b) == NonEmpty(a) + NonEmpty(b)
  {
    if a == [] {
      assert a + b == b;
    } else {
      assert (a + b)[1..] == a[1..] + b;
      NonEmptyConcat(a[1..], b);
    }
  }

  lemma {:induction false} WordsConcat(a: seq<string>, b: seq<string>)
    ensures Words(a + b) == Words(a) + Words(b)
  {
    if a == [] {
      assert a + b == b;
    } else {
      assert (a + b)[1..] == a[1..] + b;
      WordsConcat(a[1..], b);
    }
  }

  /** The words placed so far: those of the emitted lines, then those of the current line. */
  function Seen(w: Wrapping): seq<string>
  {
    Words(w.done) + NonEmpty(Split(w.current, ' '))
  }

  /** Placing a word adds exactly that word (when it is not empty) to the words seen so far. */
  lemma PlaceWords(w: Wrapping, word: string, maxlen: nat)
    requires ' ' !in word
    ensures Seen(Place(w, word, maxlen)) == Seen(w) + NonEmpty([word])
  {
    var p := Place(w, word, maxlen);
    SplitWithout(word, ' ');
    if |w.current| + |word| > maxlen {
      WordsConcat(w.done, [w.current]);
      assert Words([w.current]) == NonEmpty(Split(w.current, ' ')) + [];
      assert p.done == w.done + [w.current] && p.current == word;
    } else if |w.current| > 0 {
      SplitAround(w.current, word, ' ');
      assert w.current + " " + word == w.current + [' '] + word;
      NonEmptyConcat(Split(w.current, ' '), [word]);
    } else {
      assert Split(w.current, ' ') == [[]];
      assert NonEmpty([[]]) == [];
    }
  }

  lemma {:induction false} PlaceAllWords(w: Wrapping, words: seq<string>, maxlen: nat)
    requires forall i :: 0 <= i < |words| ==> ' ' !in words[i]
    ensures Seen(PlaceAll(w, words, maxlen)) == Seen(w) + NonEmpty(words)
    decreases |words|
  {
    if words != [] {
      var p := Place(w, words[0], maxlen);
      var rest := words[1..];
      assert PlaceAll(w, words, maxlen) == PlaceAll(p, rest, maxlen);
      PlaceWords(w, words[0], maxlen);
      PlaceAllWords(p, rest, maxlen);
      NonEmptyCons(words);
      ConcatAssoc(Seen(w), NonEmpty([words[0]]), NonEmpty(rest));
    }
  }

  lemma NonEmptyCons(ws: seq<string>)
    requires ws != []
    ensures NonEmpty(ws) == NonEmpty([ws[0]]) + NonEmpty(ws[1..])
  {
    var head := if ws[0] == [] then [] else [ws[0]];
    assert [ws[0]][1..] == [];
    assert NonEmpty([ws[0]]) == head + NonEmpty([]);
    assert NonEmpty([ws[0]]) == head;
  }

  /** Wrapping one line keeps its words, in order. */
  lemma WrapLineWords(line: string, maxlen: nat)
    ensures Words(WrapLine(line, maxlen)) == NonEmpty(Split(line, ' '))
  {
    var p := PlaceAll(Wrapping([], ""), Split(line, ' '), maxlen);
    PlaceAllWords(Wrapping([], ""), Split(line, ' '), maxlen);
    assert Seen(Wrapping([], "")) == [] by {
      assert Split([], ' ') == [[]];
      assert NonEmpty([[]]) == [];
    }
    assert Seen(p) == NonEmpty(Split(line, ' '));
    if |p.current| > 0 {
      WordsConcat(p.done, [p.current]);
      assert Words([p.current]) == NonEmpty(Split(p.current, ' ')) + [];
    } else {
      assert Split(p.current, ' ') == [[]];
      assert NonEmpty([[]]) == [];
    }
  }

  /**
    Wrapping loses no word and invents none: the words of the output, in
    order, are the words of the input text. Only the whitespace between
    them changes.
  */
  lemma WrapKeepsWords(text: string, maxlen: nat)
    ensures Words(WrapText(text, maxlen)) == Words(Split(text, '\n'))
  {
    WrapLinesWords(Split(text, '\n'), maxlen);
  }

  lemma {:induction false} WrapLinesWords(lines: seq<string>, maxlen: nat)
    ensures Words(WrapLines(lines, maxlen)) == Words(lines)
  {
    if lines != [] {
      WrapLineWords(lines[0], maxlen);
      WrapLinesWords(lines[1..], maxlen);
      WordsConcat(WrapLine(lines[0], maxlen), WrapLines(lines[1..], maxlen));
    }
  }

  /**
    A first word longer than the width is preceded by an empty line, and
    stands alone on the line after it: every later word is too long to join it.
  */
  lemma OverlongFirstWord(line: string, maxlen: nat)
    requires |FirstWord(line)| > maxlen
    ensures |WrapLine(line, maxlen)| >= 2 && WrapLine(line, maxlen)[..2] == ["", FirstWord(line)]
  {
    var words := Split(line, ' ');
    var w := words[0];
    var rest := words[1..];
    assert Place(Wrapping([], ""), w, maxlen) == Wrapping([""], w) by {
      assert [] + [""] == [""];
    }
    assert PlaceAll(Wrapping([], ""), words, maxlen) == PlaceAll(Wrapping([""], w), rest, maxlen);
    var p;
    if rest == [] {
      p := Wrapping([""], w);
    } else {
      assert Place(Wrapping([""], w), rest[0], maxlen) == Wrapping(["", w], rest[0]);
      assert ["", w] + [] == ["", w];
      assert PlaceAll(Wrapping([""], w), rest, maxlen) == PlaceAll(Wrapping(["", w], rest[0]), rest[1..], maxlen);
      PlaceAllPrefix(["", w], [], rest[0], rest[1..], maxlen);
      p := PlaceAll(Wrapping(["", w] + [], rest[0]), rest[1..], maxlen);
    }
    assert p == PlaceAll(Wrapping([], ""), words, maxlen);
    assert Flush(p)[..2] == ["", w];
  }

  /** Two words that fit side by side by the code's count are placed on one line. */
  lemma TwoWordsLine(a: string, b: string, maxlen: nat)
    requires a != [] && ' ' !in a && ' ' !in b && |a| + |b| <= maxlen
    ensures WrapLine(a + [' '] + b, maxlen) == [a + " " + b]
  {
    SplitWithout(a, ' ');
    SplitWithout(b, ' ');
    SplitAround(a, b, ' ');
    var words := [a, b];
    assert Split(a + [' '] + b, ' ') == words;
    assert Place(Wrapping([], ""), a, maxlen) == Wrapping([], a);
    assert Place(Wrapping([], a), b, maxlen) == Wrapping([], a + " " + b);
    assert words[1..] == [b] && [b][1..] == [];
    assert PlaceAll(Wrapping([], ""), words, maxlen) == PlaceAll(Wrapping([], a), [b], maxlen);
    assert PlaceAll(Wrapping([], a), [b], maxlen) == Wrapping([], a + " " + b);
  }

  /**
    Two words whose lengths add up to the width share one line, one
    character longer than the width: the joining space is not counted.
  */
  lemma SpaceNotCounted(a: string, b: string, maxlen: nat)
    requires a != [] && b != [] && ' ' !in a && ' ' !in b && '\n' !in a && '\n' !in b
    requires |a| + |b| == maxlen
    ensures WrapText(a + " " + b, maxlen) == [a + " " + b]
    ensures |a + " " + b| == maxlen + 1
  {
    var line := a + " " + b;
    assert line == a + [' '] + b;
    assert '\n' !in line;
    SplitWithout(line, '\n');
    TwoWordsLine(a, b, maxlen);
    assert [line][1..] == [];
    assert WrapText(line, maxlen) == WrapLine(line, maxlen) + WrapLines([], maxlen);
  }
}
