/**
 Trimming a text of several lines: when two texts are equal once trimmed, what do their lines have in common?

 The core of a text is its lines, each trimmed, without the empty ones at both ends. Trimming the text keeps it.
 */
module TrimmedLines {
  import opened TclText

  function DropFront(lines: Lines): (r: Lines)
    ensures |r| <= |lines| && (|r| == |lines| ==> r == lines)
  {
    if lines != [] && lines[0] == "" then DropFront(lines[1..]) else lines
  }

  function DropBack(lines: Lines): (r: Lines)
    ensures |r| <= |lines| && (|r| == |lines| ==> r == lines)
  {
    if lines != [] && lines[|lines| - 1] == "" then DropBack(lines[..|lines| - 1]) else lines
  }

  function Core(text: string): Lines {
    DropFront(DropBack(TrimAll(Split(text))))
  }

  lemma TrimAllSnoc(lines: Lines, l: string)
    ensures TrimAll(lines + [l]) == TrimAll(lines) + [Trim(l)]
  {
    assert (lines + [l])[..|lines|] == lines;
  }

  lemma TrimAllCons(l: string, lines: Lines)
    ensures TrimAll([l] + lines) == [Trim(l)] + TrimAll(lines)
  {
    MappedCons(Trim, l, lines, TrimAll(lines), TrimAll([l] + lines));
  }

  lemma MappedCons<T>(f: T -> T, x: T, s: seq<T>, mapped: seq<T>, all: seq<T>)
    requires |mapped| == |s| && forall i :: 0 <= i < |s| ==> mapped[i] == f(s[i])
    requires |all| == |s| + 1 && forall i :: 0 <= i < |all| ==> all[i] == f(([x] + s)[i])
    ensures all == [f(x)] + mapped
  {
    assert forall i :: 0 <= i < |s| ==> ([x] + s)[i + 1] == s[i];
    assert all[0] == f(x);
  }

  lemma CoreSnoc(text: string, c: char)
    requires IsSpace(c)
    ensures Core(text + [c]) == Core(text)
  {
    var lines := Split(text);
    var init, last := lines[..|lines| - 1], lines[|lines| - 1];
    SplitSnoc(text, c);
    if c == '\n' {
      TrimAllSnoc(lines, "");
    } else {
      TrimOf("", last, [c]);
      assert "" + last + [c] == last + [c];
      TrimAllSnoc(init, last + [c]);
      TrimAllSnoc(init, last);
      assert lines == init + [last];
    }
  }

  lemma {:induction false} SplitCons(c: char, text: string)
    requires c != '\n'
    ensures Split([c] + text) == [[c] + Split(text)[0]] + Split(text)[1..]
  {
    if text == "" {
      assert [c] + text == "" + [c];
      SplitSnoc("", c);
    } else {
      var init, d := text[..|text| - 1], text[|text| - 1];
      SplitCons(c, init);
      assert text == init + [d];
      SplitSnocs([c], init, d);
      SplitSnoc(init, d);
      TypedFirst(c, Split(init), d);
    }
  }

  lemma TypedFirst(c: char, lines: Lines, d: char)
    requires lines != []
    ensures Typed([[c] + lines[0]] + lines[1..], d) == [[c] + Typed(lines, d)[0]] + Typed(lines, d)[1..]
  {
    if d != '\n' && |lines| == 1 {
      assert [c] + lines[0] + [d] == [c] + (lines[0] + [d]);
    }
  }

  lemma {:induction false} DropBackCons(lines: Lines)
    ensures DropFront(DropBack([""] + lines)) == DropFront(DropBack(lines))
  {
    var all := [""] + lines;
    if lines == [] {
      assert all[..0] == [];
    } else if lines[|lines| - 1] == "" {
      assert all[..|all| - 1] == [""] + lines[..|lines| - 1];
      DropBackCons(lines[..|lines| - 1]);
    } else {
      assert all[1..] == lines;
    }
  }

  lemma CoreCons(c: char, text: string)
    requires IsSpace(c)
    ensures Core([c] + text) == Core(text)
  {
    var lines := Split(text);
    if c == '\n' {
      SplitConcat("", text);
      assert "" + ['\n'] + text == [c] + text;
      TrimAllCons("", lines);
      DropBackCons(TrimAll(lines));
    } else {
      SplitCons(c, text);
      TrimAllFirst(c, lines);
    }
  }

  lemma TrimAllFirst(c: char, lines: Lines)
    requires lines != [] && IsSpace(c)
    ensures TrimAll([[c] + lines[0]] + lines[1..]) == TrimAll(lines)
  {
    TrimAfter([c], lines[0]);
    TrimAllCons([c] + lines[0], lines[1..]);
    TrimAllCons(lines[0], lines[1..]);
    assert lines == [lines[0]] + lines[1..];
  }

  lemma {:induction false} CoreTrimRight(text: string)
    ensures Core(TrimRight(text)) == Core(text)
  {
    if text != "" && IsSpace(text[|text| - 1]) {
      var init, c := text[..|text| - 1], text[|text| - 1];
      assert text == init + [c] && TrimRight(text) == TrimRight(init);
      CoreTrimRight(init);
      CoreSnoc(init, c);
    }
  }

  lemma {:induction false} CoreTrimLeft(text: string)
    ensures Core(TrimLeft(text)) == Core(text)
  {
    if text != "" && IsSpace(text[0]) {
      var c, rest := text[0], text[1..];
      assert text == [c] + rest && TrimLeft(text) == TrimLeft(rest);
      CoreTrimLeft(rest);
      CoreCons(c, rest);
    }
  }

  lemma CoreTrim(text: string)
    ensures Core(Trim(text)) == Core(text)
  {
    CoreTrimLeft(text);
    CoreTrimRight(TrimLeft(text));
  }

  lemma {:induction false} TerminatedJoins(lines: Lines)
    ensures Terminated(lines) == Join(lines + [""])
  {
    if lines == [] {
      assert lines + [""] == [""];
    } else {
      var init, l := lines[..|lines| - 1], lines[|lines| - 1];
      TerminatedJoins(init);
      JoinTwo(init, l);
      assert init + [l] == lines;
    }
  }

  lemma JoinTwo(init: Lines, l: string)
    ensures Join(init + [l] + [""]) == Join(init + [""]) + l + ['\n']
  {
    assert (init + [l] + [""])[..|init| + 1] == init + [l];
    assert (init + [l])[..|init|] == init && (init + [""])[..|init|] == init;
    if init == [] {
      assert [] + [l] == [l] && [] + [""] == [""];
      assert Join([l, ""]) == l + ['\n'] + "";
      assert init + [l] + [""] == [l, ""];
    } else {
      assert Join(init) + ['\n'] + l + ['\n'] + "" == Join(init) + ['\n'] + "" + l + ['\n'];
    }
  }

  lemma CoreOfLines(lines: Lines)
    requires AllOneLine(lines)
    ensures Core(Terminated(lines)) == DropFront(DropBack(TrimAll(lines)))
  {
    TerminatedJoins(lines);
    SplitJoin(lines + [""]);
    SplitAllLines(lines + [""]);
    TrimAllSnoc(lines, "");
  }

  /** Two texts of as many lines, one of them without blank lines: they are equal once trimmed only if their lines are. */
  lemma SameLines(a: Lines, b: Lines, i: nat)
    requires |a| == |b| && AllOneLine(a) && AllOneLine(b)
    requires forall k :: 0 <= k < |b| ==> Trim(b[k]) != ""
    requires Trim(Terminated(a)) == Trim(Terminated(b))
    requires i < |a|
    ensures Trim(a[i]) == Trim(b[i])
  {
    CoreTrim(Terminated(a));
    CoreTrim(Terminated(b));
    CoreOfLines(a);
    CoreOfLines(b);
    assert DropFront(DropBack(TrimAll(b))) == TrimAll(b);
    assert TrimAll(a)[i] == TrimAll(b)[i];
  }
}
