/** Tcl's string commands as far as the log tools use them: trim, split and join at newlines, first. */
module TclText {
  import opened Machines

  type Lines = seq<string>

  /** What string trim takes off by default. */
  predicate IsSpace(c: char) {
    c == ' ' || c == '\t' || c == '\n' || c == '\r'
  }

  predicate AllSpace(s: string) {
    forall i :: 0 <= i < |s| ==> IsSpace(s[i])
  }

  function TrimLeft(s: string): string {
    if s != "" && IsSpace(s[0]) then TrimLeft(s[1..]) else s
  }

  function TrimRight(s: string): string {
    if s != "" && IsSpace(s[|s| - 1]) then TrimRight(s[..|s| - 1]) else s
  }

  function Trim(s: string): string {
    TrimRight(TrimLeft(s))
  }

  /** How far the first word reaches, when there is no blank before it. */
  function WordEnd(s: string): (k: nat)
    ensures k <= |s|
  {
    if s == "" || IsSpace(s[0]) then 0 else 1 + WordEnd(s[1..])
  }

  lemma {:induction false} WordEndIs(w: string, rest: string)
    requires forall i :: 0 <= i < |w| ==> !IsSpace(w[i])
    requires rest == "" || IsSpace(rest[0])
    ensures WordEnd(w + rest) == |w|
  {
    if w == "" {
      assert w + rest == rest;
    } else {
      WordEndIs(w[1..], rest);
      assert (w + rest)[1..] == w[1..] + rest;
    }
  }

  /** Where pat first occurs in s, or -1. */
  function First(pat: string, s: string): (k: int)
    ensures -1 <= k <= |s|
  {
    if pat <= s then 0
    else if s == "" then -1
    else
      var k := First(pat, s[1..]);
      if k < 0 then -1 else k + 1
  }

  predicate Contains(s: string, pat: string) {
    First(pat, s) >= 0
  }

  /** split $text \n */
  function Split(text: string): (lines: Lines)
    ensures lines != []
  {
    if text == "" then [""]
    else
      var init := Split(text[..|text| - 1]);
      var c := text[|text| - 1];
      if c == '\n' then init + [""] else init[..|init| - 1] + [init[|init| - 1] + [c]]
  }

  /** join $lines \n */
  function Join(lines: Lines): string {
    if lines == [] then ""
    else if |lines| == 1 then lines[0]
    else Join(lines[..|lines| - 1]) + ['\n'] + lines[|lines| - 1]
  }

  predicate OneLine(s: string) {
    '\n' !in s
  }

  predicate AllOneLine(lines: Lines) {
    forall i :: 0 <= i < |lines| ==> OneLine(lines[i])
  }

  /** Every line with its newline. */
  function Terminated(lines: Lines): string {
    if lines == [] then "" else Terminated(lines[..|lines| - 1]) + lines[|lines| - 1] + ['\n']
  }

  function TrimAll(lines: Lines): (r: Lines)
    ensures |r| == |lines|
    ensures forall i :: 0 <= i < |lines| ==> r[i] == Trim(lines[i])
  {
    if lines == [] then [] else TrimAll(lines[..|lines| - 1]) + [Trim(lines[|lines| - 1])]
  }

  // Split and join

  /** The lines after one more character. */
  function Typed(lines: Lines, c: char): Lines
    requires lines != []
  {
    if c == '\n' then lines + [""] else lines[..|lines| - 1] + [lines[|lines| - 1] + [c]]
  }

  lemma SplitSnoc(a: string, c: char)
    ensures Split(a + [c]) == Typed(Split(a), c)
  {
    assert (a + [c])[..|a|] == a;
  }

  function Extended(lines: Lines, b: string): Lines
    requires lines != []
  {
    lines[..|lines| - 1] + [lines[|lines| - 1] + b]
  }

  lemma ExtendedTyped(lines: Lines, b: string, c: char)
    requires lines != [] && c != '\n'
    ensures Typed(Extended(lines, b), c) == Extended(lines, b + [c])
    ensures Extended(lines, "") == lines
  {
    assert lines[|lines| - 1] + b + [c] == lines[|lines| - 1] + (b + [c]);
    assert lines[|lines| - 1] + "" == lines[|lines| - 1];
  }

  lemma {:induction false} SplitLine(a: string, b: string)
    requires OneLine(b)
    ensures Split(a + b) == Extended(Split(a), b)
    decreases b
  {
    if b == "" {
      ExtendedTyped(Split(a), "", ' ');
      assert a + b == a;
    } else {
      var init, c := b[..|b| - 1], b[|b| - 1];
      assert b == init + [c] && c in b;
      SplitLine(a, init);
      ExtendedTyped(Split(a), init, c);
      SplitSnocs(a, init, c);
    }
  }

  lemma SplitSnocs(a: string, b: string, c: char)
    ensures Split(a + (b + [c])) == Typed(Split(a + b), c)
  {
    assert a + (b + [c]) == a + b + [c];
    SplitSnoc(a + b, c);
  }

  lemma TypedAfter(x: Lines, y: Lines, c: char)
    requires y != []
    ensures Typed(x + y, c) == x + Typed(y, c)
  {
    assert (x + y)[..|x + y| - 1] == x + y[..|y| - 1];
  }

  /** Splitting after a newline splits both sides on their own. */
  lemma {:induction false} SplitConcat(a: string, b: string)
    ensures Split(a + ['\n'] + b) == Split(a) + Split(b)
    decreases b
  {
    var front := a + ['\n'];
    if b == "" {
      assert front + b == front;
      SplitSnoc(a, '\n');
    } else {
      var init, c := b[..|b| - 1], b[|b| - 1];
      SplitConcat(a, init);
      assert b == init + [c];
      SplitSnocs(front, init, c);
      SplitSnoc(init, c);
      TypedAfter(Split(a), Split(init), c);
    }
  }

  function SplitAll(parts: Lines): Lines {
    if parts == [] then [] else SplitAll(parts[..|parts| - 1]) + Split(parts[|parts| - 1])
  }

  /** Joining parts and splitting the text splits every part: nothing moves between parts. */
  lemma {:induction false} SplitJoin(parts: Lines)
    requires parts != []
    ensures Split(Join(parts)) == SplitAll(parts)
  {
    var init, last := parts[..|parts| - 1], parts[|parts| - 1];
    if init == [] {
      assert SplitAll(parts) == [] + Split(last);
    } else {
      SplitJoin(init);
      SplitConcat(Join(init), last);
    }
  }

  lemma SplitOneLine(s: string)
    requires OneLine(s)
    ensures Split(s) == [s]
  {
    SplitLine("", s);
    assert "" + s == s;
  }

  lemma SplitAllSnoc(parts: Lines, p: string)
    ensures SplitAll(parts + [p]) == SplitAll(parts) + Split(p)
  {
    assert (parts + [p])[..|parts|] == parts;
  }

  lemma {:induction false} SplitAllLines(lines: Lines)
    requires AllOneLine(lines)
    ensures SplitAll(lines) == lines
  {
    if lines != [] {
      var init, last := lines[..|lines| - 1], lines[|lines| - 1];
      SplitAllLines(init);
      SplitAllSnoc(init, last);
      SplitOneLine(last);
      assert init + [last] == lines;
    }
  }

  lemma {:induction false} SplitAllConcat(a: Lines, b: Lines)
    ensures SplitAll(a + b) == SplitAll(a) + SplitAll(b)
    decreases b
  {
    if b == [] {
      assert a + b == a && SplitAll(a) + [] == SplitAll(a);
    } else {
      var init, p := b[..|b| - 1], b[|b| - 1];
      SplitAllConcat(a, init);
      assert b == init + [p] && a + b == a + init + [p];
      SplitAllSnoc(a + init, p);
      SplitAllSnoc(init, p);
      Regroup(SplitAll(a), SplitAll(init), Split(p));
    }
  }

  lemma {:induction false} SplitGivesLines(text: string)
    ensures AllOneLine(Split(text))
  {
    if text != "" {
      SplitGivesLines(text[..|text| - 1]);
    }
  }

  /** Joining what split gave is the text again. */
  lemma {:induction false} JoinSplit(text: string)
    ensures Join(Split(text)) == text
  {
    if text != "" {
      var init, c := text[..|text| - 1], text[|text| - 1];
      JoinSplit(init);
      SplitSnoc(init, c);
      assert text == init + [c];
    }
  }

  // Trimming

  lemma {:induction false} TrimLeftOf(w: string, s: string)
    requires AllSpace(w)
    ensures TrimLeft(w + s) == TrimLeft(s)
  {
    if w == "" {
      assert w + s == s;
    } else {
      TrimLeftOf(w[1..], s);
      assert (w + s)[1..] == w[1..] + s;
    }
  }

  lemma {:induction false} TrimRightOf(s: string, w: string)
    requires AllSpace(w)
    ensures TrimRight(s + w) == TrimRight(s)
  {
    if w == "" {
      assert s + w == s;
    } else {
      TrimRightOf(s, w[..|w| - 1]);
      assert (s + w)[..|s + w| - 1] == s + w[..|w| - 1];
    }
  }

  /** Trimming at the right does not reach past a part that is not all blank. */
  lemma {:induction false} TrimRightStops(a: string, b: string)
    requires !AllSpace(b)
    ensures TrimRight(a + b) == a + TrimRight(b)
  {
    if IsSpace(b[|b| - 1]) {
      assert (a + b)[..|a + b| - 1] == a + b[..|b| - 1];
      TrimRightStops(a, b[..|b| - 1]);
    }
  }

  lemma {:induction false} TrimLeftStops(a: string, b: string)
    requires !AllSpace(a)
    ensures TrimLeft(a + b) == TrimLeft(a) + b
  {
    if IsSpace(a[0]) {
      assert (a + b)[1..] == a[1..] + b;
      TrimLeftStops(a[1..], b);
    }
  }

  lemma {:induction false} TrimRightSplits(s: string)
    ensures |TrimRight(s)| <= |s| && s[..|TrimRight(s)|] == TrimRight(s) && AllSpace(s[|TrimRight(s)|..])
    ensures TrimRight(s) != "" ==> !IsSpace(TrimRight(s)[|TrimRight(s)| - 1])
    ensures TrimRight(s) == "" <==> AllSpace(s)
  {
    if s != "" && IsSpace(s[|s| - 1]) {
      var init := s[..|s| - 1];
      TrimRightSplits(init);
      var k := |TrimRight(init)|;
      assert s == init + [s[|s| - 1]] && s[k..] == init[k..] + [s[|s| - 1]] && s[..k] == init[..k];
      assert AllSpace(s) <==> AllSpace(init);
    }
  }

  lemma {:induction false} TrimLeftSplits(s: string)
    ensures |TrimLeft(s)| <= |s| && s[|s| - |TrimLeft(s)|..] == TrimLeft(s) && AllSpace(s[..|s| - |TrimLeft(s)|])
    ensures TrimLeft(s) != "" ==> !IsSpace(TrimLeft(s)[0])
    ensures TrimLeft(s) == "" <==> AllSpace(s)
  {
    if s != "" && IsSpace(s[0]) {
      var rest := s[1..];
      TrimLeftSplits(rest);
      SpaceFirst(s, |rest| - |TrimLeft(rest)|);
    }
  }

  lemma SpaceFirst(s: string, k: nat)
    requires k < |s| && IsSpace(s[0])
    ensures s[k + 1..] == s[1..][k..]
    ensures (AllSpace(s) <==> AllSpace(s[1..])) && (AllSpace(s[..k + 1]) <==> AllSpace(s[1..][..k]))
  {
    SpaceCons(s[0], s[1..]);
    SpaceCons(s[0], s[1..][..k]);
    assert s == [s[0]] + s[1..] && s[..k + 1] == [s[0]] + s[1..][..k];
  }

  lemma SpaceCons(c: char, s: string)
    requires IsSpace(c)
    ensures AllSpace([c] + s) <==> AllSpace(s)
  {
    assert forall i :: 0 <= i < |s| ==> ([c] + s)[i + 1] == s[i];
  }

  /** Blank ends make no difference to a trimmed string. */
  lemma TrimOf(w: string, s: string, v: string)
    requires AllSpace(w) && AllSpace(v)
    ensures Trim(w + s + v) == Trim(s)
  {
    assert w + s + v == w + (s + v);
    TrimLeftOf(w, s + v);
    if AllSpace(s) {
      TrimLeftSplits(s + v);
      TrimLeftSplits(s);
    } else {
      TrimLeftStops(s, v);
      TrimRightOf(TrimLeft(s), v);
    }
  }

  lemma TrimAfter(w: string, s: string)
    requires AllSpace(w)
    ensures Trim(w + s) == Trim(s)
  {
    assert w + s == w + s + "";
    TrimOf(w, s, "");
  }

  lemma TrimOfTrimRight(s: string)
    ensures Trim(TrimRight(s)) == Trim(s)
  {
    var t := TrimRight(s);
    TrimRightSplits(s);
    assert s == "" + t + s[|t|..];
    TrimOf("", t, s[|t|..]);
  }

  /** What trim leaves: no blank at either end, nothing at all exactly of a blank string. */
  lemma TrimEnds(s: string)
    ensures Trim(s) == "" <==> AllSpace(s)
    ensures Trim(s) != "" ==> !IsSpace(Trim(s)[0]) && !IsSpace(Trim(s)[|Trim(s)| - 1])
    ensures forall c :: c in Trim(s) ==> c in s
  {
    TrimLeftSplits(s);
    TrimRightSplits(TrimLeft(s));
  }

  lemma TrimFixed(s: string)
    requires s != "" && !IsSpace(s[0]) && !IsSpace(s[|s| - 1])
    ensures Trim(s) == s
  {
  }

  lemma TrimIdempotent(s: string)
    ensures Trim(Trim(s)) == Trim(s)
  {
    TrimEnds(s);
    if Trim(s) != "" {
      TrimFixed(Trim(s));
    }
  }
}
