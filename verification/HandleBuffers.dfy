/** The growing and the fixed buffers of a dtrace handle: trimmed texts and grabbed processes. */
module HandleBuffers {
  import opened Outcomes

  // Trimming

  const TUPLE_STRLEN := 128

  predicate Blanks(s: string) {
    forall i :: 0 <= i < |s| ==> s[i] == ' '
  }

  function SkipBlanks(s: string): string {
    if s != "" && s[0] == ' ' then SkipBlanks(s[1..]) else s
  }

  function CutRight(s: string): string {
    if s != "" && s[|s| - 1] == ' ' then CutRight(s[..|s| - 1]) else s
  }

  /** The characters that fit the buffer, after the leading blanks. */
  function Window(s: string): string {
    var t := SkipBlanks(s);
    if |t| <= TUPLE_STRLEN then t else t[..TUPLE_STRLEN]
  }

  function Cut(s: string): string {
    CutRight(Window(s))
  }

  /** There is a character other than a blank, and the last place of the buffer is free for the NUL. */
  predicate Trimmable(s: string) {
    var t := SkipBlanks(s);
    t != "" && (|t| < TUPLE_STRLEN || t[TUPLE_STRLEN - 1] == ' ')
  }

  /** The text kept, or why C has no result: size is read unset, or the NUL goes behind the buffer. */
  datatype Trimming = Kept(text: string) | UnsetSize | BehindBuffer

  function Trimmed(s: string): Trimming {
    if SkipBlanks(s) == "" then UnsetSize else if Trimmable(s) then Kept(Cut(s)) else BehindBuffer
  }

  lemma {:induction false} SkipBlanksSplits(s: string)
    ensures |SkipBlanks(s)| <= |s| && s[|s| - |SkipBlanks(s)|..] == SkipBlanks(s)
    ensures Blanks(s[..|s| - |SkipBlanks(s)|])
    ensures SkipBlanks(s) != "" ==> SkipBlanks(s)[0] != ' '
  {
    if s != "" && s[0] == ' ' {
      var rest := s[1..];
      SkipBlanksSplits(rest);
      var k := |rest| - |SkipBlanks(rest)|;
      assert s[..k + 1] == [' '] + rest[..k] && s[k + 1..] == rest[k..];
    }
  }

  lemma {:induction false} CutRightSplits(s: string)
    ensures |CutRight(s)| <= |s| && s[..|CutRight(s)|] == CutRight(s) && Blanks(s[|CutRight(s)|..])
    ensures CutRight(s) != "" ==> CutRight(s)[|CutRight(s)| - 1] != ' '
  {
    if s != "" && s[|s| - 1] == ' ' {
      var init := s[..|s| - 1];
      CutRightSplits(init);
      var k := |CutRight(init)|;
      assert s[k..] == init[k..] + [' '] && s[..k] == init[..k];
    }
  }

  /** Padding a string that ends in a character other than a blank, and cutting it again. */
  lemma {:induction false} CutRightOf(r: string, pad: string)
    requires r != "" && r[|r| - 1] != ' ' && Blanks(pad)
    ensures CutRight(r + pad) == r
  {
    if pad == "" {
      assert r + pad == r;
    } else {
      CutRightOf(r, pad[..|pad| - 1]);
      assert (r + pad)[..|r + pad| - 1] == r + pad[..|pad| - 1];
    }
  }

  /** r is w with the blanks at its right end taken off, and nothing else. */
  ghost predicate Trims(w: string, r: string) {
    r != "" && r[0] != ' ' && r[|r| - 1] != ' ' && exists pad :: Blanks(pad) && w == r + pad
  }

  /** The cut string is the only one that the window trims to, and there is one whenever the window is not empty. */
  lemma CutExact(s: string, r: string)
    ensures Trims(Window(s), r) <==> r == Cut(s) && Cut(s) != ""
  {
    var w := Window(s);
    SkipBlanksSplits(s);
    CutRightSplits(w);
    if Cut(s) != "" {
      assert w == Cut(s) + w[|Cut(s)|..];
      assert Trims(w, Cut(s));
    }
    if Trims(w, r) {
      var pad :| Blanks(pad) && w == r + pad;
      CutRightOf(r, pad);
    }
  }

  lemma CutIdempotent(s: string)
    ensures Cut(Cut(s)) == Cut(s)
  {
    var c := Cut(s);
    SkipBlanksSplits(s);
    CutRightSplits(Window(s));
    if c != "" {
      assert SkipBlanks(c) == c;
      assert Window(c) == c;
      CutRightOf(c, "");
      assert c + "" == c;
    }
  }

  /** The condition on the text, and what it says of the part that is kept. */
  lemma TrimmableIff(s: string)
    ensures Trimmable(s) <==> 0 < |Cut(s)| < TUPLE_STRLEN
  {
    var w := Window(s);
    SkipBlanksSplits(s);
    CutRightSplits(w);
    if w != "" {
      FirstStays(w);
      LastStays(w);
    }
  }

  lemma {:induction false} FirstStays(w: string)
    requires w != "" && w[0] != ' '
    ensures CutRight(w) != ""
  {
    if w[|w| - 1] == ' ' {
      FirstStays(w[..|w| - 1]);
    }
  }

  lemma LastStays(w: string)
    requires w != ""
    ensures |CutRight(w)| == |w| <==> w[|w| - 1] != ' '
  {
    if w[|w| - 1] == ' ' {
      CutRightSplits(w[..|w| - 1]);
    }
  }

  /** A text of blanks: size is never set. */
  lemma BlankText()
    ensures Trimmed(" ") == UnsetSize
  {
    assert SkipBlanks(" "[1..]) == "";
  }

  lemma {:induction false} SkipBlanksOf(lead: string, s: string)
    requires Blanks(lead) && (s == "" || s[0] != ' ')
    ensures SkipBlanks(lead + s) == s
  {
    if lead == "" {
      assert lead + s == s;
    } else {
      SkipBlanksOf(lead[1..], s);
      assert (lead + s)[1..] == lead[1..] + s;
    }
  }

  /** Up to 127 characters are kept as they are, whatever blanks are around them. */
  lemma WholeText(lead: string, r: string, pad: string)
    requires Blanks(lead) && Blanks(pad) && r != "" && r[0] != ' ' && r[|r| - 1] != ' ' && |r| <= 127
    ensures Trimmed(lead + (r + pad)) == Kept(r)
  {
    var t := r + pad;
    SkipBlanksOf(lead, t);
    if |t| <= TUPLE_STRLEN {
      CutRightOf(r, pad);
    } else {
      var cut := pad[..TUPLE_STRLEN - |r|];
      assert t[..TUPLE_STRLEN] == r + cut && t[TUPLE_STRLEN - 1] == pad[TUPLE_STRLEN - 1 - |r|];
      CutRightOf(r, cut);
    }
  }

  /** With a 128th character that is no blank the text fills the buffer, and the NUL goes behind it. */
  lemma LongText(lead: string, t: string)
    requires Blanks(lead) && |t| >= 128 && t[0] != ' ' && t[127] != ' '
    ensures Trimmed(lead + t) == BehindBuffer
  {
    SkipBlanksOf(lead, t);
  }

  /** The source from its first character other than a blank. */
  method SkipLeading(csource: string) returns (source: string)
    ensures source == SkipBlanks(csource)
  {
    var start := 0;
    while start < |csource| && csource[start] == ' '
      invariant 0 <= start <= |csource|
      invariant SkipBlanks(csource[start..]) == SkipBlanks(csource)
    {
      assert csource[start..][1..] == csource[start + 1..];
      start := start + 1;
    }
    source := csource[start..];
  }

  /** The copy loop: size is the index of the last character copied that is no blank, if any. */
  method CopyNoting(buf: array<char>, source: string) returns (size: Option<nat>)
    requires buf.Length == TUPLE_STRLEN && (source != "" ==> source[0] != ' ')
    modifies buf
    ensures size.None? <==> source == ""
    ensures var n := if |source| < TUPLE_STRLEN then |source| else TUPLE_STRLEN;
            size.Some? ==> size.value < n && CutRight(source[..n]) == source[..size.value + 1] == buf[..size.value + 1]
  {
    var i := 0;
    size := None;
    assert source[..0] == "";
    while i < |source| && i < TUPLE_STRLEN
      invariant 0 <= i <= |source| && i <= TUPLE_STRLEN
      invariant buf[..i] == source[..i]
      invariant size.None? <==> i == 0
      invariant size.Some? ==> size.value < i && CutRight(source[..i]) == source[..size.value + 1]
    {
      buf[i] := source[i];
      assert source[..i + 1] == source[..i] + [source[i]];
      assert buf[..i + 1] == buf[..i] + [source[i]];
      assert source[..i + 1][..i] == source[..i];
      if source[i] != ' ' {
        size := Some(i);
      }
      i := i + 1;
    }
    if size.Some? {
      assert buf[..size.value + 1] == buf[..i][..size.value + 1];
      assert source[..size.value + 1] == source[..i][..size.value + 1];
    }
  }

  /** cutWhiteSpace: skip, copy while noting the last character that is no blank, terminate after it. */
  method CutWhiteSpace(csource: string) returns (r: Trimming)
    ensures r == Trimmed(csource)
    ensures r.Kept? <==> Trimmable(csource)
  {
    var source := SkipLeading(csource);
    SkipBlanksSplits(csource);
    TrimmableIff(csource);
    var buf := new char[TUPLE_STRLEN];
    var size := CopyNoting(buf, source);
    if size.None? { return UnsetSize; }
    assert Window(csource) == source[..if |source| < TUPLE_STRLEN then |source| else TUPLE_STRLEN];
    var end := size.value + 1;
    if end >= buf.Length { return BehindBuffer; }
    ghost var kept := buf[..end];
    buf[end] := '\0';
    assert buf[..end] == kept;
    r := Kept(buf[..end]);
  }

  // The vector of processes

  /** The capacity after n elements were stored. */
  function Capacity(n: nat): nat {
    if n == 0 then 0
    else
      var c := Capacity(n - 1);
      if n - 1 == c then 2 * c + 1 else c
  }

  /** How many elements all regrowths together have copied by then, and how many regrowths there were. */
  function Copied(n: nat): nat {
    if n == 0 then 0 else Copied(n - 1) + if n - 1 == Capacity(n - 1) then n - 1 else 0
  }

  function Regrowths(n: nat): nat {
    if n == 0 then 0 else Regrowths(n - 1) + if n - 1 == Capacity(n - 1) then 1 else 0
  }

  function Pow2(k: nat): nat {
    if k == 0 then 1 else 2 * Pow2(k - 1)
  }

  /** Amortised cost: capacities are powers of two less one, never twice the elements, and copying stays linear. */
  lemma {:induction false} AmortisedBound(n: nat)
    ensures n <= Capacity(n) == Pow2(Regrowths(n)) - 1
    ensures Copied(n) + Regrowths(n) == Capacity(n)
    ensures n > 0 ==> Capacity(n) <= 2 * n - 1 && Copied(n) < 2 * n
  {
    if n > 0 {
      AmortisedBound(n - 1);
    }
  }

  type Process = int

  class Processes {
    var processes: array<Process>
    var count: nat
    ghost var copied: nat

    ghost predicate Valid()
      reads this
    {
      count <= processes.Length == Capacity(count) && copied == Copied(count)
    }

    ghost function Contents(): seq<Process>
      reads this, processes
      requires Valid()
    {
      processes[..count]
    }

    constructor ()
      ensures Valid() && Contents() == [] && fresh(processes)
    {
      processes := new Process[0];
      count, copied := 0, 0;
    }

    /** Room for one more element, by doubling; the elements stay. */
    method Grow()
      requires Valid() && count == processes.Length
      modifies this`processes, this`copied
      ensures fresh(processes) && processes.Length == 2 * old(processes.Length) + 1
      ensures processes[..count] == old(processes[..count]) && copied == old(copied) + count
    {
      var larger := new Process[2 * processes.Length + 1];
      forall i | 0 <= i < processes.Length {
        larger[i] := processes[i];
      }
      assert larger[..count] == processes[..count];
      copied := copied + processes.Length;
      processes := larger;
    }

    /** The end of grab and launch: the process is kept, in the last place; none is when libdtrace has none. */
    method Keep(proc: Option<Process>) returns (ok: bool)
      requires Valid()
      modifies this, processes
      ensures Valid() && ok == proc.Some?
      ensures Contents() == if ok then old(Contents()) + [proc.value] else old(Contents())
      ensures processes == old(processes) || fresh(processes)
    {
      if proc.None? { return false; }
      ghost var before := processes[..count];
      if count == processes.Length {
        Grow();
      } else {
        AmortisedBound(count);
      }
      processes[count] := proc.value;
      count := count + 1;
      assert processes[..count - 1] == before;
      assert processes[..count] == before + [proc.value];
      AmortisedBound(count);
      ok := true;
    }

    /** The end of go: every process kept is continued once, in the order they came. */
    method ContinueAll(starts: bool) returns (ok: bool, continued: seq<Process>)
      requires Valid()
      ensures ok == starts && continued == if ok then Contents() else []
    {
      continued := [];
      if !starts { return false, continued; }
      var i := 0;
      while i < count
        invariant 0 <= i <= count && continued == processes[..i]
      {
        continued := continued + [processes[i]];
        i := i + 1;
      }
      ok := true;
    }
  }
}
