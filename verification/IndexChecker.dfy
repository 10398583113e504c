/**
 The keyword-index checker: the five states of checker_idx.tcl, and the language they accept.
 */
module IndexChecker {
  import opened Machines
  import opened Outcomes

  datatype State = AtBegin | Contents | RefSeries | RefkeySeries | Done

  datatype Ref = Manpage(file: string, name: string) | Url(url: string, name: string)

  datatype Macro =
    | IndexBegin(name: string, title: string)
    | IndexEnd
    | Key(text: string)
    | Reference(ref: Ref)
    | Comment(text: string)
    | Text(text: string)

  function Step(s: State, m: Macro): Result<State> {
    match m
    case IndexBegin(_, _) => if s != AtBegin then Failure(IdxBegincmd) else Success(Contents)
    case IndexEnd => if s != RefkeySeries then Failure(IdxEndcmd) else Success(Done)
    case Key(_) => if s !in {Contents, RefkeySeries} then Failure(IdxKeycmd) else Success(RefSeries)
    case Reference(ref) =>
      if s !in {RefSeries, RefkeySeries} then Failure(if ref.Manpage? then IdxManpagecmd else IdxUrlcmd)
      else Success(RefkeySeries)
    case Comment(_) => if s == Done then Failure(IdxNodonecmd) else Success(s)
    case Text(text) => if Blank(text) then Success(s) else Failure(IdxPlaintext)
  }

  predicate Accepts(doc: seq<Macro>) {
    Run(Step, AtBegin, doc) == Success(Done)
  }

  class Checker {
    var state: State

    ghost predicate Answered(before: State, m: Macro, r: Outcome)
      reads this
    {
      match Step(before, m)
      case Success(after) => r == Ok && state == after
      case Failure(code) => r == Error(code) && state == before
    }

    constructor ()
      ensures state == AtBegin
    {
      state := AtBegin;
    }

    method Go(s: State)
      modifies this
      ensures state == s
    {
      state := s;
    }

    method Complete() returns (r: Outcome)
      ensures r == if state == Done then Ok else Error(EndOpenIdx)
    {
      r := if state == Done then Ok else Error(EndOpenIdx);
    }

    method Begin(name: string, title: string) returns (r: Outcome)
      modifies this
      ensures Answered(old(state), IndexBegin(name, title), r)
    {
      if state != AtBegin { return Error(IdxBegincmd); }
      Go(Contents);
      r := Ok;
    }

    method End() returns (r: Outcome)
      modifies this
      ensures Answered(old(state), IndexEnd, r)
    {
      if state != RefkeySeries { return Error(IdxEndcmd); }
      Go(Done);
      r := Ok;
    }

    method AddKey(text: string) returns (r: Outcome)
      modifies this
      ensures Answered(old(state), Key(text), r)
    {
      if state != Contents && state != RefkeySeries { return Error(IdxKeycmd); }
      Go(RefSeries);
      r := Ok;
    }

    method AddReference(ref: Ref) returns (r: Outcome)
      modifies this
      ensures Answered(old(state), Reference(ref), r)
    {
      if state != RefSeries && state != RefkeySeries {
        return Error(if ref.Manpage? then IdxManpagecmd else IdxUrlcmd);
      }
      Go(RefkeySeries);
      r := Ok;
    }

    method Expand(m: Macro) returns (r: Outcome)
      modifies this
      ensures Answered(old(state), m, r)
    {
      match m
      case IndexBegin(name, title) => r := Begin(name, title);
      case IndexEnd => r := End();
      case Key(text) => r := AddKey(text);
      case Reference(ref) => r := AddReference(ref);
      case Comment(_) => r := if state == Done then Error(IdxNodonecmd) else Ok;
      case Text(text) => r := if Blank(text) then Ok else Error(IdxPlaintext);
    }

    method Format(doc: seq<Macro>) returns (r: Outcome)
      modifies this
      ensures r.Ok? <==> Accepts(doc)
      ensures Run(Step, AtBegin, doc).Failure? ==> r == Error(Run(Step, AtBegin, doc).code)
    {
      state := AtBegin;
      var i := 0;
      while i < |doc|
        invariant 0 <= i <= |doc|
        invariant Run(Step, AtBegin, doc[..i]) == Success(state)
      {
        RunSnoc(Step, AtBegin, doc[..i], doc[i]);
        assert doc[..i] + [doc[i]] == doc[..i + 1];
        r := Expand(doc[i]);
        if r.Error? {
          RunFails(Step, AtBegin, doc, i + 1);
          return;
        }
        i := i + 1;
      }
      assert doc[..i] == doc;
      r := Complete();
    }
  }

  // The language: one or more keys, each with one or more references

  datatype Entry = Entry(text: string, refs: seq<Ref>)
  datatype Index = Index(name: string, title: string, keys: seq<Entry>)

  predicate WellFormed(index: Index) {
    index.keys != [] && forall i :: 0 <= i < |index.keys| ==> index.keys[i].refs != []
  }

  function SpellRefs(refs: seq<Ref>): seq<Macro> {
    if refs == [] then [] else SpellRefs(refs[..|refs| - 1]) + [Reference(refs[|refs| - 1])]
  }

  function SpellKeys(keys: seq<Entry>): seq<Macro> {
    if keys == [] then []
    else
      var e := keys[|keys| - 1];
      SpellKeys(keys[..|keys| - 1]) + [Key(e.text)] + SpellRefs(e.refs)
  }

  function Spell(index: Index): seq<Macro> {
    [IndexBegin(index.name, index.title)] + SpellKeys(index.keys) + [IndexEnd]
  }

  datatype Partial = Start | Open(index: Index) | Whole(index: Index)

  predicate Sound(p: Partial) {
    match p
    case Start => true
    case Open(index) => forall i :: 0 <= i < |index.keys| - 1 ==> index.keys[i].refs != []
    case Whole(index) => WellFormed(index)
  }

  function SpellPartial(p: Partial): seq<Macro> {
    match p
    case Start => []
    case Open(index) => [IndexBegin(index.name, index.title)] + SpellKeys(index.keys)
    case Whole(index) => Spell(index)
  }

  function Refer(index: Index, refs: seq<Ref>): Index
    requires index.keys != []
  {
    var n := |index.keys| - 1;
    index.(keys := index.keys[..n] + [index.keys[n].(refs := index.keys[n].refs + refs)])
  }

  function Extend(p: Partial, m: Macro): Result<Partial> {
    if p.Start? && m.IndexBegin? then Success(Open(Index(m.name, m.title, [])))
    else if !p.Open? then Failure(NoTree)
    else
      var keys := p.index.keys;
      var ready := keys != [] && keys[|keys| - 1].refs != [];
      match m
      case IndexEnd => if ready then Success(Whole(p.index)) else Failure(NoTree)
      case Key(text) =>
        if keys == [] || ready then Success(Open(p.index.(keys := keys + [Entry(text, [])]))) else Failure(NoTree)
      case Reference(ref) => if keys != [] then Success(Open(Refer(p.index, [ref]))) else Failure(NoTree)
      case _ => Failure(NoTree)
  }

  function StateOf(p: Partial): State {
    match p
    case Start => AtBegin
    case Open(index) =>
      if index.keys == [] then Contents
      else if index.keys[|index.keys| - 1].refs == [] then RefSeries
      else RefkeySeries
    case Whole(_) => Done
  }

  predicate Noise(m: Macro) {
    m.Comment? || m.Text?
  }

  /** Plain text must be blank, wherever it stands; comments may stand anywhere before index_end. */
  predicate Allowed(m: Macro, finished: bool) {
    (m.Text? ==> Blank(m.text)) && (m.Comment? ==> !finished)
  }

  const INDEX := Pair(Step, Extend, StateOf, Start, p => Sound(p), (p: Partial) => p.Whole?,
                      p => SpellPartial(p), m => Noise(m), (m, f) => Allowed(m, f), (m: Macro) => m.IndexEnd?)

  lemma StepIsExtend()
    ensures Simulates(INDEX)
  {
    forall p: Partial, m: Macro | Sound(p)
      ensures Agree(INDEX, p, m)
    {
      if Extend(p, m).Success? {
        ExtendSteps(p, m);
        ExtendSpells(p, m);
      }
    }
  }

  lemma ExtendSteps(p: Partial, m: Macro)
    requires Sound(p) && Extend(p, m).Success?
    ensures Sound(Extend(p, m).value)
    ensures Step(StateOf(p), m) == Success(StateOf(Extend(p, m).value))
  {
    var q := Extend(p, m).value;
    if p.Open? && q.Open? {
      assert forall i :: 0 <= i < |p.index.keys| - 1 ==> q.index.keys[i] == p.index.keys[i];
    }
  }

  lemma ExtendSpells(p: Partial, m: Macro)
    requires Sound(p) && Extend(p, m).Success?
    ensures SpellPartial(Extend(p, m).value) == SpellPartial(p) + [m]
  {
    if m.Key? {
      var keys, after := p.index.keys, Extend(p, m).value.index.keys;
      assert after[..|keys|] == keys;
      assert SpellKeys(after) == SpellKeys(keys) + [m];
    } else if m.Reference? {
      ReferSpells(p.index, m.ref);
    }
  }

  lemma ReferSpells(index: Index, ref: Ref)
    requires index.keys != []
    ensures SpellKeys(Refer(index, [ref]).keys) == SpellKeys(index.keys) + [Reference(ref)]
  {
    var n := |index.keys| - 1;
    var after := Refer(index, [ref]).keys;
    assert after[..n] == index.keys[..n];
    assert after[n].refs[..|index.keys[n].refs|] == index.keys[n].refs;
  }

  lemma {:induction false} ParsesRefs(index: Index, refs: seq<Ref>)
    requires index.keys != []
    ensures Run(Extend, Open(index), SpellRefs(refs)) == Success(Open(Refer(index, refs)))
  {
    var n := |index.keys| - 1;
    if refs == [] {
      assert index.keys[n].refs + [] == index.keys[n].refs;
      assert index.keys[..n] + [index.keys[n]] == index.keys;
    } else {
      var init, ref := refs[..|refs| - 1], refs[|refs| - 1];
      ParsesRefs(index, init);
      RunSnoc(Extend, Open(index), SpellRefs(init), Reference(ref));
      assert index.keys[n].refs + init + [ref] == index.keys[n].refs + refs;
    }
  }

  lemma {:induction false} ParsesKeys(index: Index, keys: seq<Entry>)
    requires index.keys == [] && (forall i :: 0 <= i < |keys| ==> keys[i].refs != [])
    ensures Run(Extend, Open(index), SpellKeys(keys)) == Success(Open(index.(keys := keys)))
  {
    if keys != [] {
      var init, e := keys[..|keys| - 1], keys[|keys| - 1];
      assert init + [e] == keys;
      assert SpellKeys(keys) == SpellKeys(init) + [Key(e.text)] + SpellRefs(e.refs);
      ParsesKeys(index, init);
      ParsesEntry(index, SpellKeys(init), init, e);
    }
  }

  /** One more key with its references, after macros that made the keys so far. */
  lemma ParsesEntry(index: Index, before: seq<Macro>, keys: seq<Entry>, e: Entry)
    requires keys == [] || keys[|keys| - 1].refs != []
    requires Run(Extend, Open(index), before) == Success(Open(index.(keys := keys)))
    ensures Run(Extend, Open(index), before + [Key(e.text)] + SpellRefs(e.refs))
         == Success(Open(index.(keys := keys + [e])))
  {
    RunSnoc(Extend, Open(index), before, Key(e.text));
    assert Extend(Open(index.(keys := keys)), Key(e.text)) == Success(Open(Begun(index, keys, e.text)));
    ParsesRefs(Begun(index, keys, e.text), e.refs);
    RefersLast(index, keys, e);
    RunSplits(Extend, Open(index), before + [Key(e.text)], SpellRefs(e.refs));
  }

  /** The index with one more key, without references yet. */
  function Begun(index: Index, keys: seq<Entry>, text: string): Index {
    index.(keys := keys + [Entry(text, [])])
  }

  lemma RefersLast(index: Index, keys: seq<Entry>, e: Entry)
    ensures Refer(Begun(index, keys, e.text), e.refs) == index.(keys := keys + [e])
  {
    assert [] + e.refs == e.refs;
    assert (keys + [Entry(e.text, [])])[..|keys|] == keys;
  }

  lemma ParsesIndex(index: Index)
    requires WellFormed(index)
    ensures Run(Extend, Start, Spell(index)) == Success(Whole(index))
  {
    var first := IndexBegin(index.name, index.title);
    RunOne(Extend, Start, first);
    ParsesKeys(index.(keys := []), index.keys);
    RunSplits(Extend, Start, [first], SpellKeys(index.keys));
    RunSnoc(Extend, Start, [first] + SpellKeys(index.keys), IndexEnd);
  }

  ghost predicate IsIndexDocument(doc: seq<Macro>) {
    Quiet(INDEX, doc) && exists index :: WellFormed(index) && Strip(INDEX.noise, doc) == Spell(index)
  }

  /** The checker accepts exactly the documents that spell an index. */
  lemma Language(doc: seq<Macro>)
    ensures Accepts(doc) <==> IsIndexDocument(doc)
  {
    StepIsExtend();
    RunIsParse(INDEX, doc);
    if Accepts(doc) {
      var p := Parse(INDEX, doc).value;
      assert p.Whole?;
      assert WellFormed(p.index) && Strip(INDEX.noise, doc) == Spell(p.index);
    }
    if IsIndexDocument(doc) {
      var index :| WellFormed(index) && Strip(INDEX.noise, doc) == Spell(index);
      ParsesIndex(index);
    }
  }

  /** Each command complains with its own code. */
  lemma Refusals(s: State, m: Macro)
    requires Step(s, m).Failure?
    ensures Step(s, m).code == match m
                               case IndexBegin(_, _) => IdxBegincmd
                               case IndexEnd => IdxEndcmd
                               case Key(_) => IdxKeycmd
                               case Reference(Manpage(_, _)) => IdxManpagecmd
                               case Reference(Url(_, _)) => IdxUrlcmd
                               case Comment(_) => IdxNodonecmd
                               case Text(_) => IdxPlaintext
    ensures m.Text? ==> exists i :: 0 <= i < |m.text| && m.text[i] != ' ' && m.text[i] != '\t' && m.text[i] != '\n'
  {
  }
}
