/**
 Assembling aggregations from the records that libdtrace prints: keys one by one, then the value.
 */
module Aggregations {
  import opened HandleBuffers
  import opened Machines
  import opened Outcomes

  /** A record without a description is extra white space; otherwise it is a key or, by its action, a value. */
  datatype Record = Extra(text: string) | Key(text: string) | Value(text: string)

  datatype Item = TupleItem(keys: seq<string>) | ValueItem(text: string)

  /** The pending tuple, if any, and the list of a handle. */
  datatype State = State(tuple: Option<seq<string>>, list: seq<Item>)

  /** NoResult is where trimming the text has no result in C. */
  function Handle(s: State, r: Record): Result<State> {
    match r
    case Extra(_) => Success(s)
    case Key(text) =>
      if !Trimmable(text) then Failure(NoResult) else Success(s.(tuple := Some(Pending(s) + [Cut(text)])))
    case Value(text) =>
      match s.tuple
      case None => Failure(EmptyTuple)
      case Some(keys) =>
        if !Trimmable(text) then Failure(NoResult)
        else Success(State(None, s.list + [TupleItem(keys), ValueItem(Cut(text))]))
  }

  function Pending(s: State): seq<string> {
    if s.tuple.Some? then s.tuple.value else []
  }

  class Assembler {
    var tuple: Option<seq<string>>
    var list: seq<Item>

    function Now(): State
      reads this
    {
      State(tuple, list)
    }

    constructor ()
      ensures Now() == State(None, [])
    {
      tuple, list := None, [];
    }

    /** agghandler; EmptyTuple is its panic. */
    method HandleRecord(r: Record) returns (o: Outcome)
      modifies this
      ensures match Handle(old(Now()), r)
              case Success(s) => o == Ok && Now() == s
              case Failure(code) => o == Error(code) && (code == EmptyTuple ==> Now() == old(Now()))
    {
      match r {
        case Extra(_) =>
        case Value(text) =>
          if tuple.None? { return Error(EmptyTuple); }
          list := list + [TupleItem(tuple.value)];
          var cut := CutWhiteSpace(text);
          if !cut.Kept? { return Error(NoResult); }
          list := list + [ValueItem(cut.text)];
          tuple := None;
        case Key(text) =>
          if tuple.None? {
            tuple := Some([]);
          }
          var cut := CutWhiteSpace(text);
          if !cut.Kept? { return Error(NoResult); }
          tuple := Some(tuple.value + [cut.text]);
      }
      o := Ok;
    }

    /** The aggregations command: a new list, all records of one print, the list unless the print failed. */
    method Collect(records: seq<Record>, prints: bool) returns (r: Option<seq<Item>>, o: Outcome)
      modifies this
      ensures match Run(Handle, State(old(tuple), []), records)
              case Failure(code) => o == Error(code)
              case Success(s) => o == Ok && Now() == s && r == if prints then Some(list) else None
    {
      list := [];
      ghost var start := Now();
      var i := 0;
      while i < |records|
        invariant 0 <= i <= |records|
        invariant Run(Handle, start, records[..i]) == Success(Now())
      {
        RunSnoc(Handle, start, records[..i], records[i]);
        assert records[..i] + [records[i]] == records[..i + 1];
        o := HandleRecord(records[i]);
        if o.Error? {
          RunFails(Handle, start, records, i + 1);
          return None, o;
        }
        i := i + 1;
      }
      assert records[..i] == records;
      o := Ok;
      r := if prints then Some(list) else None;
    }
  }

  // Which record sequences these are

  /** One aggregation as libdtrace prints it. */
  datatype Aggregate = Aggregate(keys: seq<string>, value: string)

  predicate Texts(keys: seq<string>) {
    forall i :: 0 <= i < |keys| ==> Trimmable(keys[i])
  }

  /** Every aggregate has a key, and all texts can be trimmed. */
  predicate Keyed(aggs: seq<Aggregate>) {
    forall i :: 0 <= i < |aggs| ==> aggs[i].keys != [] && Texts(aggs[i].keys) && Trimmable(aggs[i].value)
  }

  function SpellKeys(keys: seq<string>): seq<Record> {
    if keys == [] then [] else SpellKeys(keys[..|keys| - 1]) + [Key(keys[|keys| - 1])]
  }

  function Spell(aggs: seq<Aggregate>): seq<Record> {
    if aggs == [] then []
    else
      var a := aggs[|aggs| - 1];
      Spell(aggs[..|aggs| - 1]) + SpellKeys(a.keys) + [Value(a.value)]
  }

  function CutAll(keys: seq<string>): seq<string> {
    if keys == [] then [] else CutAll(keys[..|keys| - 1]) + [Cut(keys[|keys| - 1])]
  }

  /** The list that the command returns: each tuple of trimmed keys followed by its trimmed value. */
  function ListOf(aggs: seq<Aggregate>): seq<Item> {
    if aggs == [] then []
    else
      var a := aggs[|aggs| - 1];
      ListOf(aggs[..|aggs| - 1]) + [TupleItem(CutAll(a.keys)), ValueItem(Cut(a.value))]
  }

  /** Complete aggregates, and the keys of one still to come. */
  datatype Partial = Partial(aggs: seq<Aggregate>, keys: seq<string>)

  function Extend(p: Partial, r: Record): Result<Partial> {
    match r
    case Extra(_) => Success(p)
    case Key(text) => if Trimmable(text) then Success(p.(keys := p.keys + [text])) else Failure(NoTree)
    case Value(text) =>
      if p.keys == [] || !Trimmable(text) then Failure(NoTree)
      else Success(Partial(p.aggs + [Aggregate(p.keys, text)], []))
  }

  function StateOf(p: Partial): State {
    State(if p.keys == [] then None else Some(CutAll(p.keys)), ListOf(p.aggs))
  }

  function SpellPartial(p: Partial): seq<Record> {
    Spell(p.aggs) + SpellKeys(p.keys)
  }

  const RECORDS := Pair(Handle, Extend, StateOf, Partial([], []),
                        (p: Partial) => Keyed(p.aggs) && Texts(p.keys), (p: Partial) => false,
                        p => SpellPartial(p), (r: Record) => r.Extra?, (r: Record, f: bool) => true, (r: Record) => false)

  lemma HandleIsExtend()
    ensures Simulates(RECORDS)
  {
    forall p: Partial, r: Record | Keyed(p.aggs) && Texts(p.keys)
      ensures Agree(RECORDS, p, r)
    {
      match r
      case Extra(_) =>
      case Key(text) => KeyAgrees(p, text);
      case Value(text) => ValueAgrees(p, text);
    }
  }

  lemma KeyAgrees(p: Partial, text: string)
    requires Keyed(p.aggs) && Texts(p.keys)
    ensures Agree(RECORDS, p, Key(text))
  {
    if Trimmable(text) {
      KeyExtends(p, text);
    }
  }

  lemma ValueAgrees(p: Partial, text: string)
    requires Keyed(p.aggs) && Texts(p.keys)
    ensures Agree(RECORDS, p, Value(text))
  {
    if p.keys != [] && Trimmable(text) {
    }
  }

  lemma KeyExtends(p: Partial, text: string)
    requires Trimmable(text)
    ensures Handle(StateOf(p), Key(text)) == Success(StateOf(p.(keys := p.keys + [text])))
    ensures SpellPartial(p.(keys := p.keys + [text])) == SpellPartial(p) + [Key(text)]
  {
    assert (p.keys + [text])[..|p.keys|] == p.keys;
    assert CutAll(p.keys + [text]) == CutAll(p.keys) + [Cut(text)];
    Regroup(Spell(p.aggs), SpellKeys(p.keys), [Key(text)]);
  }

  lemma {:induction false} ParsesKeys(p: Partial, keys: seq<string>)
    requires p.keys == [] && Texts(keys)
    ensures Run(Extend, p, SpellKeys(keys)) == Success(p.(keys := keys))
  {
    if keys != [] {
      var init, k := keys[..|keys| - 1], keys[|keys| - 1];
      ParsesKeys(p, init);
      RunSnoc(Extend, p, SpellKeys(init), Key(k));
      assert init + [k] == keys;
    }
  }

  lemma {:induction false} ParsesAll(aggs: seq<Aggregate>)
    requires Keyed(aggs)
    ensures Run(Extend, Partial([], []), Spell(aggs)) == Success(Partial(aggs, []))
  {
    if aggs != [] {
      var init, a := aggs[..|aggs| - 1], aggs[|aggs| - 1];
      ParsesAll(init);
      ParsesKeys(Partial(init, []), a.keys);
      RunSplits(Extend, Partial([], []), Spell(init), SpellKeys(a.keys));
      RunSnoc(Extend, Partial([], []), Spell(init) + SpellKeys(a.keys), Value(a.value));
      assert init + [Aggregate(a.keys, a.value)] == aggs;
    }
  }

  /**
   With no tuple pending, the records are taken, with a defined result, and leave no tuple pending exactly when they
   are the records of aggregates with at least one key each and with texts that can be trimmed, with extra records
   anywhere; and then the list holds their tuples and values in order.
   */
  lemma Assembled(records: seq<Record>)
    ensures (exists list :: Run(Handle, State(None, []), records) == Success(State(None, list)))
       <==> (exists aggs :: Keyed(aggs) && Strip(RECORDS.noise, records) == Spell(aggs))
    ensures forall aggs :: Keyed(aggs) && Strip(RECORDS.noise, records) == Spell(aggs) ==>
              Run(Handle, State(None, []), records) == Success(State(None, ListOf(aggs)))
  {
    forall aggs | Keyed(aggs) && Strip(RECORDS.noise, records) == Spell(aggs)
      ensures Run(Handle, State(None, []), records) == Success(State(None, ListOf(aggs)))
    {
      TakesAll(records, aggs);
    }
    HandleIsExtend();
    RunIsParse(RECORDS, records);
    assert StateOf(Partial([], [])) == State(None, []);
    if exists list :: Run(Handle, State(None, []), records) == Success(State(None, list)) {
      var p := Parse(RECORDS, records).value;
      assert p.keys == [];
      assert Spell(p.aggs) + [] == Spell(p.aggs);
      assert Keyed(p.aggs) && Strip(RECORDS.noise, records) == Spell(p.aggs);
    }
  }

  lemma TakesAll(records: seq<Record>, aggs: seq<Aggregate>)
    requires Keyed(aggs) && Strip(RECORDS.noise, records) == Spell(aggs)
    ensures Run(Handle, State(None, []), records) == Success(State(None, ListOf(aggs)))
  {
    HandleIsExtend();
    RunIsParse(RECORDS, records);
    assert StateOf(Partial([], [])) == State(None, []);
    ParsesAll(aggs);
  }

  /** Records are taken with a defined result exactly when they are those of aggregates and of keys still to be completed. */
  lemma TakenIff(records: seq<Record>)
    ensures Run(Handle, State(None, []), records).Success?
       <==> exists aggs, keys :: Keyed(aggs) && Texts(keys) && Strip(RECORDS.noise, records) == Spell(aggs) + SpellKeys(keys)
  {
    HandleIsExtend();
    RunIsParse(RECORDS, records);
    assert StateOf(Partial([], [])) == State(None, []);
    if Run(Handle, State(None, []), records).Success? {
      var p := Parse(RECORDS, records).value;
      assert Keyed(p.aggs) && Texts(p.keys) && Strip(RECORDS.noise, records) == Spell(p.aggs) + SpellKeys(p.keys);
    }
    if aggs, keys :| Keyed(aggs) && Texts(keys) && Strip(RECORDS.noise, records) == Spell(aggs) + SpellKeys(keys) {
      ParsesAll(aggs);
      ParsesKeys(Partial(aggs, []), keys);
      RunSplits(Extend, Partial([], []), Spell(aggs), SpellKeys(keys));
    }
  }

  /** The i-th record is a value, and the records before it are those of complete aggregates. */
  ghost predicate EarlyValue(records: seq<Record>, i: nat)
    requires i < |records|
  {
    records[i].Value? && exists aggs :: Keyed(aggs) && Strip(RECORDS.noise, records[..i]) == Spell(aggs)
  }

  /** The handler panics exactly when some value comes right after complete aggregates, with nothing wrong before it. */
  lemma PanicIff(records: seq<Record>)
    ensures Run(Handle, State(None, []), records) == Failure(EmptyTuple)
       <==> exists i :: 0 <= i < |records| && EarlyValue(records, i)
  {
    if i :| 0 <= i < |records| && EarlyValue(records, i) {
      EarlyPanics(records, i);
    }
    if Run(Handle, State(None, []), records) == Failure(EmptyTuple) {
      var i := FailsAt(records);
      PanicAt(records, i);
    }
  }

  lemma EarlyPanics(records: seq<Record>, i: nat)
    requires i < |records| && EarlyValue(records, i)
    ensures Run(Handle, State(None, []), records) == Failure(EmptyTuple)
  {
    var aggs :| Keyed(aggs) && Strip(RECORDS.noise, records[..i]) == Spell(aggs);
    TakesAll(records[..i], aggs);
    StopsAt(State(None, []), records, i, State(None, ListOf(aggs)), EmptyTuple);
  }

  /** A record that is refused ends the run. */
  lemma StopsAt(s: State, records: seq<Record>, i: nat, t: State, code: Code)
    requires i < |records| && Run(Handle, s, records[..i]) == Success(t) && Handle(t, records[i]) == Failure(code)
    ensures Run(Handle, s, records) == Failure(code)
  {
    RunSnoc(Handle, s, records[..i], records[i]);
    assert records[..i + 1] == records[..i] + [records[i]];
    RunFails(Handle, s, records, i + 1);
  }

  lemma {:induction false} FailsAt(records: seq<Record>) returns (i: nat)
    requires Run(Handle, State(None, []), records) == Failure(EmptyTuple)
    ensures i < |records| && Run(Handle, State(None, []), records[..i]).Success?
    ensures Handle(Run(Handle, State(None, []), records[..i]).value, records[i]) == Failure(EmptyTuple)
  {
    var init := records[..|records| - 1];
    if Run(Handle, State(None, []), init).Success? {
      i := |init|;
    } else {
      i := FailsAt(init);
      assert init[..i] == records[..i];
    }
  }

  lemma PanicAt(records: seq<Record>, i: nat)
    requires i < |records| && Run(Handle, State(None, []), records[..i]).Success?
    requires Handle(Run(Handle, State(None, []), records[..i]).value, records[i]) == Failure(EmptyTuple)
    ensures EarlyValue(records, i)
  {
    var s := Run(Handle, State(None, []), records[..i]).value;
    assert s.tuple.None?;
    Assembled(records[..i]);
    assert s == State(None, s.list);
  }

  /** A blank key: what C does with it is not defined, and no list is promised. */
  lemma BlankKey(value: string)
    ensures Run(Handle, State(None, []), [Key(" "), Value(value)]) == Failure(NoResult)
  {
    BlankText();
    RunOne(Handle, State(None, []), Key(" "));
    assert [Key(" "), Value(value)][..1] == [Key(" ")];
  }

  // A tuple left pending

  /** A pending tuple has a key. */
  predicate Begun(s: State) {
    s.tuple.Some? ==> s.tuple.value != []
  }

  /** In every run a tuple that is pending is not empty. */
  lemma {:induction false} PendingHasKey(s: State, records: seq<Record>)
    requires Begun(s) && Run(Handle, s, records).Success?
    ensures Begun(Run(Handle, s, records).value)
  {
    if records != [] {
      PendingHasKey(s, records[..|records| - 1]);
    }
  }

  /** Two handlers on the same records, s with stale keys pending at the start: they differ in the first tuple only. */
  ghost predicate Stale(stale: seq<string>, s: State, t: State) {
    if t.list == [] then s.list == [] && s.tuple == Some(stale + Pending(t))
    else
      && s.tuple == t.tuple && |s.list| == |t.list| && s.list[1..] == t.list[1..]
      && s.list[0].TupleItem? && t.list[0].TupleItem? && s.list[0].keys == stale + t.list[0].keys
  }

  lemma {:induction false} StaleRuns(stale: seq<string>, records: seq<Record>)
    requires Run(Handle, State(None, []), records).Success?
    ensures Run(Handle, State(Some(stale), []), records).Success?
    ensures Stale(stale, Run(Handle, State(Some(stale), []), records).value, Run(Handle, State(None, []), records).value)
  {
    if records == [] {
      assert stale + [] == stale;
    } else {
      var init, r := records[..|records| - 1], records[|records| - 1];
      StaleRuns(stale, init);
      StaleStep(stale, Run(Handle, State(Some(stale), []), init).value, Run(Handle, State(None, []), init).value, r);
    }
  }

  lemma StaleStep(stale: seq<string>, s: State, t: State, r: Record)
    requires Stale(stale, s, t) && Handle(t, r).Success?
    ensures Handle(s, r).Success? && Stale(stale, Handle(s, r).value, Handle(t, r).value)
  {
    if r.Key? {
      assert stale + Pending(t) + [Cut(r.text)] == stale + (Pending(t) + [Cut(r.text)]);
    } else if r.Value? && t.list != [] {
      var more := [TupleItem(t.tuple.value), ValueItem(Cut(r.text))];
      assert (s.list + more)[1..] == s.list[1..] + more && (t.list + more)[1..] == t.list[1..] + more;
    }
  }

  /**
   A call after one that failed between a key and its value: the keys it left are put before those of the
   first tuple. The list is what it should be exactly when no tuple was left pending.
   */
  lemma MixesIffPending(tuple: Option<seq<string>>, records: seq<Record>, aggs: seq<Aggregate>)
    requires Begun(State(tuple, []))
    requires aggs != [] && Keyed(aggs) && Strip(RECORDS.noise, records) == Spell(aggs)
    ensures Run(Handle, State(tuple, []), records).Success?
    ensures Run(Handle, State(tuple, []), records).value.list == ListOf(aggs) <==> tuple.None?
  {
    Assembled(records);
    if tuple.Some? {
      StaleRuns(tuple.value, records);
      var s, clean := Run(Handle, State(tuple, []), records).value, ListOf(aggs);
      assert clean != [];
      assert |s.list[0].keys| == |tuple.value| + |clean[0].keys|;
      assert s.list[0] != clean[0];
    }
  }

  // One print after another

  /** What a print leaves in a handle that nothing is pending in. */
  function Fresh(records: seq<Record>): Result<State> {
    Run(Handle, State(None, []), records)
  }

  /** The prints of one handle, each with a new list, and the lists that they return. */
  function Prints(prints: seq<seq<Record>>): Result<(Option<seq<string>>, seq<seq<Item>>)> {
    if prints == [] then Success((None, []))
    else
      match Prints(prints[..|prints| - 1])
      case Failure(code) => Failure(code)
      case Success(before) =>
        match Run(Handle, State(before.0, []), prints[|prints| - 1])
        case Failure(code) => Failure(code)
        case Success(s) => Success((s.tuple, before.1 + [s.list]))
  }

  /** Some print left keys, and none after it had a value to take them. */
  predicate KeysLeft(prints: seq<seq<Record>>)
    requires forall i :: 0 <= i < |prints| ==> Fresh(prints[i]).Success?
  {
    exists j :: 0 <= j < |prints| && Fresh(prints[j]).value.tuple.Some?
                && forall m :: j < m < |prints| ==> Fresh(prints[m]).value.list == []
  }

  lemma KeysLeftSnoc(prints: seq<seq<Record>>, last: seq<Record>)
    requires forall i :: 0 <= i < |prints| ==> Fresh(prints[i]).Success?
    requires Fresh(last).Success?
    ensures var all := prints + [last];
            (forall i :: 0 <= i < |all| ==> Fresh(all[i]).Success?)
            && (KeysLeft(all) <==> Fresh(last).value.tuple.Some? || (Fresh(last).value.list == [] && KeysLeft(prints)))
  {
    var all := prints + [last];
    if KeysLeft(prints) && Fresh(last).value.list == [] {
      var j :| 0 <= j < |prints| && Fresh(prints[j]).value.tuple.Some?
               && forall m :: j < m < |prints| ==> Fresh(prints[m]).value.list == [];
      assert all[j] == prints[j];
    }
    if Fresh(last).value.tuple.Some? {
      assert all[|prints|] == last;
    }
    if KeysLeft(all) {
      var j :| 0 <= j < |all| && Fresh(all[j]).value.tuple.Some?
               && forall m :: j < m < |all| ==> Fresh(all[m]).value.list == [];
      if j < |prints| {
        assert all[|prints|] == last && prints[j] == all[j];
        assert forall m :: j < m < |prints| ==> prints[m] == all[m];
      }
    }
  }

  /** One print of a handle in which a tuple may be pending. */
  lemma PrintOnce(tuple: Option<seq<string>>, records: seq<Record>)
    requires Begun(State(tuple, [])) && Fresh(records).Success?
    ensures var r, clean := Run(Handle, State(tuple, []), records), Fresh(records).value;
            && r.Success? && Begun(r.value)
            && (r.value.tuple.Some? <==> clean.tuple.Some? || (clean.list == [] && tuple.Some?))
            && (r.value.list == clean.list <==> clean.list == [] || tuple.None?)
  {
    if tuple.Some? {
      StaleRuns(tuple.value, records);
      var s, clean := Run(Handle, State(tuple, []), records).value, Fresh(records).value;
      if clean.list != [] {
        assert |s.list[0].keys| == |tuple.value| + |clean.list[0].keys|;
        assert s.list[0] != clean.list[0];
      }
    }
    PendingHasKey(State(tuple, []), records);
  }

  /** All that is known of the lists of some prints, each of which has a list of its own if nothing is pending. */
  ghost predicate Listed(prints: seq<seq<Record>>)
    requires forall i :: 0 <= i < |prints| ==> Fresh(prints[i]).Success?
  {
    Prints(prints).Success?
    && var r := Prints(prints).value;
       var tuple, lists := r.0, r.1;
       && |lists| == |prints| && Begun(State(tuple, [])) && (tuple.Some? <==> KeysLeft(prints))
       && forall i :: 0 <= i < |prints| ==>
            (lists[i] == Fresh(prints[i]).value.list <==> Fresh(prints[i]).value.list == [] || !KeysLeft(prints[..i]))
  }

  /**
   Any number of prints in a row: the list of each is what it should be if and only if it is to be empty or no print
   before it left keys that are still waiting for a value.
   */
  lemma {:induction false} ListsRightIff(prints: seq<seq<Record>>)
    requires forall i :: 0 <= i < |prints| ==> Fresh(prints[i]).Success?
    ensures Listed(prints)
  {
    if prints != [] {
      var init, last := prints[..|prints| - 1], prints[|prints| - 1];
      ListsRightIff(init);
      assert prints == init + [last];
      ListedSnoc(init, last);
    }
  }

  lemma ListedSnoc(prints: seq<seq<Record>>, last: seq<Record>)
    requires (forall i :: 0 <= i < |prints| ==> Fresh(prints[i]).Success?) && Listed(prints)
    requires Fresh(last).Success?
    ensures (forall i :: 0 <= i < |prints + [last]| ==> Fresh((prints + [last])[i]).Success?) && Listed(prints + [last])
  {
    var all := prints + [last];
    KeysLeftSnoc(prints, last);
    PrintOnce(Prints(prints).value.0, last);
    assert all[..|prints|] == prints;
    forall i | 0 <= i < |prints|
      ensures all[..i] == prints[..i] && all[i] == prints[i]
    {
    }
  }
}
