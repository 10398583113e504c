/**
 The table-of-contents checker: a pushdown automaton over the doctoc macros.

 Step says what each command does to the two globals of the checker; the class holds those
 globals and changes them in place. TocGrammar says which documents this accepts.
 */
module TocChecker {
  import opened Machines
  import opened Outcomes

  datatype State =
    | AtBegin      // toc_begin
    | Contents     // contents
    | ItemSeries   // item_series
    | Division     // division: tested for, never entered
    | DivSeries    // div_series
    | DivItems     // div_items
    | AtEnd        // end
    | Done         // done
    | NoState      // the empty string that Pop would read off an empty stack

  datatype Entry = Entry(file: string, name: string, desc: string)

  datatype Macro =
    | TocBegin(name: string, title: string)
    | TocEnd
    | DivisionStart(title: string, symfile: string)
    | DivisionEnd
    | Item(entry: Entry)
    | Comment(text: string)
    | Text(text: string)

  /** The globals of the checker. The last element of the stack is its top. */
  datatype Config = Config(state: State, stack: seq<State>)

  const Initial := Config(AtBegin, [])

  function Pushed(c: Config, s: State): Config {
    Config(s, c.stack + [c.state])
  }

  function Popped(c: Config): Config {
    if c.stack == [] then Config(NoState, [])
    else Config(c.stack[|c.stack| - 1], c.stack[..|c.stack| - 1])
  }

  /** One macro. A failure leaves the globals as they were: the error is raised before any change. */
  function Step(c: Config, m: Macro): Result<Config> {
    match m
    case TocBegin(_, _) =>
      if c.state != AtBegin then Failure(TocBegincmd) else Success(c.(state := Contents))
    case TocEnd =>
      if c.state != AtEnd && c.state != ItemSeries then Failure(TocEndcmd) else Success(c.(state := Done))
    case DivisionStart(_, _) =>
      if c.state !in {Contents, DivSeries, AtEnd, Division} then Failure(TocSectcmd)
      else if c.state in {Contents, AtEnd} then Success(Pushed(c.(state := AtEnd), DivSeries))
      else Success(Pushed(c.(state := DivSeries), DivSeries))
    case DivisionEnd =>
      if c.state !in {DivItems, DivSeries} then Failure(TocSectecmd) else Success(Popped(c))
    case Item(_) =>
      if c.state !in {DivSeries, Contents, ItemSeries, DivItems} then Failure(TocItemcmd)
      else if c.state in {DivItems, DivSeries} then Success(c.(state := DivItems))
      else Success(c.(state := ItemSeries))
    case Comment(_) =>
      if c.state == Done then Failure(TocNodonecmd) else Success(c)
    case Text(text) =>
      if Blank(text) then Success(c) else Failure(TocPlaintext)
  }

  /** The run reaches the end of the document and ck_complete finds the state done. */
  predicate Accepts(doc: seq<Macro>) {
    var r := Run(Step, Initial, doc);
    r.Success? && r.value.state == Done
  }

  class Checker {
    var state: State
    var stack: seq<State>

    function Now(): Config
      reads this
    {
      Config(state, stack)
    }

    /** The command answered as Step says: same error, same new state, no change on error. */
    ghost predicate Answered(before: Config, m: Macro, r: Outcome)
      reads this
    {
      match Step(before, m)
      case Success(after) => r == Ok && Now() == after
      case Failure(code) => r == Error(code) && Now() == before
    }

    constructor ()
      ensures Now() == Initial
    {
      state, stack := AtBegin, [];
    }

    method Initialize()
      modifies this
      ensures Now() == Initial
    {
      state := AtBegin;
      stack := [];
    }

    method Complete() returns (r: Outcome)
      ensures r == if state == Done then Ok else Error(EndOpenToc)
    {
      if state == Done {
        return Ok;
      }
      r := Error(EndOpenToc);
    }

    method Go(s: State)
      modifies this`state
      ensures state == s
    {
      state := s;
    }

    method Push(s: State)
      modifies this
      ensures Now() == Pushed(old(Now()), s)
    {
      stack := stack + [state];
      state := s;
    }

    method Pop()
      modifies this
      ensures Now() == Popped(old(Now()))
    {
      if |stack| == 0 {
        state := NoState;
      } else {
        state := stack[|stack| - 1];
        stack := stack[..|stack| - 1];
      }
    }

    method Begin(name: string, title: string) returns (r: Outcome)
      modifies this
      ensures Answered(old(Now()), TocBegin(name, title), r)
    {
      if state != AtBegin { return Error(TocBegincmd); }
      Go(Contents);
      r := Ok;
    }

    method End() returns (r: Outcome)
      modifies this
      ensures Answered(old(Now()), TocEnd, r)
    {
      if state != AtEnd && state != ItemSeries { return Error(TocEndcmd); }
      Go(Done);
      r := Ok;
    }

    method StartDivision(title: string, symfile: string) returns (r: Outcome)
      modifies this
      ensures Answered(old(Now()), DivisionStart(title, symfile), r)
    {
      if state != Contents && state != DivSeries && state != AtEnd && state != Division {
        return Error(TocSectcmd);
      }
      if state == Contents || state == AtEnd {
        Go(AtEnd);
      } else {
        Go(DivSeries);
      }
      Push(DivSeries);
      r := Ok;
    }

    method EndDivision() returns (r: Outcome)
      modifies this
      ensures Answered(old(Now()), DivisionEnd, r)
    {
      if state != DivItems && state != DivSeries { return Error(TocSectecmd); }
      Pop();
      r := Ok;
    }

    method AddItem(entry: Entry) returns (r: Outcome)
      modifies this
      ensures Answered(old(Now()), Item(entry), r)
    {
      if state != DivSeries && state != Contents && state != ItemSeries && state != DivItems {
        return Error(TocItemcmd);
      }
      if state == DivItems || state == DivSeries {
        Go(DivItems);
      } else {
        Go(ItemSeries);
      }
      r := Ok;
    }

    method Expand(m: Macro) returns (r: Outcome)
      modifies this
      ensures Answered(old(Now()), m, r)
    {
      match m
      case TocBegin(name, title) => r := Begin(name, title);
      case TocEnd => r := End();
      case DivisionStart(title, symfile) => r := StartDivision(title, symfile);
      case DivisionEnd => r := EndDivision();
      case Item(entry) => r := AddItem(entry);
      case Comment(_) => r := if state == Done then Error(TocNodonecmd) else Ok;
      case Text(text) => r := if Blank(text) then Ok else Error(TocPlaintext);
    }

    /** One formatting pass: initialize, expand every macro up to the first error, complete. */
    method Format(doc: seq<Macro>) returns (r: Outcome)
      modifies this
      ensures r.Ok? <==> Accepts(doc)
      ensures match Run(Step, Initial, doc)
              case Failure(code) => r == Error(code)
              case Success(c) => Now() == c && (r == Ok || r == Error(EndOpenToc))
    {
      Initialize();
      var i := 0;
      while i < |doc|
        invariant 0 <= i <= |doc|
        invariant Run(Step, Initial, doc[..i]) == Success(Now())
      {
        RunSnoc(Step, Initial, doc[..i], doc[i]);
        assert doc[..i] + [doc[i]] == doc[..i + 1];
        r := Expand(doc[i]);
        if r.Error? {
          RunFails(Step, Initial, doc, i + 1);
          return;
        }
        i := i + 1;
      }
      assert doc[..i] == doc;
      r := Complete();
    }
  }

  /** Each command complains with its own code, and a document that stops short with that of complete. */
  lemma Refusals(c: Config, m: Macro)
    requires Step(c, m).Failure?
    ensures Step(c, m).code == match m
                               case TocBegin(_, _) => TocBegincmd
                               case TocEnd => TocEndcmd
                               case DivisionStart(_, _) => TocSectcmd
                               case DivisionEnd => TocSectecmd
                               case Item(_) => TocItemcmd
                               case Comment(_) => TocNodonecmd
                               case Text(_) => TocPlaintext
    ensures m.Text? ==> exists i :: 0 <= i < |m.text| && m.text[i] != ' ' && m.text[i] != '\t' && m.text[i] != '\n'
  {
  }
}
