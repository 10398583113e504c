/**
 The handle and program tables of the dtrace extension, and the two counters that name their entries.

 Step is the effect of one command on the tables; the Session class keeps the tables as objects that
 point at each other, as the extension does. What libdtrace answers is part of the command.
 */
module Registry {
  const INT_MAX := 0x7fff_ffff
  const INT_MIN := -0x8000_0000

  /** The counters are 32 bits wide. */
  function Incremented(i: int): int {
    if i == INT_MAX then INT_MIN else i + 1
  }

  /** A command argument as Tcl_GetIntFromObj sees it. */
  datatype Arg = NotInt | Int(n: int)

  /** Commands of this interpreter, and the two ways in which another one moves the shared counters. */
  datatype Command =
    | Open(opens: bool, setUp: bool)
    | Close(toid: Arg)
    | Compile(toid: Arg, compiles: bool)
    | Exec(pid: Arg, runs: bool)
    | Info(pid: Arg)
    | OtherOpen
    | OtherCompile

  datatype Reply =
    | Id(id: int)
    | Done
    | LibError      // libdtrace refused
    | SetupError    // an option or a handler could not be set on a handle just opened
    | BadHandle
    | BadProgram
    | StaleProgram  // the handle check after a program was found
    | Panic         // duplicate hash table entry

  /** The dtrace handle in a handle_data. */
  datatype LibHandle = Null | Opened

  /** The dtrace handle of each entry, and the entry each program points to. */
  datatype Tables = Tables(handles: map<int, LibHandle>, programs: map<int, int>, nextId: int, nextPid: int)

  const EMPTY := Tables(map[], map[], 1, 1)

  predicate Live(t: Tables, id: int) {
    id in t.handles && t.handles[id] == Opened
  }

  /** del_hd: the entry goes, and every program with it. */
  function Dropped(t: Tables, id: int): Tables {
    t.(handles := t.handles - {id}, programs := map[])
  }

  /** new_hd: a handle without dtrace handle under the next id. */
  function Entered(t: Tables, id: int): Tables {
    t.(handles := t.handles[id := Null], nextId := Incremented(id))
  }

  function Step(t: Tables, c: Command): (Tables, Reply) {
    match c
    case Open(opens, setUp) =>
      var id := t.nextId;
      var u := t.(nextId := Incremented(t.nextId));
      if id in t.handles then (u, Panic)
      else if !opens then (Dropped(u.(handles := u.handles[id := Null]), id), LibError)
      else if !setUp then (Dropped(u.(handles := u.handles[id := Opened]), id), SetupError)
      else (u.(handles := u.handles[id := Opened]), Id(id))
    case Close(toid) =>
      if toid.NotInt? || !Live(t, toid.n) then (t, BadHandle) else (Dropped(t, toid.n), Done)
    case Compile(toid, compiles) =>
      if toid.NotInt? || !Live(t, toid.n) then (t, BadHandle)
      else if !compiles then (t, LibError)
      else
        var u := t.(nextPid := Incremented(t.nextPid));
        if t.nextPid in t.programs then (u, Panic)
        else (u.(programs := u.programs[t.nextPid := toid.n]), Id(t.nextPid))
    case Exec(pid, runs) => (t, Run1(t, pid, runs))
    case Info(pid) => (t, Run1(t, pid, true))
    case OtherOpen => (t.(nextId := Incremented(t.nextId)), Done)
    case OtherCompile => (t.(nextPid := Incremented(t.nextPid)), Done)
  }

  function Run1(t: Tables, pid: Arg, runs: bool): Reply {
    if pid.NotInt? || pid.n !in t.programs then BadProgram
    else if !Live(t, t.programs[pid.n]) then StaleProgram
    else if !runs then LibError
    else Done
  }

  function After(t: Tables, cs: seq<Command>): Tables {
    if cs == [] then t else Step(After(t, cs[..|cs| - 1]), cs[|cs| - 1]).0
  }

  /** The reply to the i-th command of a run. */
  function ReplyAt(t: Tables, cs: seq<Command>, i: nat): Reply
    requires i < |cs|
  {
    Step(After(t, cs[..i]), cs[i]).1
  }

  /** Between commands: every handle is non-NULL, every program points to a handle there is, keys are below the counters. */
  predicate Sound(t: Tables) {
    && (forall id :: id in t.handles ==> t.handles[id] == Opened && 0 < id < t.nextId)
    && (forall pid :: pid in t.programs ==> t.programs[pid] in t.handles && 0 < pid < t.nextPid)
  }

  predicate Counted(t: Tables, n: nat) {
    1 <= t.nextId <= n + 1 && 1 <= t.nextPid <= n + 1
  }

  lemma StepSound(t: Tables, c: Command)
    requires Sound(t) && 1 <= t.nextId < INT_MAX && 1 <= t.nextPid < INT_MAX
    ensures Sound(Step(t, c).0) && Step(t, c).1 != Panic && Step(t, c).1 != StaleProgram
    ensures t.nextId <= Step(t, c).0.nextId <= t.nextId + 1 && t.nextPid <= Step(t, c).0.nextPid <= t.nextPid + 1
  {
    forall pid | pid in t.programs
      ensures Live(t, t.programs[pid])
    {
      assert t.programs[pid] in t.handles;
    }
  }

  lemma {:induction false} RunSound(cs: seq<Command>)
    requires |cs| < INT_MAX
    ensures Sound(After(EMPTY, cs)) && Counted(After(EMPTY, cs), |cs|)
  {
    if cs != [] {
      RunSound(cs[..|cs| - 1]);
      StepSound(After(EMPTY, cs[..|cs| - 1]), cs[|cs| - 1]);
    }
  }

  /**
   No dangling programs: in any run too short to use up a counter, no command panics and no program
   that is found points to a dead handle.
   */
  lemma NoDanglingPrograms(cs: seq<Command>, i: nat)
    requires |cs| < INT_MAX && i < |cs|
    ensures ReplyAt(EMPTY, cs, i) != Panic && ReplyAt(EMPTY, cs, i) != StaleProgram
  {
    RunSound(cs[..i]);
    StepSound(After(EMPTY, cs[..i]), cs[i]);
  }

  lemma {:induction false} CountersGrow(cs: seq<Command>, i: nat)
    requires |cs| < INT_MAX && i <= |cs|
    ensures After(EMPTY, cs[..i]).nextId <= After(EMPTY, cs).nextId
    ensures After(EMPTY, cs[..i]).nextPid <= After(EMPTY, cs).nextPid
  {
    if i < |cs| {
      var init := cs[..|cs| - 1];
      CountersGrow(init, i);
      assert init[..i] == cs[..i];
      RunSound(init);
      StepSound(After(EMPTY, init), cs[|cs| - 1]);
    } else {
      assert cs[..i] == cs;
    }
  }

  /** No id is handed out twice: a later handle has a greater id than an earlier one, and so with programs. */
  lemma IdsFresh(cs: seq<Command>, i: nat, j: nat)
    requires |cs| < INT_MAX && i < j < |cs|
    requires ReplyAt(EMPTY, cs, i).Id? && ReplyAt(EMPTY, cs, j).Id?
    requires cs[i].Open? <==> cs[j].Open?
    ensures ReplyAt(EMPTY, cs, i).id < ReplyAt(EMPTY, cs, j).id
  {
    RunSound(cs[..i]);
    CountersGrow(cs[..j], i + 1);
    assert cs[..j][..i + 1] == cs[..i + 1] && cs[..i + 1][..i] == cs[..i];
  }

  // How long a handle and a program can be used

  predicate Closes(t: Tables, c: Command, id: int) {
    c == Close(Int(id)) && Step(t, c).1 == Done
  }

  /** A close that succeeds, or an open that fails. */
  predicate Forgets(t: Tables, c: Command) {
    (c.Close? && Step(t, c).1 == Done) || (c.Open? && !Step(t, c).1.Id?)
  }

  /** The tables before the i-th command of a run. */
  function Before(cs: seq<Command>, i: nat): Tables
    requires i <= |cs|
  {
    After(EMPTY, cs[..i])
  }

  lemma BeforeNext(cs: seq<Command>, i: nat)
    requires i < |cs|
    ensures Before(cs, i + 1) == Step(Before(cs, i), cs[i]).0
    ensures ReplyAt(EMPTY, cs, i) == Step(Before(cs, i), cs[i]).1
    ensures |cs| < INT_MAX ==> Sound(Before(cs, i)) && Counted(Before(cs, i), i)
  {
    assert cs[..i + 1][..i] == cs[..i];
    if |cs| < INT_MAX {
      RunSound(cs[..i]);
    }
  }

  /** The k-th command closes the handle. */
  predicate ClosedAt(cs: seq<Command>, k: nat, id: int)
    requires k < |cs|
  {
    Closes(Before(cs, k), cs[k], id)
  }

  predicate ForgottenAt(cs: seq<Command>, k: nat)
    requires k < |cs|
  {
    Forgets(Before(cs, k), cs[k])
  }

  /** The handle is there, or can never come back. */
  lemma HandleNext(cs: seq<Command>, k: nat, id: int)
    requires |cs| < INT_MAX && k < |cs| && id < Before(cs, k).nextId
    ensures id < Before(cs, k + 1).nextId
    ensures id in Before(cs, k + 1).handles <==> id in Before(cs, k).handles && !ClosedAt(cs, k, id)
  {
    BeforeNext(cs, k);
  }

  lemma ProgramNext(cs: seq<Command>, k: nat, pid: int)
    requires |cs| < INT_MAX && k < |cs| && pid < Before(cs, k).nextPid
    ensures pid < Before(cs, k + 1).nextPid
    ensures pid in Before(cs, k + 1).programs <==> pid in Before(cs, k).programs && !ForgottenAt(cs, k)
  {
    BeforeNext(cs, k);
  }

  lemma Registered(cs: seq<Command>, i: nat, id: int)
    requires |cs| < INT_MAX && i < |cs| && ReplyAt(EMPTY, cs, i) == Id(id)
    ensures cs[i].Open? ==> id in Before(cs, i + 1).handles && id < Before(cs, i + 1).nextId
    ensures cs[i].Compile? ==> id in Before(cs, i + 1).programs && id < Before(cs, i + 1).nextPid
  {
    BeforeNext(cs, i);
  }

  lemma {:induction false} HandleTrace(cs: seq<Command>, i: nat, j: nat, id: int)
    requires |cs| < INT_MAX && i <= j <= |cs| && id in Before(cs, i).handles && id < Before(cs, i).nextId
    ensures id < Before(cs, j).nextId
    ensures id in Before(cs, j).handles <==> forall k :: i <= k < j ==> !ClosedAt(cs, k, id)
  {
    if j > i {
      HandleTrace(cs, i, j - 1, id);
      HandleNext(cs, j - 1, id);
    }
  }

  lemma {:induction false} ProgramTrace(cs: seq<Command>, i: nat, j: nat, pid: int)
    requires |cs| < INT_MAX && i <= j <= |cs| && pid in Before(cs, i).programs && pid < Before(cs, i).nextPid
    ensures pid < Before(cs, j).nextPid
    ensures pid in Before(cs, j).programs <==> forall k :: i <= k < j ==> !ForgottenAt(cs, k)
  {
    if j > i {
      ProgramTrace(cs, i, j - 1, pid);
      ProgramNext(cs, j - 1, pid);
    }
  }

  /** A handle can be used exactly until it is closed, whatever happens to others; a closed one never comes back. */
  lemma HandleUsableIff(cs: seq<Command>, i: nat, j: nat, id: int)
    requires |cs| < INT_MAX && i < j < |cs| && cs[i].Open? && ReplyAt(EMPTY, cs, i) == Id(id)
    requires cs[j] == Close(Int(id)) || cs[j] == Compile(Int(id), true)
    ensures ReplyAt(EMPTY, cs, j) != BadHandle <==> forall k :: i < k < j ==> !ClosedAt(cs, k, id)
  {
    Registered(cs, i, id);
    HandleTrace(cs, i + 1, j, id);
    BeforeNext(cs, j);
  }

  /** A program can be used exactly until some handle is closed, its own or another one, or fails to open. */
  lemma ProgramUsableIff(cs: seq<Command>, i: nat, j: nat, pid: int)
    requires |cs| < INT_MAX && i < j < |cs| && cs[i].Compile? && ReplyAt(EMPTY, cs, i) == Id(pid)
    requires cs[j] == Exec(Int(pid), true) || cs[j] == Info(Int(pid))
    ensures ReplyAt(EMPTY, cs, j) == Done <==> forall k :: i < k < j ==> !ForgottenAt(cs, k)
  {
    Registered(cs, i, pid);
    ProgramTrace(cs, i + 1, j, pid);
    BeforeNext(cs, j);
    StepSound(Before(cs, j), cs[j]);
  }

  // Tables and replies in terms of the commands alone

  /** How many handles were opened or tried, by anyone. */
  function Opens(cs: seq<Command>): nat {
    if cs == [] then 0
    else
      var c := cs[|cs| - 1];
      Opens(cs[..|cs| - 1]) + if c.Open? || c.OtherOpen? then 1 else 0
  }

  /** The k-th command opened the handle and set it up. Its id is the number of that open. */
  predicate OpenedAt(cs: seq<Command>, k: nat, id: int)
    requires k < |cs|
  {
    cs[k] == Open(true, true) && id == 1 + Opens(cs[..k])
  }

  /** The handle was opened and not closed since. */
  ghost predicate Usable(cs: seq<Command>, id: int) {
    exists k :: 0 <= k < |cs| && OpenedAt(cs, k, id) && NotClosed(cs, k, id)
  }

  predicate NotClosed(cs: seq<Command>, k: nat, id: int) {
    forall m :: k < m < |cs| ==> cs[m] != Close(Int(id))
  }

  ghost predicate Names(cs: seq<Command>, toid: Arg) {
    toid.Int? && Usable(cs, toid.n)
  }

  /** How many programs were compiled, by anyone. */
  ghost function Compiles(cs: seq<Command>): nat {
    if cs == [] then 0
    else
      var init, c := cs[..|cs| - 1], cs[|cs| - 1];
      Compiles(init) + if c.OtherCompile? || (c.Compile? && c.compiles && Names(init, c.toid)) then 1 else 0
  }

  /** After cs the command closes some handle, or fails to open one. */
  ghost predicate Clears(cs: seq<Command>, c: Command) {
    (c.Close? && Names(cs, c.toid)) || (c.Open? && !(c.opens && c.setUp))
  }

  /** The k-th command compiled the program for the handle. */
  ghost predicate CompiledAt(cs: seq<Command>, k: nat, pid: int, id: int)
    requires k < |cs|
  {
    cs[k] == Compile(Int(id), true) && Usable(cs[..k], id) && pid == 1 + Compiles(cs[..k])
  }

  /** The program was compiled for the handle, and since then no handle was closed and none failed to open. */
  ghost predicate Program(cs: seq<Command>, pid: int, id: int) {
    exists k :: 0 <= k < |cs| && CompiledAt(cs, k, pid, id) && NotCleared(cs, k)
  }

  ghost predicate NotCleared(cs: seq<Command>, k: nat) {
    forall m :: k < m < |cs| ==> !Clears(cs[..m], cs[m])
  }

  lemma UsableSnoc(cs: seq<Command>, c: Command, id: int)
    ensures Usable(cs + [c], id)
       <==> (c == Open(true, true) && id == 1 + Opens(cs)) || (Usable(cs, id) && c != Close(Int(id)))
  {
    var all, n := cs + [c], |cs|;
    assert all[..n] == cs && all[n] == c;
    if Usable(cs, id) && c != Close(Int(id)) {
      var k :| 0 <= k < n && OpenedAt(cs, k, id) && NotClosed(cs, k, id);
      StillNotClosed(cs, c, k, id);
      assert OpenedAt(all, k, id);
    }
    if c == Open(true, true) && id == 1 + Opens(cs) {
      assert OpenedAt(all, n, id) && NotClosed(all, n, id);
    }
    if Usable(all, id) {
      var k :| 0 <= k < |all| && OpenedAt(all, k, id) && NotClosed(all, k, id);
      if k < n {
        StillNotClosed(cs, c, k, id);
        assert OpenedAt(cs, k, id);
      }
    }
  }

  lemma StillNotClosed(cs: seq<Command>, c: Command, k: nat, id: int)
    requires k < |cs|
    ensures NotClosed(cs + [c], k, id) <==> NotClosed(cs, k, id) && c != Close(Int(id))
    ensures (cs + [c])[k] == cs[k] && (cs + [c])[..k] == cs[..k]
  {
    var all, n := cs + [c], |cs|;
    assert all[n] == c && forall m :: 0 <= m < n ==> all[m] == cs[m];
  }

  lemma ProgramSnoc(cs: seq<Command>, c: Command, pid: int, id: int)
    ensures Program(cs + [c], pid, id)
       <==> (c == Compile(Int(id), true) && Usable(cs, id) && pid == 1 + Compiles(cs))
            || (Program(cs, pid, id) && !Clears(cs, c))
  {
    var all, n := cs + [c], |cs|;
    assert all[..n] == cs && all[n] == c;
    if Program(cs, pid, id) && !Clears(cs, c) {
      var k :| 0 <= k < n && CompiledAt(cs, k, pid, id) && NotCleared(cs, k);
      StillNotCleared(cs, c, k);
      assert CompiledAt(all, k, pid, id);
    }
    if c == Compile(Int(id), true) && Usable(cs, id) && pid == 1 + Compiles(cs) {
      assert CompiledAt(all, n, pid, id) && NotCleared(all, n);
    }
    if Program(all, pid, id) {
      var k :| 0 <= k < |all| && CompiledAt(all, k, pid, id) && NotCleared(all, k);
      if k < n {
        StillNotCleared(cs, c, k);
        assert CompiledAt(cs, k, pid, id);
      }
    }
  }

  lemma StillNotCleared(cs: seq<Command>, c: Command, k: nat)
    requires k < |cs|
    ensures NotCleared(cs + [c], k) <==> NotCleared(cs, k) && !Clears(cs, c)
    ensures (cs + [c])[k] == cs[k] && (cs + [c])[..k] == cs[..k]
  {
    var all, n := cs + [c], |cs|;
    assert all[..n] == cs && all[n] == c;
    assert forall m :: 0 <= m < n ==> all[m] == cs[m] && all[..m] == cs[..m];
  }

  /** The tables are those of the commands. */
  ghost predicate Recorded(t: Tables, cs: seq<Command>) {
    && t.nextId == 1 + Opens(cs) && t.nextPid == 1 + Compiles(cs)
    && (forall id :: id in t.handles <==> Usable(cs, id))
    && (forall pid, id :: pid in t.programs && t.programs[pid] == id <==> Program(cs, pid, id))
  }

  lemma StepRecorded(t: Tables, cs: seq<Command>, c: Command)
    requires Sound(t) && Recorded(t, cs) && 1 <= t.nextId < INT_MAX && 1 <= t.nextPid < INT_MAX
    ensures Recorded(Step(t, c).0, cs + [c])
  {
    assert (cs + [c])[..|cs|] == cs;
    forall id
      ensures id in Step(t, c).0.handles <==> Usable(cs + [c], id)
    {
      UsableSnoc(cs, c, id);
      StepHandles(t, cs, c, id);
    }
    forall pid, id
      ensures var u := Step(t, c).0; pid in u.programs && u.programs[pid] == id <==> Program(cs + [c], pid, id)
    {
      ProgramSnoc(cs, c, pid, id);
      StepPrograms(t, cs, c, pid, id);
    }
    StepCounters(t, cs, c);
  }

  lemma StepHandles(t: Tables, cs: seq<Command>, c: Command, id: int)
    requires Sound(t) && Recorded(t, cs)
    ensures id in Step(t, c).0.handles
       <==> (c == Open(true, true) && id == 1 + Opens(cs)) || (Usable(cs, id) && c != Close(Int(id)))
  {
  }

  lemma StepPrograms(t: Tables, cs: seq<Command>, c: Command, pid: int, id: int)
    requires Sound(t) && Recorded(t, cs)
    ensures (pid in Step(t, c).0.programs && Step(t, c).0.programs[pid] == id)
       <==> (c == Compile(Int(id), true) && Usable(cs, id) && pid == 1 + Compiles(cs))
            || (Program(cs, pid, id) && !Clears(cs, c))
  {
  }

  lemma StepCounters(t: Tables, cs: seq<Command>, c: Command)
    requires Sound(t) && Recorded(t, cs) && 1 <= t.nextId < INT_MAX && 1 <= t.nextPid < INT_MAX
    ensures var u := Step(t, c).0; u.nextId == 1 + Opens(cs + [c]) && u.nextPid == 1 + Compiles(cs + [c])
  {
    assert (cs + [c])[..|cs|] == cs;
  }

  /** In every run below the width of the counters the tables hold exactly what the commands say. */
  lemma {:induction false} RunRecorded(cs: seq<Command>)
    requires |cs| < INT_MAX
    ensures Recorded(After(EMPTY, cs), cs)
  {
    if cs != [] {
      var init, c := cs[..|cs| - 1], cs[|cs| - 1];
      RunRecorded(init);
      RunSound(init);
      assert init + [c] == cs;
      StepRecorded(After(EMPTY, init), init, c);
    }
  }

  /** What a command replies, by the commands before it. */
  ghost function Answer(cs: seq<Command>, c: Command): Reply {
    match c
    case Open(opens, setUp) => if !opens then LibError else if !setUp then SetupError else Id(1 + Opens(cs))
    case Close(toid) => if Names(cs, toid) then Done else BadHandle
    case Compile(toid, compiles) =>
      if !Names(cs, toid) then BadHandle else if compiles then Id(1 + Compiles(cs)) else LibError
    case Exec(pid, runs) =>
      if pid.Int? && exists id :: Program(cs, pid.n, id) then (if runs then Done else LibError) else BadProgram
    case Info(pid) => if pid.Int? && exists id :: Program(cs, pid.n, id) then Done else BadProgram
    case OtherOpen => Done
    case OtherCompile => Done
  }

  /** Every reply in every such run. */
  lemma Replies(cs: seq<Command>, i: nat)
    requires |cs| < INT_MAX && i < |cs|
    ensures ReplyAt(EMPTY, cs, i) == Answer(cs[..i], cs[i])
  {
    var t := After(EMPTY, cs[..i]);
    RunRecorded(cs[..i]);
    RunSound(cs[..i]);
    StepSound(t, cs[i]);
    var c := cs[i];
    if (c.Exec? || c.Info?) && c.pid.Int? {
      ProgramKnown(t, cs[..i], c.pid.n);
    }
  }

  lemma ProgramKnown(t: Tables, cs: seq<Command>, pid: int)
    requires Recorded(t, cs)
    ensures pid in t.programs <==> exists id :: Program(cs, pid, id)
  {
    if pid in t.programs {
      assert Program(cs, pid, t.programs[pid]);
    }
  }

  /** Where an id is taken, a new entry panics. It counts on all the same, and from the largest number to the smallest. */
  lemma Taken(t: Tables, toid: int)
    ensures t.nextId in t.handles ==>
              Step(t, Open(true, true)) == (t.(nextId := Step(t, OtherOpen).0.nextId), Panic)
    ensures Live(t, toid) && t.nextPid in t.programs ==>
              Step(t, Compile(Int(toid), true)) == (t.(nextPid := Step(t, OtherCompile).0.nextPid), Panic)
    ensures Step(t, OtherOpen).0.nextId == if t.nextId == 2147483647 then -2147483648 else t.nextId + 1
    ensures Step(t, OtherCompile).0.nextPid == if t.nextPid == 2147483647 then -2147483648 else t.nextPid + 1
  {
  }

  // The tables as objects

  class HandleData {
    ghost const id: int  // the entry under which the handle was registered
    var handle: LibHandle

    constructor (ghost id: int)
      ensures this.id == id && handle == Null
    {
      this.id := id;
      handle := Null;
    }
  }

  class ProgramData {
    const hd: HandleData

    constructor (hd: HandleData)
      ensures this.hd == hd
    {
      this.hd := hd;
    }
  }

  class Session {
    var handles: map<int, HandleData>
    var programs: map<int, ProgramData>
    var nextFreeId: int
    var nextFreePid: int

    /** Every entry is the object registered under its id, and every program's handle is in the table. */
    ghost predicate Valid()
      reads this
    {
      && (forall id :: id in handles ==> handles[id].id == id)
      && (forall pid :: pid in programs ==> InTable(programs[pid].hd))
    }

    ghost predicate InTable(hd: HandleData)
      reads this
    {
      hd.id in handles && handles[hd.id] == hd
    }

    ghost function Now(): Tables
      reads this, handles.Values
    {
      Tables(map id | id in handles :: handles[id].handle,
             map pid | pid in programs :: programs[pid].hd.id,
             nextFreeId, nextFreePid)
    }

    constructor ()
      ensures Valid() && Now() == EMPTY
    {
      handles, programs, nextFreeId, nextFreePid := map[], map[], 1, 1;
    }

    method GetHd(toid: Arg) returns (hd: HandleData?)
      ensures if toid.Int? && toid.n in handles then hd == handles[toid.n] else hd == null
    {
      hd := null;
      if toid.Int? && toid.n in handles {
        hd := handles[toid.n];
      }
    }

    method DelHd(id: int)
      requires Valid() && id in handles
      modifies this
      ensures Valid() && handles == old(handles) - {id} && programs == map[]
      ensures Now() == Dropped(old(Now()), id)
    {
      handles := handles - {id};
      programs := map[];
    }

    /** Registers a zeroed handle under the next id; null where that entry exists already. */
    method NewHd() returns (id: int, hd: HandleData?)
      requires Valid()
      modifies this
      ensures Valid() && id == old(nextFreeId) && nextFreeId == Incremented(id) && nextFreePid == old(nextFreePid)
      ensures programs == old(programs)
      ensures hd == null <==> id in old(handles)
      ensures hd == null ==> handles == old(handles) && Now() == old(Now()).(nextId := Incremented(id))
      ensures hd != null ==> fresh(hd) && hd.id == id && hd.handle == Null && handles == old(handles)[id := hd]
      ensures hd != null ==> Now() == Entered(old(Now()), id)
    {
      ghost var before := Now();
      id := nextFreeId;
      nextFreeId := Incremented(nextFreeId);
      var h := new HandleData(id);
      assert Now().handles == before.handles && Now().programs == before.programs;
      if id in handles { return id, null; }
      handles := handles[id := h];
      hd := h;
    }

    /** The dtrace handle of an entry is stored. */
    method SetHandle(id: int, hd: HandleData, handle: LibHandle)
      requires Valid() && id in handles && handles[id] == hd
      modifies hd
      ensures hd.handle == handle && Valid() && Now() == old(Now()).(handles := old(Now()).handles[id := handle])
    {
      assert forall k :: k in handles && k != id ==> handles[k].id != hd.id;
      hd.handle := handle;
    }

    method OpenHandle(opens: bool, setUp: bool) returns (r: Reply)
      requires Valid()
      modifies this
      ensures Valid()
      ensures Now() == Step(old(Now()), Open(opens, setUp)).0 && r == Step(old(Now()), Open(opens, setUp)).1
    {
      ghost var before := Now().handles;
      var id, hd := NewHd();
      if hd == null { return Panic; }
      SetHandle(id, hd, if opens then Opened else Null);
      assert before[id := Null][id := hd.handle] == before[id := hd.handle];
      if !opens || !setUp {
        DelHd(id);
        return if opens then SetupError else LibError;
      }
      r := Id(id);
    }

    method CloseHandle(toid: Arg) returns (r: Reply)
      requires Valid()
      modifies this, handles.Values
      ensures Valid() && Now() == Step(old(Now()), Close(toid)).0 && r == Step(old(Now()), Close(toid)).1
    {
      var hd := GetHd(toid);
      if hd == null || hd.handle == Null { return BadHandle; }
      assert forall k :: k in handles && k != toid.n ==> handles[k].id != hd.id;
      hd.handle := Null;
      DelHd(toid.n);
      assert Now().handles == old(Now()).handles - {toid.n};
      r := Done;
    }

    /** Registers a program for the handle under the next id. */
    method RegisterPd(hd: HandleData) returns (r: Reply)
      requires Valid() && InTable(hd)
      modifies this
      ensures Valid()
      ensures var t := old(Now());
              var u := t.(nextPid := Incremented(t.nextPid));
              if t.nextPid in t.programs then Now() == u && r == Panic
              else Now() == u.(programs := u.programs[t.nextPid := hd.id]) && r == Id(t.nextPid)
    {
      var pd := new ProgramData(hd);
      var id := nextFreePid;
      nextFreePid := Incremented(nextFreePid);
      assert Now().handles == old(Now()).handles && Now().programs == old(Now()).programs;
      if id in programs { return Panic; }
      programs := programs[id := pd];
      assert Now().handles == old(Now()).handles && Now().programs == old(Now()).programs[id := hd.id];
      r := Id(id);
    }

    method CompileProgram(toid: Arg, compiles: bool) returns (r: Reply)
      requires Valid()
      modifies this
      ensures Valid() && Now() == Step(old(Now()), Compile(toid, compiles)).0
      ensures r == Step(old(Now()), Compile(toid, compiles)).1
    {
      var hd := GetHd(toid);
      if hd == null || hd.handle == Null { return BadHandle; }
      if !compiles { return LibError; }
      r := RegisterPd(hd);
    }

    method ExecOrInfo(pid: Arg, exec: bool, runs: bool) returns (r: Reply)
      requires Valid()
      ensures r == Step(Now(), if exec then Exec(pid, runs) else Info(pid)).1
    {
      if pid.NotInt? || pid.n !in programs { return BadProgram; }
      var hd := programs[pid.n].hd;
      assert InTable(hd) && Now().programs[pid.n] == hd.id && Now().handles[hd.id] == hd.handle;
      if hd.handle == Null { return StaleProgram; }
      if exec && !runs { return LibError; }
      r := Done;
    }
  }
}
