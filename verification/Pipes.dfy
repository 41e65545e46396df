/**
 How a pipeline is wired: every process has its own descriptor table, and the
 calls that change it are map operations on that table.
 */
module Pipes {
  import opened Wrappers
  import opened Parser

  /** What a descriptor refers to: something the shell had before, an end of the pipe behind a stage, or a file. */
  datatype Handle = Inherited(id: int) | ReadEnd(stage: int) | WriteEnd(stage: int) | File(name: string, write: bool)

  type Table = map<int, Handle>

  const STDIN := 0
  const STDOUT := 1
  const STDERR := 2

  /** Every descriptor is a natural number; -1 stands for none. */
  predicate Proper(t: Table) {
    forall fd :: fd in t ==> fd >= 0
  }

  /** What became of a child: it executes its command with this table, or it has exited because a file did not open. */
  datatype Fate = Executes(table: Table) | Exits

  // ----- descriptor tables ------------------------------------------------

  function LowestFrom(t: Table, fd: int, above: set<int>): (r: int)
    requires fd >= 0 && forall k :: 0 <= k < fd ==> k in t
    requires forall k :: k in t && fd <= k ==> k in above
    ensures r >= 0 && r !in t && forall k :: 0 <= k < r ==> k in t
    decreases above
  {
    if fd !in t then fd else LowestFrom(t, fd + 1, above - {fd})
  }

  /** The descriptor the kernel hands out next: the lowest one not in use. */
  function Lowest(t: Table): (r: int)
    ensures r >= 0 && r !in t && forall k :: 0 <= k < r ==> k in t
  {
    LowestFrom(t, 0, t.Keys)
  }

  class Process {
    var table: Table

    constructor (table: Table)
      ensures this.table == table
    {
      this.table := table;
    }

    method Fork() returns (child: Process)
      ensures fresh(child) && child.table == table
    {
      child := new Process(table);
    }

    method LowestFree() returns (fd: int)
      ensures fd == Lowest(table)
    {
      fd := 0;
      ghost var above := table.Keys;
      while fd in table
        invariant 0 <= fd <= Lowest(table)
        invariant forall k :: k in table && fd <= k ==> k in above
        decreases above
      {
        above := above - {fd};
        fd := fd + 1;
      }
    }

    method Pipe(stage: int) returns (r: int, w: int)
      modifies this
      ensures r == Lowest(old(table)) && w == Lowest(old(table)[r := ReadEnd(stage)])
      ensures table == old(table)[r := ReadEnd(stage)][w := WriteEnd(stage)]
    {
      r := LowestFree();
      table := table[r := ReadEnd(stage)];
      w := LowestFree();
      table := table[w := WriteEnd(stage)];
    }

    method Open(file: Handle) returns (fd: int)
      modifies this
      ensures fd == Lowest(old(table)) && table == old(table)[fd := file]
    {
      fd := LowestFree();
      table := table[fd := file];
    }

    method Dup2(source: int, target: int)
      requires source in table
      modifies this
      ensures table == old(table)[target := old(table)[source]]
    {
      table := table[target := table[source]];
    }

    method Close(fd: int)
      modifies this
      ensures table == old(table) - {fd}
    {
      table := table - {fd};
    }

    /** Opens a file, duplicates it onto a standard stream and closes the original; false when it does not open. */
    method Redirect(file: Handle, stream: int, opens: bool) returns (ok: bool)
      modifies this
      ensures ok == opens
      ensures table == if opens then Opened(old(table), file, stream) else old(table)
    {
      if !opens {
        return false;
      }
      var fd := Open(file);
      Dup2(fd, stream);
      Close(fd);
      return true;
    }
  }

  /** A redirection leaves the stream as it was when the file lands on the stream itself: it is then closed again. */
  function Opened(t: Table, file: Handle, stream: int): Table {
    if Lowest(t) == stream then t else t[stream := file]
  }

  // ----- what a stage should execute with ---------------------------------

  function StreamOf(t: Table, stream: int): Option<Handle> {
    if stream in t then Some(t[stream]) else None
  }

  function Put(t: Table, stream: int, h: Option<Handle>): Table {
    if h.Some? then t[stream := h.value] else t - {stream}
  }

  /** A command's three streams: its own redirections first, the neighbouring pipes next, else the shell's. */
  function InputOf(base: Table, i: nat, c: Command): Option<Handle> {
    if Input in c.files then Some(File(c.files[Input], false))
    else if i > 0 then Some(ReadEnd(i - 1))
    else StreamOf(base, STDIN)
  }

  function OutputOf(base: Table, i: nat, n: nat, c: Command): Option<Handle> {
    if Output in c.files then Some(File(c.files[Output], true))
    else if i + 1 < n then Some(WriteEnd(i))
    else StreamOf(base, STDOUT)
  }

  function ErrorOf(base: Table, c: Command): Option<Handle> {
    if Error in c.files then Some(File(c.files[Error], true)) else StreamOf(base, STDERR)
  }

  /** The table stage `i` of `n` should execute with: the shell's with the three streams replaced, and nothing else. */
  function Wired(base: Table, i: nat, n: nat, c: Command): Table {
    Put(Put(Put(base, STDIN, InputOf(base, i, c)), STDOUT, OutputOf(base, i, n, c)), STDERR, ErrorOf(base, c))
  }

  /** Whether every file the command names opens. */
  predicate AllOpen(c: Command, opens: Operator -> bool) {
    forall op :: op in c.files ==> opens(op)
  }

  function FateOf(t: Table, c: Command, opens: Operator -> bool): Fate {
    if AllOpen(c, opens) then Executes(t) else Exits
  }

  // ----- what it does execute with ----------------------------------------

  /** The parent's table in front of stage `i`: its own, and the read end of the pipe before. */
  function Between(base: Table, i: int, prevReadFd: int): Table {
    if prevReadFd == -1 then base else base[prevReadFd := ReadEnd(i - 1)]
  }

  /** The table stage `i` is forked with. */
  function Forked(base: Table, i: int, prevReadFd: int, r: int, w: int): Table {
    if r == -1 then Between(base, i, prevReadFd)
    else Between(base, i, prevReadFd)[r := ReadEnd(i)][w := WriteEnd(i)]
  }

  function Connected(t: Table, i: int, prevReadFd: int, r: int): Table {
    var u := if prevReadFd == -1 then t else t[STDIN := ReadEnd(i - 1)];
    if r == -1 then u else u[STDOUT := WriteEnd(i)]
  }

  function Redirected(t: Table, c: Command): Table {
    var u := if Input in c.files then Opened(t, File(c.files[Input], false), STDIN) else t;
    var v := if Output in c.files then Opened(u, File(c.files[Output], true), STDOUT) else u;
    if Error in c.files then Opened(v, File(c.files[Error], true), STDERR) else v
  }

  /** The descriptor the parent keeps the previous pipe's read end under, and those of stage `i`'s own pipe. */
  function PrevFd(base: Table, i: nat): (r: int)
    requires Proper(base)
    ensures r !in base && r >= -1 && (r == -1 <==> i == 0)
    decreases i, 0
  {
    if i == 0 then -1 else ReadFd(base, i - 1)
  }

  function ReadFd(base: Table, i: nat): (r: int)
    requires Proper(base)
    ensures r !in base && r >= 0 && r != PrevFd(base, i)
    decreases i, 1
  {
    Lowest(Between(base, i, PrevFd(base, i)))
  }

  function WriteFd(base: Table, i: nat): (w: int)
    requires Proper(base)
    ensures w !in base && w > ReadFd(base, i) && w != PrevFd(base, i)
  {
    var t := Between(base, i, PrevFd(base, i))[ReadFd(base, i) := ReadEnd(i)];
    assert forall k :: 0 <= k <= ReadFd(base, i) ==> k in t;
    Lowest(t)
  }

  /** The table stage `i` of `n` executes with: pipe ends, then redirections, then the leftover descriptors closed. */
  function Actual(base: Table, i: nat, n: nat, c: Command): Table
    requires Proper(base)
  {
    var prev := PrevFd(base, i);
    var r, w := if i + 1 < n then ReadFd(base, i) else -1, if i + 1 < n then WriteFd(base, i) else -1;
    Redirected(Connected(Forked(base, i, prev, r, w), i, prev, r), c) - {prev, r, w}
  }

  // ----- the loop ---------------------------------------------------------

  /** The child's own work between fork and exec. */
  method RunChild(self: Process, cmd: Command, prevReadFd: int, r: int, w: int, opens: Operator -> bool,
                  ghost base: Table, ghost i: nat)
    returns (fate: Fate)
    requires Proper(base) && prevReadFd >= -1 && r >= -1 && (r == -1 <==> w == -1) && (r != -1 ==> w > 0)
    requires self.table == Forked(base, i, prevReadFd, r, w)
    requires prevReadFd in {r, w} ==> prevReadFd == -1
    modifies self
    ensures var forked := Forked(base, i, prevReadFd, r, w);
            var t := Redirected(Connected(forked, i, prevReadFd, r), cmd) - {prevReadFd, r, w};
            fate == FateOf(t, cmd, opens)
    ensures fate.Executes? <==>
              && (Input in cmd.files ==> opens(Input)) && (Output in cmd.files ==> opens(Output))
              && (Error in cmd.files ==> opens(Error))
    ensures var forked := Forked(base, i, prevReadFd, r, w);
            fate.Executes? ==>
              fate.table == Redirected(Connected(forked, i, prevReadFd, r), cmd) - {prevReadFd, r, w}
  {
    OpenIs(cmd, opens);
    ConnectPipes(self, prevReadFd, r, w, base, i);
    var ok := ApplyRedirections(self, cmd, opens);
    if !ok {
      return Exits;
    }
    CloseLeftovers(self, prevReadFd, r, w);
    return Executes(self.table);
  }

  method ConnectPipes(self: Process, prevReadFd: int, r: int, w: int, ghost base: Table, ghost i: nat)
    requires Proper(base) && prevReadFd >= -1 && r >= -1 && (r == -1 <==> w == -1) && (r != -1 ==> w > 0)
    requires self.table == Forked(base, i, prevReadFd, r, w)
    requires prevReadFd in {r, w} ==> prevReadFd == -1
    modifies self
    ensures self.table == Connected(old(self.table), i, prevReadFd, r) && Proper(self.table)
  {
    if prevReadFd != -1 {
      self.Dup2(prevReadFd, STDIN);
    }
    if r != -1 {
      self.Dup2(w, STDOUT);
    }
  }

  method ApplyRedirections(self: Process, cmd: Command, opens: Operator -> bool) returns (ok: bool)
    modifies self
    ensures ok == AllOpen(cmd, opens)
    ensures ok ==> self.table == Redirected(old(self.table), cmd)
  {
    if Input in cmd.files {
      ok := self.Redirect(File(cmd.files[Input], false), STDIN, opens(Input));
      if !ok {
        return;
      }
    }
    if Output in cmd.files {
      ok := self.Redirect(File(cmd.files[Output], true), STDOUT, opens(Output));
      if !ok {
        return;
      }
    }
    if Error in cmd.files {
      ok := self.Redirect(File(cmd.files[Error], true), STDERR, opens(Error));
      if !ok {
        return;
      }
    }
    forall op | op in cmd.files ensures opens(op) {
      match op case Input => case Output => case Error =>
    }
    return true;
  }

  method CloseLeftovers(self: Process, prevReadFd: int, r: int, w: int)
    requires Proper(self.table) && (r == -1 <==> w == -1)
    modifies self
    ensures self.table == old(self.table) - {prevReadFd, r, w}
  {
    if prevReadFd != -1 {
      self.Close(prevReadFd);
    }
    if r != -1 {
      self.Close(r);
      self.Close(w);
    }
  }

  lemma RedirectedIsProper(t: Table, c: Command)
    requires Proper(t)
    ensures Proper(Redirected(t, c))
  {
  }

  /** The pipe ends stage `i` is born with: those of its own pipe and the read end of the one before. */
  ghost predicate Carries(base: Table, i: int, table: Table) {
    forall fd :: fd in table ==>
      table[fd] in {ReadEnd(i - 1), ReadEnd(i), WriteEnd(i)} || (fd in base && table[fd] == base[fd])
  }

  /** The parent in front of stage `i`: it holds its own table and the read end of the pipe before, nothing else. */
  ghost predicate Standing(base: Table, i: nat, n: nat, prevReadFd: int, table: Table)
    requires Proper(base)
  {
    prevReadFd == (if i == n then -1 else PrevFd(base, i)) && table == Between(base, i, prevReadFd)
  }

  /** One stage: a pipe unless it is the last, a fork, and the parent's two closes. */
  method RunStage(shell: Process, cmd: Command, prevReadFd: int, i: nat, n: nat, opens: Operator -> bool,
                  ghost base: Table)
    returns (next: int, fate: Fate, ghost fork: Table)
    requires i < n && Proper(base) && Standing(base, i, n, prevReadFd, shell.table)
    modifies shell
    ensures Standing(base, i + 1, n, next, shell.table)
    ensures fate == FateOf(Actual(base, i, n, cmd), cmd, opens) && Carries(base, i, fork)
  {
    var r, w := -1, -1;
    if i < n - 1 {
      r, w := shell.Pipe(i);
      assert r == ReadFd(base, i) && w == WriteFd(base, i);
    }
    fork := shell.table;
    ForkCarries(base, i, prevReadFd, r, w);
    ParentKeeps(base, i, prevReadFd, r, w);
    var child := shell.Fork();
    fate := RunChild(child, cmd, prevReadFd, r, w, opens, base, i);
    next := CloseInParent(shell, prevReadFd, r, w);
  }

  /** The parent's half: it closes the previous read end and the write end, and keeps the new read end. */
  method CloseInParent(shell: Process, prevReadFd: int, r: int, w: int) returns (next: int)
    requires Proper(shell.table) && (r == -1 <==> w == -1)
    modifies shell
    ensures next == r && shell.table == old(shell.table) - {prevReadFd, w}
  {
    if prevReadFd != -1 {
      shell.Close(prevReadFd);
    }
    if r != -1 {
      shell.Close(w);
    }
    next := r;
  }

  lemma ForkCarries(base: Table, i: int, prevReadFd: int, r: int, w: int)
    ensures Carries(base, i, Forked(base, i, prevReadFd, r, w))
  {
  }

  lemma ParentKeeps(base: Table, i: int, prevReadFd: int, r: int, w: int)
    requires Proper(base) && prevReadFd >= -1 && r >= -1 && w >= -1
    requires prevReadFd !in base && r !in base && w !in base && (r == -1 <==> w == -1)
    requires r != -1 ==> r != w && r != prevReadFd && w != prevReadFd
    ensures var f := Forked(base, i, prevReadFd, r, w); Proper(f) && f - {prevReadFd, w} == Between(base, i + 1, r)
  {
  }

  /** The fates of all stages, given the table each of them executes with. */
  ghost predicate Ends(commands: seq<Command>, opens: nat -> Operator -> bool, fates: seq<Fate>, tables: seq<Table>) {
    |fates| == |commands| == |tables|
    && forall i :: 0 <= i < |commands| ==> fates[i] == FateOf(tables[i], commands[i], opens(i))
  }

  ghost function Actuals(base: Table, commands: seq<Command>): seq<Table>
    requires Proper(base)
  {
    seq(|commands|, i requires 0 <= i < |commands| => Actual(base, i, |commands|, commands[i]))
  }

  ghost function Wireds(base: Table, commands: seq<Command>): seq<Table> {
    seq(|commands|, i requires 0 <= i < |commands| => Wired(base, i, |commands|, commands[i]))
  }

  /** The stages started so far, when stage `j` is to execute with `tables[j]`. */
  ghost predicate Started(base: Table, tables: seq<Table>, commands: seq<Command>, opens: nat -> Operator -> bool,
                          fates: seq<Fate>, forks: seq<Table>)
  {
    && |fates| == |forks| <= |commands| == |tables|
    && (forall j :: 0 <= j < |fates| ==> fates[j] == FateOf(tables[j], commands[j], opens(j)))
    && (forall j :: 0 <= j < |forks| ==> Carries(base, j, forks[j]))
  }

  lemma OneMoreStarted(base: Table, tables: seq<Table>, commands: seq<Command>, opens: nat -> Operator -> bool,
                       fates: seq<Fate>, forks: seq<Table>, fate: Fate, fork: Table)
    requires Started(base, tables, commands, opens, fates, forks) && |fates| < |commands|
    requires var j := |fates|; fate == FateOf(tables[j], commands[j], opens(j)) && Carries(base, j, fork)
    ensures Started(base, tables, commands, opens, fates + [fate], forks + [fork])
  {
  }

  /**
   How stage `i` of `n` is to end. It executes, with its actual table, exactly
   when every file its command names opens, and exits exactly when one does not.
   When the streams suffice that table has, at 0, 1 and 2, the command's own
   redirections, else the neighbouring pipes, else the shell's streams; elsewhere
   it is the shell's.
   */
  ghost predicate StageEnds(base: Table, actual: Table, i: nat, n: nat, c: Command, opens: Operator -> bool,
                            suffice: bool, fate: Fate)
  {
    && (fate == Executes(actual) <==>
          && (Input in c.files ==> opens(Input)) && (Output in c.files ==> opens(Output))
          && (Error in c.files ==> opens(Error)))
    && (fate == Exits <==>
          || (Input in c.files && !opens(Input)) || (Output in c.files && !opens(Output))
          || (Error in c.files && !opens(Error)))
    && (suffice && fate.Executes? ==>
          var t := fate.table;
          && StreamOf(t, 0) == (if Input in c.files then Some(File(c.files[Input], false))
                                else if i > 0 then Some(ReadEnd(i - 1)) else StreamOf(base, 0))
          && StreamOf(t, 1) == (if Output in c.files then Some(File(c.files[Output], true))
                                else if i + 1 < n then Some(WriteEnd(i)) else StreamOf(base, 1))
          && StreamOf(t, 2) == (if Error in c.files then Some(File(c.files[Error], true)) else StreamOf(base, 2))
          && forall fd :: fd !in {0, 1, 2} ==> StreamOf(t, fd) == StreamOf(base, fd))
  }

  lemma OpenIs(c: Command, opens: Operator -> bool)
    ensures AllOpen(c, opens) <==>
              && (Input in c.files ==> opens(Input)) && (Output in c.files ==> opens(Output))
              && (Error in c.files ==> opens(Error))
  {
    forall op | op in c.files && (op in c.files ==> opens(op)) ensures opens(op) {
    }
    assert forall op :: op in c.files ==> op == Input || op == Output || op == Error;
  }

  lemma WiredStreams(base: Table, i: nat, n: nat, c: Command)
    ensures var t := Wired(base, i, n, c);
            && StreamOf(t, 0) == InputOf(base, i, c) && StreamOf(t, 1) == OutputOf(base, i, n, c)
            && StreamOf(t, 2) == ErrorOf(base, c)
            && forall fd :: fd !in {0, 1, 2} ==> StreamOf(t, fd) == StreamOf(base, fd)
  {
  }

  lemma StageEndsRight(base: Table, actual: Table, i: nat, n: nat, c: Command, opens: Operator -> bool, suffice: bool)
    requires suffice ==> actual == Wired(base, i, n, c)
    ensures StageEnds(base, actual, i, n, c, opens, suffice, FateOf(actual, c, opens))
  {
    OpenIs(c, opens);
    WiredStreams(base, i, n, c);
  }

  lemma StagesEnd(base: Table, commands: seq<Command>, opens: nat -> Operator -> bool, fates: seq<Fate>)
    requires Proper(base) && Ends(commands, opens, fates, Actuals(base, commands))
    ensures forall i :: 0 <= i < |commands| ==>
              StageEnds(base, Actuals(base, commands)[i], i, |commands|, commands[i], opens(i),
                        StreamsSuffice(base, commands), fates[i])
  {
    WiredExactlyWhen(base, commands);
    var tables, suffice := Actuals(base, commands), StreamsSuffice(base, commands);
    forall i | 0 <= i < |commands|
      ensures StageEnds(base, tables[i], i, |commands|, commands[i], opens(i), suffice, fates[i])
    {
      assert suffice ==> tables[i] == Wireds(base, commands)[i];
      StageEndsRight(base, tables[i], i, |commands|, commands[i], opens(i), suffice);
    }
  }

  /** The loop over the stages. `forks` records the table each child was born with. */
  method StartStages(shell: Process, commands: seq<Command>, opens: nat -> Operator -> bool)
    returns (fates: seq<Fate>, ghost forks: seq<Table>)
    requires Proper(shell.table)
    modifies shell
    ensures |forks| == |commands| && shell.table == old(shell.table)
    ensures Ends(commands, opens, fates, Actuals(old(shell.table), commands))
    ensures forall i :: 0 <= i < |commands| ==> Carries(old(shell.table), i, forks[i])
  {
    ghost var base, tables := shell.table, Actuals(shell.table, commands);
    var prevReadFd, n := -1, |commands|;
    fates, forks := [], [];
    for i := 0 to n
      invariant |fates| == i && Standing(base, i, n, prevReadFd, shell.table)
      invariant Started(base, tables, commands, opens, fates, forks)
    {
      var fate;
      ghost var fork;
      prevReadFd, fate, fork := RunStage(shell, commands[i], prevReadFd, i, n, opens(i), base);
      OneMoreStarted(base, tables, commands, opens, fates, forks, fate, fork);
      fates, forks := fates + [fate], forks + [fork];
    }
  }

  /**
   Starts every stage, whatever was open before. The parent ends with the table
   it began with, and every stage ends as it should: it executes with its actual
   table or exits for a file that does not open; and when the streams suffice
   that table is the intended one.
   */
  method ExecutePipeline(shell: Process, commands: seq<Command>, opens: nat -> Operator -> bool)
    returns (fates: seq<Fate>, ghost forks: seq<Table>)
    requires Proper(shell.table)
    modifies shell
    ensures |forks| == |commands| && shell.table == old(shell.table)
    ensures |fates| == |commands|
    ensures forall i :: 0 <= i < |commands| ==>
              StageEnds(old(shell.table), Actuals(old(shell.table), commands)[i], i, |commands|, commands[i],
                        opens(i), StreamsSuffice(old(shell.table), commands), fates[i])
    ensures forall i :: 0 <= i < |commands| ==> Carries(old(shell.table), i, forks[i])
  {
    fates, forks := StartStages(shell, commands, opens);
    StagesEnd(old(shell.table), commands, opens, fates);
  }

  // ----- when the two agree -----------------------------------------------

  /** For a command that stands alone: a redirected stream must not be the lowest descriptor free. */
  predicate SufficesAlone(base: Table, c: Command) {
    && (Input in c.files ==> STDIN in base)
    && (Output in c.files ==> STDOUT in base || STDIN !in base)
    && (Error in c.files ==> STDERR in base || STDIN !in base || (STDOUT !in base && Output !in c.files))
  }

  /** Which standard streams have to be open in front of a pipeline. */
  predicate StreamsSuffice(base: Table, commands: seq<Command>) {
    if |commands| == 1 then SufficesAlone(base, commands[0])
    else
      |commands| >= 2 ==>
        && STDIN in base && STDOUT in base
        && (STDERR in base || forall i :: 0 <= i < |commands| ==> Error !in commands[i].files)
  }

  lemma LowestStreams(t: Table)
    ensures Lowest(t) == STDIN <==> STDIN !in t
    ensures Lowest(t) == STDOUT <==> STDIN in t && STDOUT !in t
    ensures Lowest(t) == STDERR <==> STDIN in t && STDOUT in t && STDERR !in t
  {
  }

  /** What the redirections leave in each stream of a command that stands alone. */
  lemma AloneStreams(base: Table, c: Command)
    ensures var t := Redirected(base, c);
            && (Input in c.files && STDIN !in base ==> STDIN !in t)
            && (Output in c.files && STDOUT !in base && STDIN in base ==> STDOUT !in t)
            && (Error in c.files && STDERR !in base && STDIN in base && (STDOUT in base || Output in c.files) ==>
                  STDERR !in t || STDOUT !in t)
  {
    LowestStreams(base);
    var u := if Input in c.files then Opened(base, File(c.files[Input], false), STDIN) else base;
    LowestStreams(u);
    var v := if Output in c.files then Opened(u, File(c.files[Output], true), STDOUT) else u;
    LowestStreams(v);
  }

  lemma AloneIsRight(base: Table, c: Command)
    requires SufficesAlone(base, c)
    ensures Redirected(base, c) == Wired(base, 0, 1, c)
  {
    LowestStreams(base);
    var u := if Input in c.files then Opened(base, File(c.files[Input], false), STDIN) else base;
    LowestStreams(u);
    var v := if Output in c.files then Opened(u, File(c.files[Output], true), STDOUT) else u;
    LowestStreams(v);
  }

  lemma Alone(base: Table, c: Command)
    requires Proper(base)
    ensures Actual(base, 0, 1, c) == Redirected(base, c)
    ensures Redirected(base, c) == Wired(base, 0, 1, c) <==> SufficesAlone(base, c)
  {
    RedirectedIsProper(base, c);
    assert Redirected(base, c) - {-1, -1, -1} == Redirected(base, c);
    if SufficesAlone(base, c) {
      AloneIsRight(base, c);
    } else {
      AloneStreams(base, c);
      var t := Wired(base, 0, 1, c);
      assert Input in c.files ==> STDIN in t;
      assert Output in c.files ==> STDOUT in t;
      assert Error in c.files ==> STDERR in t;
      assert STDOUT in base ==> STDOUT in t;
    }
  }

  /** Without a standard input the second stage loses its own, whatever it is meant to be. */
  lemma ClosedStdinLosesThePipe(base: Table, n: nat, c: Command)
    requires Proper(base) && n >= 2 && STDIN !in base
    ensures STDIN !in Actual(base, 1, n, c)
  {
    LowestStreams(base);
    assert PrevFd(base, 1) == STDIN;
  }

  /** With one, but without a standard output, the first stage loses its output. */
  lemma ClosedStdoutLosesThePipe(base: Table, n: nat, c: Command)
    requires Proper(base) && n >= 2 && STDIN in base && STDOUT !in base
    ensures STDOUT !in Actual(base, 0, n, c)
  {
    LowestStreams(base);
    assert ReadFd(base, 0) == STDOUT;
  }

  /** With both, but without a standard error, a stage that redirects it has none. */
  lemma ClosedStderrLosesItsFile(base: Table, i: nat, n: nat, c: Command)
    requires Proper(base) && STDIN in base && STDOUT in base && STDERR !in base && Error in c.files
    ensures STDERR !in Actual(base, i, n, c)
  {
    var prev := PrevFd(base, i);
    var r, w := if i + 1 < n then ReadFd(base, i) else -1, if i + 1 < n then WriteFd(base, i) else -1;
    var t := Connected(Forked(base, i, prev, r, w), i, prev, r);
    LowestStreams(t);
    var u := if Input in c.files then Opened(t, File(c.files[Input], false), STDIN) else t;
    LowestStreams(u);
    var v := if Output in c.files then Opened(u, File(c.files[Output], true), STDOUT) else u;
    LowestStreams(v);
  }

  lemma RedirectedOver(t: Table, c: Command)
    requires STDIN in t && STDOUT in t && (Error in c.files ==> STDERR in t)
    ensures var u := if Input in c.files then t[STDIN := File(c.files[Input], false)] else t;
            var v := if Output in c.files then u[STDOUT := File(c.files[Output], true)] else u;
            Redirected(t, c) == if Error in c.files then v[STDERR := File(c.files[Error], true)] else v
  {
  }

  /** Without the leftover descriptors a stage's birth table is the shell's; they are nowhere near its streams. */
  lemma LeftoversGone(base: Table, i: nat, prev: int, r: int, w: int)
    requires Proper(base) && STDIN in base && STDOUT in base
    requires prev >= -1 && r >= -1 && w >= -1 && prev !in base && r !in base && w !in base && (r == -1 <==> w == -1)
    ensures var f := Forked(base, i, prev, r, w);
            f - {prev, r, w} == base && f[STDIN] == base[STDIN] && f[STDOUT] == base[STDOUT]
  {
  }

  /** Closing descriptors that are not among the first three streams in use commutes with replacing those streams. */
  lemma PutKeepsGone(f: Table, base: Table, gone: set<int>, i: Option<Handle>, o: Option<Handle>, e: Option<Handle>)
    requires f - gone == base && STDIN !in gone && STDOUT !in gone && (e.Some? ==> STDERR !in gone)
    ensures Put(Put(Put(f, STDIN, i), STDOUT, o), STDERR, e) - gone
            == Put(Put(Put(base, STDIN, i), STDOUT, o), STDERR, e)
  {
  }

  lemma StreamsReplaced(f: Table, base: Table, i: nat, n: nat, c: Command, prev: int, r: int)
    requires STDIN in base && STDOUT in base && (Error in c.files ==> STDERR in base)
    requires STDIN in f && STDOUT in f && f[STDIN] == base[STDIN] && f[STDOUT] == base[STDOUT]
    requires STDERR in base ==> STDERR in f && f[STDERR] == base[STDERR]
    requires (prev != -1 <==> i > 0) && (r != -1 <==> i + 1 < n)
    ensures var t := Put(Put(f, STDIN, InputOf(base, i, c)), STDOUT, OutputOf(base, i, n, c));
            Redirected(Connected(f, i, prev, r), c)
            == if Error in c.files then t[STDERR := File(c.files[Error], true)] else t
  {
    RedirectedOver(Connected(f, i, prev, r), c);
  }

  lemma StageIsRight(base: Table, i: nat, n: nat, c: Command)
    requires Proper(base) && i < n && n >= 2 && STDIN in base && STDOUT in base
    requires Error in c.files ==> STDERR in base
    ensures Actual(base, i, n, c) == Wired(base, i, n, c)
  {
    var prev := PrevFd(base, i);
    var r, w := if i + 1 < n then ReadFd(base, i) else -1, if i + 1 < n then WriteFd(base, i) else -1;
    var f := Forked(base, i, prev, r, w);
    LeftoversGone(base, i, prev, r, w);
    StreamsReplaced(f, base, i, n, c, prev, r);
    PutKeepsGone(f, base, {prev, r, w}, InputOf(base, i, c), OutputOf(base, i, n, c), ErrorOf(base, c));
    ErrorStreamKept(Put(Put(f, STDIN, InputOf(base, i, c)), STDOUT, OutputOf(base, i, n, c)), {prev, r, w}, base, c);
  }

  /** A standard error that is not redirected is the shell's: an open one untouched, a closed one a leftover or free. */
  lemma ErrorStreamKept(t: Table, gone: set<int>, base: Table, c: Command)
    requires STDERR in base ==> STDERR !in gone && STDERR in t && t[STDERR] == base[STDERR]
    requires STDERR !in base ==> STDERR in gone || STDERR !in t
    requires Error in c.files ==> STDERR in base
    ensures (if Error in c.files then t[STDERR := File(c.files[Error], true)] else t) - gone
            == Put(t, STDERR, ErrorOf(base, c)) - gone
  {
  }

  /**
   On error-free runs every stage executes with the table it should have if and
   only if the streams suffice: for two stages or more, standard input and output
   are open, and standard error is when some stage redirects it.
   */
  lemma WiredExactlyWhen(base: Table, commands: seq<Command>)
    requires Proper(base)
    ensures Actuals(base, commands) == Wireds(base, commands) <==> StreamsSuffice(base, commands)
  {
    var n, actual, wired := |commands|, Actuals(base, commands), Wireds(base, commands);
    if n == 1 {
      Alone(base, commands[0]);
      assert actual == wired <==> actual[0] == wired[0];
    } else if n >= 2 {
      if STDIN !in base {
        ClosedStdinLosesThePipe(base, n, commands[1]);
        assert STDIN in wired[1] && STDIN !in actual[1];
      } else if STDOUT !in base {
        ClosedStdoutLosesThePipe(base, n, commands[0]);
        assert STDOUT in wired[0] && STDOUT !in actual[0];
      } else if STDERR !in base && exists i :: 0 <= i < n && Error in commands[i].files {
        var i :| 0 <= i < n && Error in commands[i].files;
        ClosedStderrLosesItsFile(base, i, n, commands[i]);
        assert STDERR in wired[i] && STDERR !in actual[i];
      } else {
        forall i | 0 <= i < n ensures actual[i] == wired[i] {
          StageIsRight(base, i, n, commands[i]);
        }
      }
    }
  }

  // ----- what the wiring means --------------------------------------------

  predicate Holds(table: Table, h: Handle) {
    exists fd :: fd in table && table[fd] == h
  }

  /** Only the shell's own descriptors in front of the pipeline: no pipe end of it. */
  ghost predicate Own(base: Table) {
    forall fd :: fd in base ==> base[fd].Inherited?
  }

  /**
   Among the executing stages, the write end of pipe `k` is held by stage `k`
   alone, and only unless its output is redirected; its read end by the next
   stage alone, unless its input is. So a reader sees end-of-file as soon as the
   stage in front of it is gone.
   */
  lemma PipeEndsAreNotLeaked(base: Table, n: nat, commands: seq<Command>, k: nat, j: nat)
    requires Own(base) && |commands| == n && j < n
    ensures Holds(Wired(base, j, n, commands[j]), WriteEnd(k))
            <==> j == k && k + 1 < n && Output !in commands[k].files
    ensures Holds(Wired(base, j, n, commands[j]), ReadEnd(k))
            <==> j == k + 1 && Input !in commands[j].files
  {
    var t := Wired(base, j, n, commands[j]);
    assert StreamOf(t, STDIN) == InputOf(base, j, commands[j]);
    assert StreamOf(t, STDOUT) == OutputOf(base, j, n, commands[j]);
  }

  /** At no time, not even between fork and exec, does another stage hold the write end of pipe `k`. */
  lemma WriteEndsAreNeverInherited(base: Table, j: int, k: int, fork: Table)
    requires Own(base) && Carries(base, j, fork) && j != k
    ensures !Holds(fork, WriteEnd(k))
  {
  }

  // ----- three shells -----------------------------------------------------

  const TWO_STAGES := [Command(["a"], map[]), Command(["b"], map[])]
  const NO_STDIN: Table := map[STDOUT := Inherited(1), STDERR := Inherited(2)]
  const NO_STDOUT: Table := map[STDIN := Inherited(0), STDERR := Inherited(2)]
  const NO_STDERR: Table := map[STDIN := Inherited(0), STDOUT := Inherited(1)]

  lemma StreamsOfTwoPlainStages(base: Table)
    ensures StreamsSuffice(base, TWO_STAGES) <==> STDIN in base && STDOUT in base
  {
  }

  /** Without a standard input or output `a | b` is wired wrongly; without a standard error it is not. */
  lemma SomeShellsMiswire()
    ensures Actuals(NO_STDIN, TWO_STAGES) != Wireds(NO_STDIN, TWO_STAGES)
    ensures Actuals(NO_STDOUT, TWO_STAGES) != Wireds(NO_STDOUT, TWO_STAGES)
    ensures Actuals(NO_STDERR, TWO_STAGES) == Wireds(NO_STDERR, TWO_STAGES)
  {
    PlainStages(NO_STDIN);
    PlainStages(NO_STDOUT);
    PlainStages(NO_STDERR);
  }

  lemma PlainStages(base: Table)
    requires Proper(base)
    ensures Actuals(base, TWO_STAGES) == Wireds(base, TWO_STAGES) <==> STDIN in base && STDOUT in base
  {
    WiredExactlyWhen(base, TWO_STAGES);
    StreamsOfTwoPlainStages(base);
  }
}
