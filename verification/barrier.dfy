/**
  The bookkeeping that lets a print of the tree run while no other command
  changes it (server/main.c, applyCommands). Two shared variables, the flag
  `print` (OFF or WAITING) and the counter `threadsRunning`, change only
  inside three critical sections of a worker:

  - entry: wait while a print is waiting, then count the command unless it
    is a lookup or a print;
  - print: announce the print, wait until at most one command is counted,
    print the tree while still holding the mutex, then switch the flag off;
  - completion: uncount the command, and wake a waiting print once the
    counter reaches zero.

  A condition wait releases the mutex, so the print section falls into two
  atomic steps: the announcement, and the print once the wait is over. Each
  wait loop becomes the condition under which its step can be taken.

  The specification is a step function on the shared state, together with a
  ghost record of the opcodes of the commands that are past entry and not yet
  complete. `PrintGate` is the shared state itself, updated in place.
*/
module Barrier {

  import opened Wrappers

  /** The two values of `print`: OFF and WAITING. */
  datatype Flag = Off | Waiting

  /** The shared variables `print` and `threadsRunning`. */
  datatype State = State(printFlag: Flag, threadsRunning: int)

  /** One atomic step of one worker on the shared variables. */
  datatype Step =
    | Entry(op: char)       // the entry section, for a command with opcode `op`
    | Announce              // a print sets the flag and starts to wait
    | Print                 // a print whose wait is over prints and switches the flag off
    | Completion(op: char)  // the completion section, for a command with opcode `op`

  /** A command is counted in `threadsRunning` unless it is a lookup or a print. */
  predicate Counted(op: char) {
    op != 'l' && op != 'p'
  }

  /** What one step does to the shared variables. */
  function Next(s: State, step: Step): State {
    match step
    case Entry(op) => if Counted(op) then s.(threadsRunning := s.threadsRunning + 1) else s
    case Announce => s.(printFlag := Waiting)
    case Print => s.(printFlag := Off)
    case Completion(op) => if Counted(op) then s.(threadsRunning := s.threadsRunning - 1) else s
  }

  /** Whether the completion that led to `s` signals `canPrint`: the counter is zero and a print is waiting. */
  predicate Signals(s: State) {
    s.threadsRunning == 0 && s.printFlag == Waiting
  }

  // ---------------------------------------------------------------------------
  // Traces of steps

  /** The shared state and the opcodes of the commands between their entry and their completion. */
  datatype Config = Config(state: State, active: multiset<char>)

  /** Before any worker has taken a step: the flag is off and nothing is counted. */
  const Start: Config := Config(State(Off, 0), multiset{})

  /**
    When a step can be taken: an entry only while no print is waiting; an
    announcement and a print only by a print command that has entered, the
    print once at most one command is counted; a completion only by a
    command that has entered.
  */
  predicate Enabled(c: Config, step: Step) {
    match step
    case Entry(_) => c.state.printFlag == Off
    case Announce => 'p' in c.active
    case Print => 'p' in c.active && c.state.threadsRunning <= 1
    case Completion(op) => op in c.active
  }

  /** The configuration after a step. */
  function After(c: Config, step: Step): Config {
    var active :=
      match step
      case Entry(op) => c.active + multiset{op}
      case Completion(op) => c.active - multiset{op}
      case _ => c.active;
    Config(Next(c.state, step), active)
  }

  /** The configuration a sequence of steps leads to, or None when one of them cannot be taken. */
  function Run(c: Config, steps: seq<Step>): Option<Config>
    decreases |steps|
  {
    if steps == [] then Some(c)
    else if !Enabled(c, steps[0]) then None
    else Run(After(c, steps[0]), steps[1..])
  }

  /** The number of active commands that are counted. */
  function Mutators(m: multiset<char>): int {
    |m| - m['l'] - m['p']
  }

  /** The counter holds exactly the number of active commands that are counted. */
  predicate Inv(c: Config) {
    c.state.threadsRunning == Mutators(c.active)
  }

  // ---------------------------------------------------------------------------
  // What each step does

  /** Entry changes only the counter, and raises it by one exactly for a counted opcode. */
  lemma EntryCountsMutators(s: State, op: char)
    ensures Next(s, Entry(op)).printFlag == s.printFlag
    ensures Counted(op) <==> Next(s, Entry(op)).threadsRunning == s.threadsRunning + 1
    ensures !Counted(op) <==> Next(s, Entry(op)) == s
  {
  }

  /** Completion undoes the entry of the same opcode, whatever came in between on the flag. */
  lemma CompletionUndoesEntry(s: State, op: char, f: Flag)
    ensures Next(Next(s, Entry(op)).(printFlag := f), Completion(op)) == s.(printFlag := f)
  {
  }

  /** A print announces itself and ends with the flag off, the counter untouched. */
  lemma PrintKeepsCounter(s: State)
    ensures Next(s, Announce).printFlag == Waiting
    ensures Next(Next(s, Announce), Print) == s.(printFlag := Off)
  {
  }

  /** Completion wakes a print only when nothing is counted any more. */
  lemma SignalOnlyAtZero(s: State, op: char)
    ensures Signals(Next(s, Completion(op))) ==>
      Next(s, Completion(op)).threadsRunning == 0 && s.printFlag == Waiting
    ensures Signals(Next(s, Completion(op))) && Counted(op) ==> s.threadsRunning == 1
  {
  }

  // ---------------------------------------------------------------------------
  // The counter over every schedule

  /** Lookups and prints are among the active commands, so there are never more of them than commands. */
  lemma {:induction false} UncountedWithin(m: multiset<char>)
    ensures m['l'] + m['p'] <= |m|
    decreases |m|
  {
    if m != multiset{} {
      var x :| x in m;
      var rest := m - multiset{x};
      UncountedWithin(rest);
      assert m == rest + multiset{x};
    }
  }

  /** Every step that can be taken keeps the counter equal to the number of counted active commands. */
  lemma StepKeepsInv(c: Config, step: Step)
    requires Inv(c) && Enabled(c, step)
    ensures Inv(After(c, step))
  {
    match step
    case Completion(op) =>
      assert c.active == (c.active - multiset{op}) + multiset{op};
    case _ =>
  }

  /** Whatever the schedule, the counter keeps counting exactly the counted active commands. */
  lemma {:induction false} RunKeepsInv(c: Config, steps: seq<Step>)
    requires Inv(c)
    ensures Run(c, steps).Some? ==> Inv(Run(c, steps).value)
    decreases |steps|
  {
    if steps != [] && Enabled(c, steps[0]) {
      StepKeepsInv(c, steps[0]);
      RunKeepsInv(After(c, steps[0]), steps[1..]);
    }
  }

  /** A counter that counts the changing commands among the active ones is never negative. */
  lemma InvCounterNonNegative(c: Config)
    requires Inv(c)
    ensures c.state.threadsRunning >= 0
  {
    UncountedWithin(c.active);
  }

  /** From the start, the counter never becomes negative. */
  lemma CounterNeverNegative(steps: seq<Step>)
    ensures Run(Start, steps).Some? ==> Run(Start, steps).value.state.threadsRunning >= 0
  {
    RunKeepsInv(Start, steps);
    if Run(Start, steps).Some? {
      InvCounterNonNegative(Run(Start, steps).value);
    }
  }

  /** While the tree is printed, at most one changing command is between its entry and its completion. */
  lemma PrintSeesAtMostOneMutator(steps: seq<Step>)
    ensures Run(Start, steps).Some? && Enabled(Run(Start, steps).value, Print) ==>
      Mutators(Run(Start, steps).value.active) <= 1
  {
    RunKeepsInv(Start, steps);
  }

  /** The completion of a command undoes its entry, counter and record of active commands alike. */
  lemma CompletionUndoesEntryIn(c: Config, op: char)
    ensures After(After(c, Entry(op)), Completion(op)) == c
  {
    assert (c.active + multiset{op}) - multiset{op} == c.active;
  }

  /** An entry followed by the completion of the same command can be taken while no print waits, and gives back the configuration it started from. */
  lemma MatchedPairRestores(c: Config, op: char)
    requires c.state.printFlag == Off
    ensures Run(c, [Entry(op), Completion(op)]) == Some(c)
  {
    var c1 := After(c, Entry(op));
    CompletionUndoesEntryIn(c, op);
    assert [Entry(op), Completion(op)][1..] == [Completion(op)];
    assert Run(c1, [Completion(op)]) == Some(After(c1, Completion(op)));
  }

  // ---------------------------------------------------------------------------
  // The two thresholds disagree

  /** A create and a print:  the print proceeds while the create is still between entry and completion. */
  const PrintBesideCreate: seq<Step> := [Entry('c'), Entry('p'), Announce]

  /** The print may run beside one changing command: its wait ends at one, not zero. */
  lemma PrintMayRunBesideMutator()
    ensures Run(Start, PrintBesideCreate).Some?
    ensures Enabled(Run(Start, PrintBesideCreate).value, Print)
    ensures Mutators(Run(Start, PrintBesideCreate).value.active) == 1
  {
    var c1 := After(Start, Entry('c'));
    var c2 := After(c1, Entry('p'));
    var c3 := After(c2, Announce);
    assert c3.active == multiset{'c', 'p'};
    assert Run(c2, [Announce]) == Some(c3);
    assert Run(c1, [Entry('p'), Announce]) == Some(c3);
  }

  /** Two changing commands and a print that announced itself while both were counted. */
  const TwoMutatorsThenPrint: seq<Step> := [Entry('c'), Entry('m'), Entry('p'), Announce]

  /**
    The completion that brings the counter from two to one does not signal,
    although from then on the print could proceed: the waiting print is only
    woken by the completion that reaches zero.
  */
  lemma CompletionAtOneDoesNotSignal()
    ensures Run(Start, TwoMutatorsThenPrint).Some?
    ensures Enabled(Run(Start, TwoMutatorsThenPrint).value, Completion('c'))
    ensures !Signals(After(Run(Start, TwoMutatorsThenPrint).value, Completion('c')).state)
    ensures Enabled(After(Run(Start, TwoMutatorsThenPrint).value, Completion('c')), Print)
  {
    var c1 := After(Start, Entry('c'));
    var c2 := After(c1, Entry('m'));
    var c3 := After(c2, Entry('p'));
    var c4 := After(c3, Announce);
    assert c4.active == multiset{'c', 'm', 'p'};
    assert c4.state == State(Waiting, 2);
    assert Run(c3, [Announce]) == Some(c4);
    assert Run(c2, [Entry('p'), Announce]) == Some(c4);
    assert Run(c1, [Entry('m'), Entry('p'), Announce]) == Some(c4);
  }

  // ---------------------------------------------------------------------------
  // The shared variables, updated in place

  /**
    The globals `print` and `threadsRunning`, with one method per atomic step.
    `active` is ghost: it records which commands are between entry and
    completion, which the server does not keep.
  */
  class PrintGate {
    var printFlag: Flag
    var threadsRunning: int
    ghost var active: multiset<char>

    ghost predicate Valid()
      reads this
    {
      Inv(Current())
    }

    ghost function Current(): Config
      reads this
    {
      Config(State(printFlag, threadsRunning), active)
    }

    /** The initial values of the globals: OFF and 0. */
    constructor()
      ensures Valid() && Current() == Start
      ensures threadsRunning >= 0
    {
      printFlag := Off;
      threadsRunning := 0;
      active := multiset{};
    }

    /** The entry section, once its wait is over: count the command unless it is a lookup or a print. */
    method Enter(op: char)
      requires Valid() && Enabled(Current(), Entry(op))
      modifies this
      ensures Valid()
      ensures Current() == After(old(Current()), Entry(op))
      ensures threadsRunning >= 0
    {
      if Counted(op) {
        threadsRunning := threadsRunning + 1;
      }
      active := active + multiset{op};
      StepKeepsInv(old(Current()), Entry(op));
      InvCounterNonNegative(Current());
    }

    /** The start of the print section: set the flag, and report whether the print has to wait. */
    method AnnouncePrint() returns (mustWait: bool)
      requires Valid() && Enabled(Current(), Announce)
      modifies this
      ensures Valid()
      ensures Current() == After(old(Current()), Announce)
      ensures mustWait <==> !Enabled(Current(), Print)
      ensures threadsRunning >= 0
    {
      printFlag := Waiting;
      mustWait := threadsRunning > 1;
      InvCounterNonNegative(Current());
    }

    /**
      The rest of the print section, once its wait is over: print the tree
      with the mutex still held, then switch the flag off.
    */
    method PrintTree(printTree: seq<char> -> int, output: seq<char>) returns (result: int)
      requires Valid() && Enabled(Current(), Print)
      modifies this
      ensures Valid()
      ensures Current() == After(old(Current()), Print)
      ensures result == printTree(output)
      ensures Mutators(old(active)) <= 1
      ensures threadsRunning >= 0
    {
      result := printTree(output);
      printFlag := Off;
      InvCounterNonNegative(Current());
    }

    /** The completion section: uncount the command, and report whether it signals a waiting print. */
    method Complete(op: char) returns (signal: bool)
      requires Valid() && Enabled(Current(), Completion(op))
      modifies this
      ensures Valid()
      ensures Current() == After(old(Current()), Completion(op))
      ensures signal <==> Signals(Current().state)
      ensures threadsRunning >= 0
    {
      if Counted(op) {
        threadsRunning := threadsRunning - 1;
      }
      active := active - multiset{op};
      StepKeepsInv(old(Current()), Completion(op));
      signal := threadsRunning == 0 && printFlag == Waiting;
      InvCounterNonNegative(Current());
    }
  }
}
