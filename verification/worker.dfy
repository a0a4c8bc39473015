/**
  One pass of a worker's loop (server/main.c, applyCommands): receive a
  frame, decode it, pass the entry section, make the filesystem call the
  frame selects (the print inside its own critical section), and pass the
  completion section. The pass runs without interruption: the condition each
  wait loop waits for is a precondition of the pass.
*/
module Worker {

  import opened Requests
  import Barrier

  /** How a pass ends: the worker leaves its loop, the process exits, or the result is sent back. */
  datatype Served = Stop | Exit(failure: Failure) | Reply(result: int)

  /**
    The entry and completion sections test the first byte of the buffer,
    while the switch tests the opcode `sscanf` read. For a command that is
    carried out the two agree: the command is counted exactly when it changes
    the tree. A frame refused after the entry section has been counted.
  */
  lemma CountedExactlyMutators(frame: seq<char>)
    requires frame != []
    ensures Decode(frame).Run? ==> (Barrier.Counted(frame[0]) <==> Decode(frame).command.IsMutator())
    ensures Decode(frame) == Fatal(InvalidNodeType) ==> Barrier.Counted(frame[0])
    ensures Decode(frame) == Fatal(UnknownCommand) ==> Barrier.Counted(frame[0])
  {
    OpcodeIsFirstField(frame);
    DecodedOpcode(frame);
    DecodeBadType(frame);
    DecodeRefusals(frame);
  }

  /**
    The switch and the completion section for a command that has passed the
    entry section with opcode byte `op`: the filesystem call the command
    selects (a print inside the print section), then the uncounting.
  */
  method Carry(gate: Barrier.PrintGate, fs: Filesystem, cmd: Command, op: char) returns (result: int)
    requires gate.Valid() && op in gate.active && gate.printFlag == Barrier.Off
    requires cmd.PrintTree? ==> op == 'p' && gate.threadsRunning <= 1
    modifies gate
    ensures gate.Valid()
    ensures result == Execute(cmd, fs)
    ensures gate.Current() == Barrier.After(old(gate.Current()), Barrier.Completion(op))
  {
    if cmd.PrintTree? {
      var mustWait := gate.AnnouncePrint();
      result := gate.PrintTree(fs.printTree, cmd.output);
    } else {
      result := Execute(cmd, fs);
    }
    var signal := gate.Complete(op);
  }

  /**
    One pass of the loop on the reception `r`. Stops when `recvfrom` yields
    nothing; exits on a refused frame, after the entry section when the
    refusal comes from the switch; otherwise replies with the result of the
    selected call and leaves the shared state as it found it.
  */
  method Serve(gate: Barrier.PrintGate, fs: Filesystem, r: Reception) returns (served: Served)
    requires gate.Valid()
    requires Accept(r).Some? && NumTokens(Accept(r).value) >= 2 ==> gate.printFlag == Barrier.Off
    requires Accept(r).Some? ==> Decode(Accept(r).value) != Unspecified
    requires Accept(r).Some? && Decode(Accept(r).value).Run? && Decode(Accept(r).value).command.PrintTree? ==>
      gate.threadsRunning <= 1
    modifies gate
    ensures gate.Valid()
    ensures served == Stop <==> Received(r) <= 0
    ensures served.Exit? <==> Accept(r).Some? && Decode(Accept(r).value).Fatal?
    ensures served.Exit? ==> Decode(Accept(r).value) == Fatal(served.failure)
    ensures served.Reply? ==>
      && Accept(r).Some? && Decode(Accept(r).value).Run?
      && served.result == Execute(Decode(Accept(r).value).command, fs)
    ensures served.Stop? || served.Reply? || served == Exit(TooFewTokens) ==>
      gate.Current() == old(gate.Current())
    ensures served == Exit(InvalidNodeType) || served == Exit(UnknownCommand) ==>
      gate.Current() == Barrier.After(old(gate.Current()), Barrier.Entry(Accept(r).value[0]))
  {
    var input := Accept(r);
    if input.None? {
      return Stop;
    }
    var frame := input.value;
    var outcome := Decode(frame);
    DecodeRefusals(frame);
    CountedExactlyMutators(frame);
    DecodedOpcode(frame);
    OpcodeIsFirstField(frame);
    if NumTokens(frame) < 2 {
      assert outcome == Fatal(TooFewTokens);
      return Exit(TooFewTokens);
    }
    var op := frame[0];
    gate.Enter(op);
    match outcome
    case Unspecified =>
      assert false;
    case Fatal(failure) =>
      assert failure != TooFewTokens;
      return Exit(failure);
    case Run(cmd) =>
      ghost var before := old(gate.Current());
      var result := Carry(gate, fs, cmd, op);
      Barrier.CompletionUndoesEntryIn(before, op);
      return Reply(result);
  }
}
