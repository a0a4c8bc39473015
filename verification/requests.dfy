/**
  One request as a worker of the server sees it (server/main.c, applyCommands):
  the bytes `recvfrom` stores in the 100-byte input buffer, the `sscanf` split
  of that buffer into an opcode byte and one or two further fields, and the
  `switch` that picks the filesystem call. A frame that the server refuses ends
  the whole process; such frames decode to `Fatal`.
*/
module Requests {

  import opened Wrappers
  import opened CScan

  /** MAX_INPUT_SIZE: the size of the input buffer, terminator included. */
  const MaxInputSize: int := 100

  /** What one `recvfrom` call yields: an error, or a datagram exactly as the client sent it. */
  datatype Reception = RecvError | Datagram(bytes: seq<char>)

  /**
    The return value of `recvfrom` when it is given room for MaxInputSize - 1 bytes:
    -1 on error, otherwise the length of the datagram, cut to the room given.
  */
  function Received(r: Reception): (c: int)
    ensures c <= MaxInputSize - 1
    ensures c < 0 <==> r.RecvError?
    ensures r.Datagram? && |r.bytes| < MaxInputSize ==> c == |r.bytes|
    ensures r.Datagram? && |r.bytes| >= MaxInputSize - 1 ==> c == MaxInputSize - 1
  {
    match r
    case RecvError => -1
    case Datagram(bytes) => if |bytes| < MaxInputSize - 1 then |bytes| else MaxInputSize - 1
  }

  /**
    The buffer a worker goes on to parse, or None when the worker leaves its
    loop because `recvfrom` returned zero or less. The buffer holds the bytes
    received followed by the NUL the worker writes at index `c`.
  */
  function Accept(r: Reception): (frame: Option<seq<char>>)
    ensures frame.None? <==> Received(r) <= 0
    ensures frame.Some? ==>
      && r.Datagram?
      && 2 <= |frame.value| <= MaxInputSize
      && |frame.value| - 1 == Received(r)
      && frame.value[Received(r)] == '\0'
      && frame.value[..Received(r)] <= r.bytes
  {
    var c := Received(r);
    if c <= 0 then None else Some(r.bytes[..c] + ['\0'])
  }

  /** The node types `create` accepts: T_FILE and T_DIRECTORY. */
  datatype NodeType = File | Directory

  /** A request the server carries out. */
  datatype Command =
    | Create(name: seq<char>, kind: NodeType)
    | Lookup(name: seq<char>)
    | Delete(name: seq<char>)
    | Move(source: seq<char>, target: seq<char>)
    | PrintTree(output: seq<char>)
  {
    /** The commands that change the tree. */
    predicate IsMutator() {
      Create? || Delete? || Move?
    }
  }

  /** Every path or file name in a command is a word `%s` can read. */
  predicate WellFormed(cmd: Command) {
    match cmd
    case Create(name, _) => IsWord(name)
    case Lookup(name) => IsWord(name)
    case Delete(name) => IsWord(name)
    case Move(source, target) => IsWord(source) && IsWord(target)
    case PrintTree(output) => IsWord(output)
  }

  /** Why the server gives up on a frame and exits. */
  datatype Failure =
    | TooFewTokens     // `sscanf` assigned fewer than two items
    | InvalidNodeType  // a create whose type byte is neither 'f' nor 'd'
    | UnknownCommand   // an opcode byte the switch does not know

  /**
    What a frame leads to. `Unspecified` stands for a frame that makes the
    server read a variable `sscanf` never assigned (the type of a create, or
    the destination of a move, when only two items were read): C gives such a
    read no meaning, so neither does the model.
  */
  datatype Outcome = Run(command: Command) | Fatal(failure: Failure) | Unspecified

  /** "%c %s %s", the format for a frame whose first byte is 'm'. */
  const MoveFormat: seq<Directive> := [Char, Blank, Word, Blank, Word]

  /** "%c %s %c", the format for every other frame. */
  const CommandFormat: seq<Directive> := [Char, Blank, Word, Blank, Char]

  /** The format the worker chooses by the first byte of its buffer. */
  function FormatFor(s: seq<char>): seq<Directive> {
    if s != [] && s[0] == 'm' then MoveFormat else CommandFormat
  }

  /** The items `sscanf` assigns from a C string: opcode byte, first field, and the third item if there is one. */
  function FieldsOf(s: seq<char>): seq<seq<char>> {
    Scan(s, 0, FormatFor(s))
  }

  /** The items `sscanf` assigns from the buffer. */
  function Fields(frame: seq<char>): seq<seq<char>> {
    FieldsOf(Text(frame))
  }

  /** numTokens: what `sscanf` returns for the buffer. */
  function NumTokens(frame: seq<char>): int {
    var s := Text(frame);
    Assigned(s, FormatFor(s))
  }

  /** The opcode byte: the first byte of the buffer, which is NUL when the C string is empty. */
  function Opcode(frame: seq<char>): char {
    var s := Text(frame);
    if s == [] then '\0' else s[0]
  }

  /** The argument `lookup` is given besides the name. */
  const LookupMode: char := 'u'

  /**
    The decision the worker takes on the items `sscanf` assigned: refuse the
    frame when there are fewer than two, otherwise switch on the opcode byte.
  */
  function Classify(items: seq<seq<char>>): (r: Outcome)
    requires [] !in items
    ensures r == Fatal(TooFewTokens) <==> |items| < 2
    ensures r.Run? ==> |items| >= 2 && items[0][0] == Letter(r.command)
    ensures r.Run? && (r.command.Create? || r.command.Move?) ==> |items| >= 3
  {
    if |items| < 2 then Fatal(TooFewTokens)
    else
      var name := items[1];
      match items[0][0]
      case 'c' =>
        if |items| < 3 then Unspecified
        else if items[2][0] == 'f' then Run(Create(name, File))
        else if items[2][0] == 'd' then Run(Create(name, Directory))
        else Fatal(InvalidNodeType)
      case 'l' => Run(Lookup(name))
      case 'd' => Run(Delete(name))
      case 'm' => if |items| < 3 then Unspecified else Run(Move(name, items[2]))
      case 'p' => Run(PrintTree(name))
      case _ => Fatal(UnknownCommand)
  }

  /** The decision the worker takes for one buffer: which filesystem call, or why it exits. */
  function Decode(frame: seq<char>): Outcome {
    Classify(Fields(frame))
  }

  /** The filesystem operations the server calls; their behaviour is not part of this model. */
  datatype Filesystem = Filesystem(
    create: (seq<char>, NodeType) -> int,
    lookup: (seq<char>, char) -> int,
    delete: seq<char> -> int,
    move: (seq<char>, seq<char>) -> int,
    printTree: seq<char> -> int)

  /** The value the worker sends back: the result of the one filesystem call the command selects. */
  function Execute(cmd: Command, fs: Filesystem): int {
    match cmd
    case Create(name, kind) => fs.create(name, kind)
    case Lookup(name) => fs.lookup(name, LookupMode)
    case Delete(name) => fs.delete(name)
    case Move(source, target) => fs.move(source, target)
    case PrintTree(output) => fs.printTree(output)
  }

  /** The opcode byte the switch selects each command by. */
  function Letter(cmd: Command): char {
    match cmd
    case Create(_, _) => 'c'
    case Lookup(_) => 'l'
    case Delete(_) => 'd'
    case Move(_, _) => 'm'
    case PrintTree(_) => 'p'
  }

  /** The type byte of a create frame. */
  function TypeByte(kind: NodeType): char {
    match kind
    case File => 'f'
    case Directory => 'd'
  }

  /** The frame a client sends for a command, single spaces between the fields. */
  function Render(cmd: Command): seq<char> {
    match cmd
    case Create(name, kind) => "c " + name + " " + [TypeByte(kind)]
    case Lookup(name) => "l " + name
    case Delete(name) => "d " + name
    case Move(source, target) => "m " + source + " " + target
    case PrintTree(output) => "p " + output
  }


  // ---------------------------------------------------------------------------
  // How sscanf splits a buffer

  /**
    The fields of a C string: the opcode byte; the word from `j` to `e`, the
    first after the opcode; and a third item read from `k`, the first byte
    after the white space that follows that word.
  */
  lemma FieldsShape(s: seq<char>) returns (j: nat, e: nat, k: nat)
    ensures s == [] <==> FieldsOf(s) == []
    ensures |FieldsOf(s)| <= 3
    ensures s != [] ==> FieldsOf(s)[0] == [s[0]] && j == SpaceEnd(s, 1)
    ensures s != [] ==> (|FieldsOf(s)| >= 2 <==> j < |s|)
    ensures s != [] && j < |s| ==> e == WordEnd(s, j) && j < e && k == SpaceEnd(s, e)
    ensures s != [] && j < |s| ==> FieldsOf(s)[1] == s[j..e]
    ensures s != [] && j < |s| ==> (|FieldsOf(s)| == 3 <==> k < |s|)
    ensures s != [] && j < |s| && k < |s| && s[0] == 'm' ==> FieldsOf(s)[2] == s[k..WordEnd(s, k)]
    ensures s != [] && j < |s| && k < |s| && s[0] != 'm' ==> FieldsOf(s)[2] == [s[k]]
  {
    var last := if s != [] && s[0] == 'm' then Word else Char;
    assert FormatFor(s) == [Char, Blank, Word, Blank, last];
    j, e, k := ScanRequest(s, last, FormatFor(s));
    if s != [] && j < |s| {
      ScanLast(s, k, last);
    }
  }

  /** The second item, and the third when the format reads a word there, are words. */
  lemma FieldsAreWords(frame: seq<char>)
    ensures |Fields(frame)| >= 2 ==> IsWord(Fields(frame)[1])
    ensures |Fields(frame)| == 3 && Opcode(frame) == 'm' ==> IsWord(Fields(frame)[2])
  {
    var s := Text(frame);
    var j, e, k := FieldsShape(s);
    if |Fields(frame)| >= 2 {
      WordIn(s, j, e);
      if |Fields(frame)| == 3 && Opcode(frame) == 'm' {
        WordIn(s, k, WordEnd(s, k));
      }
    }
  }

  /**
    Every name in a command the worker carries out is a word: non-empty, free
    of white space and NUL; and only a frame whose first byte is 'm' moves.
  */
  lemma DecodedCommandIsWellFormed(frame: seq<char>)
    ensures Decode(frame).Run? ==> WellFormed(Decode(frame).command)
    ensures Decode(frame).Run? ==> (Decode(frame).command.Move? <==> Opcode(frame) == 'm')
  {
    var items := Fields(frame);
    OpcodeIsFirstField(frame);
    FieldsAreWords(frame);
    ClassifyWellFormed(items);
  }

  /** The names the switch passes on are the second item, and for a move also the third. */
  lemma ClassifyWellFormed(items: seq<seq<char>>)
    requires [] !in items
    ensures Classify(items).Run? && IsWord(items[1]) && (items[0][0] == 'm' ==> IsWord(items[2])) ==>
      WellFormed(Classify(items).command)
  {
  }

  /** A command is carried out only for the opcode byte that names it. */
  lemma DecodedOpcode(frame: seq<char>)
    ensures Decode(frame).Run? ==> Opcode(frame) == Letter(Decode(frame).command)
  {
    OpcodeIsFirstField(frame);
  }

  /**
    The opcode the switch tests is the first byte of the buffer, and
    `sscanf` returns the number of items it assigned, or EOF for none.
  */
  lemma OpcodeIsFirstField(frame: seq<char>)
    ensures NumTokens(frame) >= 1 ==> Fields(frame)[0] == [Opcode(frame)]
    ensures NumTokens(frame) == -1 <==> Text(frame) == []
    ensures frame != [] ==> Opcode(frame) == frame[0]
    ensures [] !in Fields(frame) && |Fields(frame)| <= 3
    ensures NumTokens(frame) == if Fields(frame) == [] then -1 else |Fields(frame)|
  {
    var j, e, k := FieldsShape(Text(frame));
  }

  // ---------------------------------------------------------------------------
  // Which frames are refused, and which call each of the others makes

  /**
    `sscanf` assigns fewer than two items exactly when nothing but white space
    follows the opcode byte, or the C string is empty.
  */
  lemma FewTokens(frame: seq<char>)
    ensures NumTokens(frame) < 2 <==>
      forall i :: 1 <= i < |Text(frame)| ==> IsSpace(Text(frame)[i])
  {
    var s := Text(frame);
    var j, e, k := FieldsShape(s);
    if s != [] && j < |s| {
      assert !IsSpace(s[j]);
    }
  }

  /** The third item of a frame read with "%c %s %c" is one byte: the type byte of a create. */
  lemma TypeFieldIsOneByte(frame: seq<char>)
    ensures NumTokens(frame) == 3 && Opcode(frame) != 'm' ==> Fields(frame)[2] == [Fields(frame)[2][0]]
  {
    var j, e, k := FieldsShape(Text(frame));
  }

  /** The switch creates exactly for three items led by 'c', of the kind the third item's byte names. */
  lemma ClassifyCreate(items: seq<seq<char>>, name: seq<char>)
    requires [] !in items && |items| <= 3
    ensures Classify(items) == Run(Create(name, File)) <==>
      |items| == 3 && items[0][0] == 'c' && items[1] == name && items[2][0] == 'f'
    ensures Classify(items) == Run(Create(name, Directory)) <==>
      |items| == 3 && items[0][0] == 'c' && items[1] == name && items[2][0] == 'd'
    ensures Classify(items) == Fatal(InvalidNodeType) <==>
      |items| == 3 && items[0][0] == 'c' && items[2][0] != 'f' && items[2][0] != 'd'
  {
  }

  /** Opcode 'c' creates a file exactly when the type byte is 'f', and a directory exactly when it is 'd'. */
  lemma DecodeCreate(frame: seq<char>, name: seq<char>)
    ensures Decode(frame) == Run(Create(name, File)) <==>
      Opcode(frame) == 'c' && NumTokens(frame) == 3 && Fields(frame)[1] == name && Fields(frame)[2] == ['f']
    ensures Decode(frame) == Run(Create(name, Directory)) <==>
      Opcode(frame) == 'c' && NumTokens(frame) == 3 && Fields(frame)[1] == name && Fields(frame)[2] == ['d']
  {
    var items := Fields(frame);
    OpcodeIsFirstField(frame);
    TypeFieldIsOneByte(frame);
    ClassifyCreate(items, name);
  }

  /** Any other type byte in a create is fatal. */
  lemma DecodeBadType(frame: seq<char>)
    ensures Decode(frame) == Fatal(InvalidNodeType) <==>
      Opcode(frame) == 'c' && NumTokens(frame) == 3 && Fields(frame)[2][0] != 'f' && Fields(frame)[2][0] != 'd'
  {
    var items := Fields(frame);
    OpcodeIsFirstField(frame);
    ClassifyCreate(items, []);
  }

  /** The switch looks up, deletes and prints for two or more items led by 'l', 'd' and 'p'. */
  lemma ClassifyNamed(items: seq<seq<char>>, name: seq<char>)
    requires [] !in items
    ensures Classify(items) == Run(Lookup(name)) <==> |items| >= 2 && items[0][0] == 'l' && items[1] == name
    ensures Classify(items) == Run(Delete(name)) <==> |items| >= 2 && items[0][0] == 'd' && items[1] == name
    ensures Classify(items) == Run(PrintTree(name)) <==> |items| >= 2 && items[0][0] == 'p' && items[1] == name
  {
  }

  /** Opcode 'l' looks the name up, 'd' deletes it and 'p' prints the tree to it. */
  lemma DecodeOpcodes(frame: seq<char>, name: seq<char>)
    ensures Decode(frame) == Run(Lookup(name)) <==>
      Opcode(frame) == 'l' && NumTokens(frame) >= 2 && Fields(frame)[1] == name
    ensures Decode(frame) == Run(Delete(name)) <==>
      Opcode(frame) == 'd' && NumTokens(frame) >= 2 && Fields(frame)[1] == name
    ensures Decode(frame) == Run(PrintTree(name)) <==>
      Opcode(frame) == 'p' && NumTokens(frame) >= 2 && Fields(frame)[1] == name
  {
    var items := Fields(frame);
    OpcodeIsFirstField(frame);
    ClassifyNamed(items, name);
  }

  /** The switch moves exactly for three items led by 'm'. */
  lemma ClassifyMove(items: seq<seq<char>>, source: seq<char>, target: seq<char>)
    requires [] !in items && |items| <= 3
    ensures Classify(items) == Run(Move(source, target)) <==>
      |items| == 3 && items[0][0] == 'm' && items[1] == source && items[2] == target
  {
  }

  /** Opcode 'm' moves the first path to the second, once both are read. */
  lemma DecodeMove(frame: seq<char>, source: seq<char>, target: seq<char>)
    ensures Decode(frame) == Run(Move(source, target)) <==>
      Opcode(frame) == 'm' && NumTokens(frame) == 3 && Fields(frame)[1] == source && Fields(frame)[2] == target
  {
    var items := Fields(frame);
    OpcodeIsFirstField(frame);
    ClassifyMove(items, source, target);
  }

  /** The switch refuses fewer than two items, and any first byte it does not know; it reads an unset variable only for 'c' or 'm' with two items. */
  lemma ClassifyRefusals(items: seq<seq<char>>)
    requires [] !in items && |items| <= 3
    ensures Classify(items) == Fatal(TooFewTokens) <==> |items| < 2
    ensures Classify(items) == Fatal(UnknownCommand) <==> |items| >= 2 && items[0][0] !in {'c', 'l', 'd', 'm', 'p'}
    ensures Classify(items) == Unspecified <==> |items| == 2 && items[0][0] in {'c', 'm'}
  {
  }

  /**
    Any opcode byte other than c, l, d, m and p is fatal once two items are
    read; a frame that starts with white space is always refused; and the
    outcome is left open only for a create or move that lacks its third item.
  */
  lemma DecodeRefusals(frame: seq<char>)
    ensures Decode(frame) == Fatal(TooFewTokens) <==> NumTokens(frame) < 2
    ensures Decode(frame) == Fatal(UnknownCommand) <==>
      NumTokens(frame) >= 2 && Opcode(frame) !in {'c', 'l', 'd', 'm', 'p'}
    ensures IsSpace(Opcode(frame)) ==> Decode(frame).Fatal?
    ensures Decode(frame) == Unspecified <==>
      NumTokens(frame) == 2 && Opcode(frame) in {'c', 'm'}
  {
    var items := Fields(frame);
    OpcodeIsFirstField(frame);
    ClassifyRefusals(items);
  }

  /**
    The filesystem call a carried-out frame makes, read off its items: the
    name is the second item, the type of a create is the one its third item
    names, the destination of a move is the third item, and a lookup is
    given the mode 'u'.
  */
  lemma DispatchOfFrame(frame: seq<char>, fs: Filesystem)
    requires Decode(frame).Run?
    ensures Decode(frame).command.Create? ==>
      Execute(Decode(frame).command, fs) == fs.create(Fields(frame)[1], if Fields(frame)[2] == ['f'] then File else Directory)
    ensures Decode(frame).command.Lookup? ==> Execute(Decode(frame).command, fs) == fs.lookup(Fields(frame)[1], 'u')
    ensures Decode(frame).command.Delete? ==> Execute(Decode(frame).command, fs) == fs.delete(Fields(frame)[1])
    ensures Decode(frame).command.Move? ==> Execute(Decode(frame).command, fs) == fs.move(Fields(frame)[1], Fields(frame)[2])
    ensures Decode(frame).command.PrintTree? ==> Execute(Decode(frame).command, fs) == fs.printTree(Fields(frame)[1])
  {
    OpcodeIsFirstField(frame);
    TypeFieldIsOneByte(frame);
  }

  // ---------------------------------------------------------------------------
  // Frames as clients write them

  /** Reading a C string laid out as an opcode byte, white space and a word yields the opcode and the word. */
  lemma FieldsLayoutTwo(op: char, gap1: seq<char>, word: seq<char>)
    requires AllSpace(gap1) && IsWord(word)
    ensures FieldsOf([op] + gap1 + word) == [[op], word]
  {
    var s, j, e, k := LayoutPositions(op, gap1, word, [], []);
    assert s == [op] + gap1 + word;
    var j', e', k' := FieldsShape(s);
    var items := FieldsOf(s);
    assert items[0] == [op] && items[1] == word;
    assert |items| == 2;
  }

  /** A move laid out as opcode, white space, word, white space and word is read as the opcode and the two words. */
  lemma FieldsLayoutMove(gap1: seq<char>, source: seq<char>, gap2: seq<char>, target: seq<char>)
    requires AllSpace(gap1) && IsWord(source) && AllSpace(gap2) && gap2 != [] && IsWord(target)
    ensures FieldsOf(['m'] + gap1 + source + gap2 + target) == [['m'], source, target]
  {
    var s, j, e, k := LayoutPositions('m', gap1, source, gap2, target);
    var j', e', k' := FieldsShape(s);
    var items := FieldsOf(s);
    assert forall i :: k <= i < |s| ==> s[i] == target[i - k];
    WordEndOver(s, k, |s|);
    assert s[k..|s|] == target;
    assert items[0] == ['m'] && items[1] == source && items[2] == target;
    assert |items| == 3;
  }

  /** Any other frame laid out the same way is read as the opcode, the word and the first byte of the tail. */
  lemma FieldsLayoutThree(op: char, gap1: seq<char>, word: seq<char>, gap2: seq<char>, tail: seq<char>)
    requires op != 'm'
    requires AllSpace(gap1) && IsWord(word) && AllSpace(gap2) && gap2 != []
    requires tail != [] && !IsSpace(tail[0])
    ensures FieldsOf([op] + gap1 + word + gap2 + tail) == [[op], word, [tail[0]]]
  {
    var s, j, e, k := LayoutPositions(op, gap1, word, gap2, tail);
    var j', e', k' := FieldsShape(s);
    var items := FieldsOf(s);
    assert items[0] == [op] && items[1] == word && items[2] == [tail[0]];
    assert |items| == 3;
  }

  /** Each byte of a frame of known layout, by the part of the layout it falls in. */
  lemma LayoutBytes(op: char, gap1: seq<char>, word: seq<char>, gap2: seq<char>, tail: seq<char>)
    ensures forall i :: 1 <= i < 1 + |gap1| ==> ([op] + gap1 + word + gap2 + tail)[i] == gap1[i - 1]
    ensures forall i :: 1 + |gap1| <= i < 1 + |gap1| + |word| ==>
      ([op] + gap1 + word + gap2 + tail)[i] == word[i - 1 - |gap1|]
    ensures forall i :: 1 + |gap1| + |word| <= i < 1 + |gap1| + |word| + |gap2| ==>
      ([op] + gap1 + word + gap2 + tail)[i] == gap2[i - 1 - |gap1| - |word|]
    ensures ([op] + gap1 + word + gap2 + tail)[1 + |gap1| .. 1 + |gap1| + |word|] == word
    ensures ([op] + gap1 + word + gap2 + tail)[1 + |gap1| + |word| + |gap2| ..] == tail
  {
    var s := [op] + gap1 + word + gap2 + tail;
    assert s == [op] + (gap1 + (word + (gap2 + tail)));
  }

  /** Where the directives of a request format stop in a frame of known layout. */
  lemma LayoutPositions(op: char, gap1: seq<char>, word: seq<char>, gap2: seq<char>, tail: seq<char>)
    returns (s: seq<char>, j: nat, e: nat, k: nat)
    requires AllSpace(gap1) && IsWord(word) && AllSpace(gap2)
    requires tail == [] || !IsSpace(tail[0])
    requires gap2 == [] ==> tail == []
    ensures s == [op] + gap1 + word + gap2 + tail
    ensures j == 1 + |gap1| && e == j + |word| && k == e + |gap2| && k <= |s|
    ensures s[0] == op && s[j..e] == word && s[k..] == tail
    ensures SpaceEnd(s, 1) == j && WordEnd(s, j) == e && SpaceEnd(s, e) == k
  {
    s := [op] + gap1 + word + gap2 + tail;
    j := 1 + |gap1|;
    e := j + |word|;
    k := e + |gap2|;
    LayoutBytes(op, gap1, word, gap2, tail);
    SpaceEndOver(s, 1, j);
    WordEndOver(s, j, e);
    if k < |s| {
      assert s[k] == s[k..][0] == tail[0];
    }
    SpaceEndOver(s, e, k);
  }

  /** A buffer that holds no NUL before its terminator holds that whole text as its C string. */
  lemma {:induction false} TextOfFrame(r: seq<char>)
    requires '\0' !in r
    ensures Text(r) == r && Text(r + ['\0']) == r
  {
    if r != [] {
      assert (r + ['\0'])[1..] == r[1..] + ['\0'];
      assert r[0] in r;
      assert forall i :: 0 <= i < |r| - 1 ==> r[1..][i] == r[i + 1];
      TextOfFrame(r[1..]);
      assert [r[0]] + r[1..] == r;
    }
  }

  /** The items `sscanf` assigns from the frame a client renders for a command. */
  function RenderedFields(cmd: Command): seq<seq<char>> {
    match cmd
    case Create(name, kind) => [['c'], name, [TypeByte(kind)]]
    case Lookup(name) => [['l'], name]
    case Delete(name) => [['d'], name]
    case Move(source, target) => [['m'], source, target]
    case PrintTree(output) => [['p'], output]
  }

  /** A rendered frame holds no NUL, so its C string is the whole of it, with or without the terminator. */
  lemma RenderText(cmd: Command)
    requires WellFormed(cmd)
    ensures Text(Render(cmd)) == Render(cmd) && Text(Render(cmd) + ['\0']) == Render(cmd)
  {
    var r := Render(cmd);
    assert '\0' !in r by {
      forall i | 0 <= i < |r| ensures r[i] != '\0' { }
    }
    TextOfFrame(r);
  }

  lemma RenderCreateFields(name: seq<char>, kind: NodeType)
    requires IsWord(name)
    ensures FieldsOf(Render(Create(name, kind))) == [['c'], name, [TypeByte(kind)]]
  {
    assert Render(Create(name, kind)) == ['c'] + [' '] + name + [' '] + [TypeByte(kind)];
    FieldsLayoutThree('c', [' '], name, [' '], [TypeByte(kind)]);
  }

  lemma RenderMoveFields(source: seq<char>, target: seq<char>)
    requires IsWord(source) && IsWord(target)
    ensures FieldsOf(Render(Move(source, target))) == [['m'], source, target]
  {
    assert Render(Move(source, target)) == ['m'] + [' '] + source + [' '] + target;
    FieldsLayoutMove([' '], source, [' '], target);
  }

  lemma RenderNameFields(op: char, name: seq<char>)
    requires IsWord(name)
    ensures FieldsOf([op, ' '] + name) == [[op], name]
  {
    assert [op, ' '] + name == [op] + [' '] + name;
    FieldsLayoutTwo(op, [' '], name);
  }

  /** The items `sscanf` assigns from a rendered frame are the command's opcode and its fields, in order. */
  lemma RenderFields(cmd: Command)
    requires WellFormed(cmd)
    ensures FieldsOf(Render(cmd)) == RenderedFields(cmd)
  {
    match cmd
    case Create(name, kind) => RenderCreateFields(name, kind);
    case Lookup(name) => RenderNameFields('l', name);
    case Delete(name) => RenderNameFields('d', name);
    case PrintTree(output) => RenderNameFields('p', output);
    case Move(source, target) => RenderMoveFields(source, target);
  }

  /** The switch carries out the command whose fields it is given in rendered order. */
  lemma ClassifyRendered(cmd: Command)
    requires WellFormed(cmd)
    ensures [] !in RenderedFields(cmd) && Classify(RenderedFields(cmd)) == Run(cmd)
  {
    match cmd
    case Create(name, kind) =>
    case Lookup(name) =>
    case Delete(name) =>
    case PrintTree(output) =>
    case Move(source, target) =>
  }

  /** Every command a client can send arrives intact: decoding the frame it renders to gives the command back. */
  lemma DecodeRender(cmd: Command)
    requires WellFormed(cmd)
    ensures Decode(Render(cmd)) == Run(cmd)
    ensures Decode(Render(cmd) + ['\0']) == Run(cmd)
  {
    var r := Render(cmd);
    RenderText(cmd);
    RenderFields(cmd);
    ClassifyRendered(cmd);
    assert Fields(r) == RenderedFields(cmd);
    assert Fields(r + ['\0']) == RenderedFields(cmd);
  }

  /**
    A client request short enough for the buffer is received whole, terminated,
    and decoded to the command the client meant.
  */
  lemma ClientRoundTrip(cmd: Command)
    requires WellFormed(cmd)
    requires |Render(cmd)| < MaxInputSize
    ensures Accept(Datagram(Render(cmd))) == Some(Render(cmd) + ['\0'])
    ensures Decode(Accept(Datagram(Render(cmd))).value) == Run(cmd)
  {
    DecodeRender(cmd);
    assert Render(cmd)[..|Render(cmd)|] == Render(cmd);
  }
}
