/**
  The fragment of the C library that the server relies on to read a request:
  a C string ends at its first NUL byte, `isspace` in the C locale, and the
  three `sscanf` directives that occur in the server's formats: a blank
  (skip any amount of white space), `%c` (take the next byte as it is) and
  `%s` (skip white space, then take a maximal run of non-white-space bytes).
  Positions in the input are indices into the C string.
*/
module CScan {

  /** `isspace` in the C locale: space, tab, newline, vertical tab, form feed, carriage return. */
  predicate IsSpace(ch: char) {
    ch == ' ' || '\t' <= ch <= '\r'
  }

  predicate AllSpace(s: seq<char>) {
    forall i :: 0 <= i < |s| ==> IsSpace(s[i])
  }

  /** What `%s` can produce: a non-empty run of bytes that are neither white space nor NUL. */
  predicate IsWord(w: seq<char>) {
    w != [] && forall i :: 0 <= i < |w| ==> !IsSpace(w[i]) && w[i] != '\0'
  }

  /** The C string held in a buffer: everything before the first NUL byte. */
  function Text(buf: seq<char>): (s: seq<char>)
    ensures |s| <= |buf| && s == buf[..|s|]
    ensures '\0' !in s
    ensures |s| < |buf| ==> buf[|s|] == '\0'
  {
    if buf == [] || buf[0] == '\0' then [] else [buf[0]] + Text(buf[1..])
  }

  /** Where a blank directive that starts at `i` leaves the input: at the first byte from `i` on that is not white space. */
  function SpaceEnd(s: seq<char>, i: nat): (j: nat)
    requires i <= |s|
    ensures i <= j <= |s|
    ensures forall k :: i <= k < j ==> IsSpace(s[k])
    ensures j == |s| || !IsSpace(s[j])
    decreases |s| - i
  {
    if i < |s| && IsSpace(s[i]) then SpaceEnd(s, i + 1) else i
  }

  /** Where a word that starts at `i` ends: at the first white-space byte from `i` on, or at the end. */
  function WordEnd(s: seq<char>, i: nat): (j: nat)
    requires i <= |s|
    ensures i <= j <= |s|
    ensures forall k :: i <= k < j ==> !IsSpace(s[k])
    ensures j == |s| || IsSpace(s[j])
    decreases |s| - i
  {
    if i < |s| && !IsSpace(s[i]) then WordEnd(s, i + 1) else i
  }

  /** A directive of a `sscanf` format: " ", "%c" or "%s". */
  datatype Directive = Blank | Char | Word

  /**
    The items `sscanf` assigns when it reads the C string `s` from position `i`
    with format `fmt`, in order. Reading stops at the first directive that meets
    the end of the input; with these three directives that is the only way
    `sscanf` stops early.
  */
  function Scan(s: seq<char>, i: nat, fmt: seq<Directive>): (items: seq<seq<char>>)
    requires i <= |s|
    ensures |items| <= |fmt|
    ensures [] !in items
    decreases |fmt|
  {
    if fmt == [] then []
    else match fmt[0]
      case Blank => Scan(s, SpaceEnd(s, i), fmt[1..])
      case Char => if i == |s| then [] else [s[i..i + 1]] + Scan(s, i + 1, fmt[1..])
      case Word =>
        var j := SpaceEnd(s, i);
        if j == |s| then []
        else
          var e := WordEnd(s, j);
          [s[j..e]] + Scan(s, e, fmt[1..])
  }

  /**
    The return value of `sscanf`: the number of items assigned, or EOF (-1)
    when the input ends before the first one. With a format that opens with
    `%c`, EOF means exactly that the C string is empty.
  */
  function Assigned(s: seq<char>, fmt: seq<Directive>): (n: int)
    ensures n == -1 || 1 <= n <= |fmt|
    ensures n == -1 <==> Scan(s, 0, fmt) == []
    ensures |fmt| > 0 && fmt[0] == Char ==> (n == -1 <==> s == [])
    ensures n >= 0 ==> n == |Scan(s, 0, fmt)|
  {
    var k := |Scan(s, 0, fmt)|;
    if k == 0 then -1 else k
  }

  lemma ScanCharStep(s: seq<char>, i: nat, fmt: seq<Directive>)
    requires i < |s|
    ensures Scan(s, i, [Char] + fmt) == [[s[i]]] + Scan(s, i + 1, fmt)
  {
    assert ([Char] + fmt)[0] == Char;
    assert ([Char] + fmt)[1..] == fmt;
    assert s[i..i + 1] == [s[i]];
  }

  lemma ScanBlankStep(s: seq<char>, i: nat, fmt: seq<Directive>)
    requires i <= |s|
    ensures Scan(s, i, [Blank] + fmt) == Scan(s, SpaceEnd(s, i), fmt)
  {
    assert ([Blank] + fmt)[0] == Blank;
    assert ([Blank] + fmt)[1..] == fmt;
  }

  lemma ScanWordStep(s: seq<char>, j: nat, fmt: seq<Directive>)
    requires j <= |s|
    requires j == |s| || !IsSpace(s[j])
    ensures Scan(s, j, [Word] + fmt) ==
      if j == |s| then [] else [s[j..WordEnd(s, j)]] + Scan(s, WordEnd(s, j), fmt)
  {
    assert ([Word] + fmt)[0] == Word;
    assert ([Word] + fmt)[1..] == fmt;
    assert SpaceEnd(s, j) == j;
  }

  /**
    How `sscanf` reads a format of the shape "%c %s <last>" from the start of
    `s`: the first byte, then the word from `j` to `e`, the first after it,
    then whatever `last` makes of the input from `k`, the first byte after the
    white space that follows that word.
  */
  lemma ScanRequest(s: seq<char>, last: Directive, fmt: seq<Directive>)
    returns (j: nat, e: nat, k: nat)
    requires fmt == [Char, Blank, Word, Blank, last]
    ensures s == [] ==> Scan(s, 0, fmt) == []
    ensures s != [] ==>
      && j == SpaceEnd(s, 1) && (j < |s| ==> e == WordEnd(s, j) && k == SpaceEnd(s, e))
      && (j == |s| ==> Scan(s, 0, fmt) == [[s[0]]])
      && (j < |s| ==> Scan(s, 0, fmt) == [[s[0]]] + ([s[j..e]] + Scan(s, k, [last])))
  {
    var tail2 := [Blank] + [last];
    var tail3 := [Word] + tail2;
    var tail4 := [Blank] + tail3;
    assert fmt == [Char] + tail4;
    j, e, k := 0, 0, 0;
    if s != [] {
      ScanCharStep(s, 0, tail4);
      ScanBlankStep(s, 1, tail3);
      j := SpaceEnd(s, 1);
      ScanWordStep(s, j, tail2);
      if j < |s| {
        e := WordEnd(s, j);
        ScanBlankStep(s, e, [last]);
        k := SpaceEnd(s, e);
      }
    }
  }

  /** What the final directive of a request format reads, once the white space before it is gone. */
  lemma ScanLast(s: seq<char>, k: nat, last: Directive)
    requires k <= |s|
    requires k == |s| || !IsSpace(s[k])
    requires last != Blank
    ensures Scan(s, k, [last]) ==
      if k == |s| then []
      else if last == Char then [[s[k]]]
      else [s[k..WordEnd(s, k)]]
  {
    assert [last][1..] == [];
    if k < |s| {
      assert s[k..k + 1] == [s[k]];
      assert SpaceEnd(s, k) == k;
    }
  }

  /** A run of non-white-space bytes taken from a C string is a word. */
  lemma WordIn(s: seq<char>, j: nat, e: nat)
    requires '\0' !in s
    requires j < e <= |s|
    requires forall k :: j <= k < e ==> !IsSpace(s[k])
    ensures IsWord(s[j..e])
  {
    forall i | 0 <= i < e - j
      ensures !IsSpace(s[j..e][i]) && s[j..e][i] != '\0'
    {
      assert s[j..e][i] == s[j + i] && s[j + i] in s;
    }
  }

  // ---------------------------------------------------------------------------
  // Reading text whose layout is known

  /** A blank directive stops exactly at the end of a run of white space. */
  lemma {:induction false} SpaceEndOver(s: seq<char>, i: nat, j: nat)
    requires i <= j <= |s|
    requires forall k :: i <= k < j ==> IsSpace(s[k])
    requires j == |s| || !IsSpace(s[j])
    ensures SpaceEnd(s, i) == j
    decreases j - i
  {
    if i < j {
      SpaceEndOver(s, i + 1, j);
    }
  }

  /** A word ends exactly where its run of non-white-space bytes ends. */
  lemma {:induction false} WordEndOver(s: seq<char>, i: nat, j: nat)
    requires i <= j <= |s|
    requires forall k :: i <= k < j ==> !IsSpace(s[k])
    requires j == |s| || IsSpace(s[j])
    ensures WordEnd(s, i) == j
    decreases j - i
  {
    if i < j {
      WordEndOver(s, i + 1, j);
    }
  }
}
