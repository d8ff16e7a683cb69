/**
 The text for a word of access flags, written into a buffer whose size is computed beforehand from
 the number of flags that are set.
 */
module AccessFlags {

  // --- Counting bits -------------------------------------------------------------------------------------

  function Shifted(x: bv32, n: nat): bv32 {
    if n == 0 then x else Shifted(x, n - 1) >> 1
  }

  function Bit(x: bv32): nat {
    if x & 1 == 1 then 1 else 0
  }

  /** How many of the lowest `n` bits are set. */
  function Ones(x: bv32, n: nat): (r: nat)
    ensures r <= n
  {
    if n == 0 then 0 else Ones(x, n - 1) + Bit(Shifted(x, n - 1))
  }

  /** Each pair of bits becomes their sum. */
  function Pairs(x: bv32): bv32 {
    x - ((x >> 1) & 0x5555_5555)
  }

  /** Each group of four becomes the sum of its pairs. */
  function Nibbles(v: bv32): bv32 {
    (v & 0x3333_3333) + ((v >> 2) & 0x3333_3333)
  }

  /** Each byte becomes the sum of its halves. */
  function Octets(v: bv32): bv32 {
    (v + (v >> 4)) & 0x0F0F_0F0F
  }

  /** The lowest two, four and eight bits, added up. */
  function Low2(x: bv32): bv32 {
    (x & 1) + ((x >> 1) & 1)
  }

  function Low4(x: bv32): bv32 {
    Low2(x) + Low2(x >> 2)
  }

  function Low8(x: bv32): bv32 {
    Low4(x) + Low4(x >> 4)
  }

  lemma FirstByte(x: bv32)
    ensures Octets(Nibbles(Pairs(x))) & 0xFF == Low8(x)
  {
  }

  lemma SecondByte(x: bv32)
    ensures (Octets(Nibbles(Pairs(x))) >> 8) & 0xFF == Low8(x >> 8)
  {
  }

  lemma ThirdByte(x: bv32)
    ensures (Octets(Nibbles(Pairs(x))) >> 16) & 0xFF == Low8(x >> 16)
  {
  }

  lemma FourthByte(x: bv32)
    ensures (Octets(Nibbles(Pairs(x))) >> 24) & 0xFF == Low8(x >> 24)
  {
  }

  lemma HighHalvesClear(x: bv32)
    ensures Octets(Nibbles(Pairs(x))) & 0xF0F0_F0F0 == 0
  {
  }

  /** The multiplication adds up the four bytes in the highest one. */
  lemma BytesAdded(v: bv32, a: bv32, b: bv32, c: bv32, d: bv32)
    requires v & 0xF0F0_F0F0 == 0
    requires a == v & 0xFF && b == (v >> 8) & 0xFF && c == (v >> 16) & 0xFF && d == (v >> 24) & 0xFF
    ensures (v * 0x0101_0101) >> 24 == (a + b) + (c + d)
    ensures a <= 15 && b <= 15 && c <= 15 && d <= 15 && (a + b) + (c + d) <= 0x40
  {
  }

  // --- The sum of the bits is their number -----------------------------------------------------------------

  /** The number a word stands for, counted up. */
  function Num(a: bv32): nat
    decreases a
  {
    if a == 0 then 0 else 1 + Num(a - 1)
  }

  lemma {:induction false} NumOfSum(a: bv32, b: bv32)
    requires a <= 0x40 && b <= 0x40
    ensures Num(a + b) == Num(a) + Num(b)
    decreases b
  {
    if b == 0 {
      assert a + b == a;
    } else {
      NumOfSum(a, b - 1);
      OneUp(a, b);
    }
  }

  lemma OneUp(a: bv32, b: bv32)
    requires a <= 0x40 && 0 < b <= 0x40
    ensures a + b != 0 && (a + b) - 1 == a + (b - 1)
  {
  }

  lemma {:induction false} NumIsInt(a: bv32)
    requires a <= 0x40
    ensures Num(a) == a as int
    decreases a
  {
    if a != 0 {
      NumIsInt(a - 1);
      OneDown(a);
    }
  }

  lemma OneDown(a: bv32)
    requires 0 < a <= 0x40
    ensures (a - 1) as int == a as int - 1
  {
  }

  lemma {:induction false} ShiftedTwice(x: bv32, m: nat, n: nat)
    ensures Shifted(Shifted(x, m), n) == Shifted(x, m + n)
  {
    if n > 0 {
      ShiftedTwice(x, m, n - 1);
    }
  }

  lemma {:induction false} OnesSplit(x: bv32, m: nat, n: nat)
    ensures Ones(x, m + n) == Ones(x, m) + Ones(Shifted(x, m), n)
  {
    if n > 0 {
      OnesSplit(x, m, n - 1);
      ShiftedTwice(x, m, n - 1);
    }
  }

  lemma Shifted1(x: bv32)
    ensures Shifted(x, 1) == x >> 1
  {
    assert Shifted(x, 0) == x;
  }

  lemma Shifted2(x: bv32)
    ensures Shifted(x, 2) == x >> 2
  {
    Shifted1(x);
    Shifted1(x >> 1);
    ShiftedTwice(x, 1, 1);
  }

  lemma Shifted4(x: bv32)
    ensures Shifted(x, 4) == x >> 4
  {
    Shifted2(x);
    Shifted2(x >> 2);
    ShiftedTwice(x, 2, 2);
  }

  lemma Shifted8(x: bv32)
    ensures Shifted(x, 8) == x >> 8
  {
    Shifted4(x);
    Shifted4(x >> 4);
    ShiftedTwice(x, 4, 4);
  }

  lemma Ones2(x: bv32)
    ensures Num(Low2(x)) == Ones(x, 2) && Low2(x) <= 2
  {
  }

  lemma OnesDouble(x: bv32, y: bv32, a: bv32, b: bv32, n: nat)
    requires y == Shifted(x, n) && Num(a) == Ones(x, n) && Num(b) == Ones(y, n) && a <= 0x40 && b <= 0x40
    ensures Num(a + b) == Ones(x, n + n)
  {
    OnesSplit(x, n, n);
    NumOfSum(a, b);
  }

  lemma OnesOfPairs(x: bv32, y: bv32, a: bv32, b: bv32)
    requires y == Shifted(x, 2) && a == Low2(x) && b == Low2(y)
    ensures Num(a + b) == Ones(x, 4)
  {
    Ones2(x);
    Ones2(y);
    OnesDouble(x, y, a, b, 2);
  }

  lemma Ones4(x: bv32)
    ensures Num(Low4(x)) == Ones(x, 4)
  {
    Shifted2(x);
    OnesOfPairs(x, x >> 2, Low2(x), Low2(x >> 2));
  }

  lemma SmallSums(x: bv32)
    ensures Low4(x) <= 4
  {
  }

  lemma Ones8(x: bv32)
    ensures Num(Low8(x)) == Ones(x, 8)
  {
    Shifted4(x);
    Ones4(x);
    Ones4(x >> 4);
    SmallSums(x);
    SmallSums(x >> 4);
    OnesDouble(x, x >> 4, Low4(x), Low4(x >> 4), 4);
  }

  /** The set bits of a word are those of its four bytes. */
  lemma FourBytes(x: bv32, b: bv32, c: bv32, d: bv32)
    requires b == Shifted(x, 8) && c == Shifted(b, 8) && d == Shifted(c, 8)
    ensures Ones(x, 32) == Ones(x, 8) + Ones(b, 8) + Ones(c, 8) + Ones(d, 8)
  {
    OnesSplit(x, 8, 24);
    OnesSplit(b, 8, 16);
    OnesSplit(c, 8, 8);
  }

  lemma SumOfFour(a: bv32, b: bv32, c: bv32, d: bv32)
    requires a <= 15 && b <= 15 && c <= 15 && d <= 15
    ensures Num((a + b) + (c + d)) == Num(a) + Num(b) + Num(c) + Num(d)
  {
    NumOfSum(a, b);
    NumOfSum(c, d);
    NumOfSum(a + b, c + d);
  }

  lemma SecondShift(x: bv32)
    ensures Shifted(x >> 8, 8) == x >> 16
  {
    Shifted8(x >> 8);
  }

  lemma ThirdShift(x: bv32)
    ensures Shifted(x >> 16, 8) == x >> 24
  {
    Shifted8(x >> 16);
  }

  lemma OnesOfBytes(x: bv32, y: bv32, z: bv32, w: bv32)
    requires y == Shifted(x, 8) && z == Shifted(y, 8) && w == Shifted(z, 8)
    ensures Ones(x, 32) == Num(Low8(x)) + Num(Low8(y)) + Num(Low8(z)) + Num(Low8(w))
  {
    FourBytes(x, y, z, w);
    Ones8(x);
    Ones8(y);
    Ones8(z);
    Ones8(w);
  }

  lemma BytesHoldCounts(x: bv32, v: bv32)
    requires v == Octets(Nibbles(Pairs(x)))
    ensures Num(v & 0xFF) + Num((v >> 8) & 0xFF) + Num((v >> 16) & 0xFF) + Num((v >> 24) & 0xFF) == Ones(x, 32)
  {
    FirstByte(x);
    SecondByte(x);
    ThirdByte(x);
    FourthByte(x);
    Shifted8(x);
    SecondShift(x);
    ThirdShift(x);
    OnesOfBytes(x, x >> 8, x >> 16, x >> 24);
  }

  lemma CountIsSum(v: bv32, total: bv32)
    requires v & 0xF0F0_F0F0 == 0 && total == (v * 0x0101_0101) >> 24
    ensures total as int == Num(v & 0xFF) + Num((v >> 8) & 0xFF) + Num((v >> 16) & 0xFF) + Num((v >> 24) & 0xFF)
  {
    var a, b, c, d := v & 0xFF, (v >> 8) & 0xFF, (v >> 16) & 0xFF, (v >> 24) & 0xFF;
    BytesAdded(v, a, b, c, d);
    SumOfFour(a, b, c, d);
    NumIsInt(total);
  }

  lemma CountIsOnes(x: bv32, v: bv32, total: bv32)
    requires v == Octets(Nibbles(Pairs(x))) && total == (v * 0x0101_0101) >> 24
    ensures total as int == Ones(x, 32)
  {
    HighHalvesClear(x);
    BytesHoldCounts(x, v);
    CountIsSum(v, total);
  }

  lemma StepsAreSums(x: bv32, p: bv32, n: bv32, v: bv32)
    requires p == x - ((x >> 1) & 0x5555_5555)
    requires n == (p & 0x3333_3333) + ((p >> 2) & 0x3333_3333)
    requires v == (n + (n >> 4)) & 0x0F0F_0F0F
    ensures v == Octets(Nibbles(Pairs(x)))
  {
  }

  lemma StepsCount(x: bv32, p: bv32, n: bv32, v: bv32, total: bv32)
    requires p == x - ((x >> 1) & 0x5555_5555)
    requires n == (p & 0x3333_3333) + ((p >> 2) & 0x3333_3333)
    requires v == (n + (n >> 4)) & 0x0F0F_0F0F
    requires total == (v * 0x0101_0101) >> 24
    ensures total as int == Ones(x, 32)
  {
    StepsAreSums(x, p, n, v);
    CountIsOnes(x, v, total);
  }

  /** The count is the number of set bits of the word. */
  method CountOnes(word: bv32) returns (count: nat)
    ensures count == Ones(word, 32)
  {
    var pairs := word - ((word >> 1) & 0x5555_5555);
    var nibbles := (pairs & 0x3333_3333) + ((pairs >> 2) & 0x3333_3333);
    var octets := (nibbles + (nibbles >> 4)) & 0x0F0F_0F0F;
    var total := (octets * 0x0101_0101) >> 24;
    StepsCount(word, pairs, nibbles, octets, total);
    count := total as int;
  }

  // --- The text --------------------------------------------------------------------------------------------

  const NUM_FLAGS: nat := 18
  const LONGEST: nat := 21

  const CLASS_FLAGS: seq<string> :=
    ["PUBLIC", "PRIVATE", "PROTECTED", "STATIC", "FINAL", "?", "?", "?", "?", "INTERFACE", "ABSTRACT", "?",
     "SYNTHETIC", "ANNOTATION", "ENUM", "?", "VERIFIED", "OPTIMIZED"]

  const METHOD_FLAGS: seq<string> :=
    ["PUBLIC", "PRIVATE", "PROTECTED", "STATIC", "FINAL", "SYNCHRONIZED", "BRIDGE", "VARARGS", "NATIVE", "?",
     "ABSTRACT", "STRICT", "SYNTHETIC", "?", "?", "MIRANDA", "CONSTRUCTOR", "DECLARED_SYNCHRONIZED"]

  const FIELD_FLAGS: seq<string> :=
    ["PUBLIC", "PRIVATE", "PROTECTED", "STATIC", "FINAL", "?", "VOLATILE", "TRANSIENT", "?", "?", "?", "?",
     "SYNTHETIC", "?", "ENUM", "?", "?", "?"]

  datatype AccessFor = Class | Method | Field

  function Names(what: AccessFor): (r: seq<string>)
    ensures |r| == NUM_FLAGS && forall i :: 0 <= i < NUM_FLAGS ==> 0 < |r[i]| <= LONGEST
  {
    match what
    case Class => CLASS_FLAGS
    case Method => METHOD_FLAGS
    case Field => FIELD_FLAGS
  }

  /** The names of the first `n` flags that are set, with a space between any two. */
  function Text(flags: bv32, names: seq<string>, n: nat): string
    requires n <= |names|
  {
    if n == 0 then ""
    else
      var before := Text(flags, names, n - 1);
      if Bit(Shifted(flags, n - 1)) == 0 then before
      else (if before == "" then "" else before + " ") + names[n - 1]
  }

  lemma {:induction false} OnesGrow(x: bv32, m: nat, n: nat)
    requires m <= n
    ensures Ones(x, m) <= Ones(x, n)
  {
    if m < n {
      OnesGrow(x, m, n - 1);
    }
  }

  /** Writes the text and its terminator into a buffer that is always large enough. */
  method CreateAccessFlagStr(flags: bv32, what: AccessFor) returns (str: array<char>, ghost end: nat)
    ensures fresh(str) && end < str.Length
    ensures str[..end] == Text(flags, Names(what), NUM_FLAGS) && str[end] == '\0'
  {
    var count := CountOnes(flags);
    str := new char[count * (LONGEST + 1) + 1](_ => '\0');
    var cp := 0;
    for i := 0 to NUM_FLAGS
      invariant cp <= 22 * Ones(flags, i)
      invariant str.Length == 22 * Ones(flags, 32) + 1
      invariant cp < str.Length && str[..cp] == Text(flags, Names(what), i)
    {
      OnesGrow(flags, i + 1, 32);
      if Bit(Shifted(flags, i)) == 1 {
        cp := AppendName(str, cp, Names(what)[i]);
      }
    }
    str[cp] := '\0';
    end := cp;
  }

  method AppendName(str: array<char>, cp: nat, name: string) returns (next: nat)
    requires cp + 1 + |name| <= str.Length
    modifies str
    ensures cp <= next <= cp + 1 + |name|
    ensures str[..next] == (if cp == 0 then "" else old(str[..cp]) + " ") + name
  {
    next := cp;
    if next != 0 {
      str[next] := ' ';
      next := next + 1;
    }
    next := CopyName(str, next, name);
  }

  method CopyName(str: array<char>, cp: nat, name: string) returns (next: nat)
    requires cp + |name| <= str.Length
    modifies str
    ensures next == cp + |name| && str[..next] == old(str[..cp]) + name
  {
    for k := 0 to |name|
      invariant str[..cp + k] == old(str[..cp]) + name[..k]
    {
      str[cp + k] := name[k];
    }
    next := cp + |name|;
  }

  // --- Reading the text ------------------------------------------------------------------------------------

  // What each bit means for classes, methods and fields.

  lemma ClassFlagMeanings()
    ensures var n := Names(Class);
            && n[0] == "PUBLIC" && n[1] == "PRIVATE" && n[2] == "PROTECTED" && n[3] == "STATIC"
            && n[4] == "FINAL" && n[9] == "INTERFACE" && n[10] == "ABSTRACT" && n[12] == "SYNTHETIC"
            && n[13] == "ANNOTATION" && n[14] == "ENUM" && n[16] == "VERIFIED" && n[17] == "OPTIMIZED"
            && (forall i :: i in {5, 6, 7, 8, 11, 15} ==> n[i] == "?")
  {
  }

  lemma MethodFlagMeanings()
    ensures var n := Names(Method);
            && n[0] == "PUBLIC" && n[1] == "PRIVATE" && n[2] == "PROTECTED" && n[3] == "STATIC"
            && n[4] == "FINAL" && n[5] == "SYNCHRONIZED" && n[6] == "BRIDGE" && n[7] == "VARARGS"
            && n[8] == "NATIVE" && n[10] == "ABSTRACT" && n[11] == "STRICT" && n[12] == "SYNTHETIC"
            && n[15] == "MIRANDA" && n[16] == "CONSTRUCTOR" && n[17] == "DECLARED_SYNCHRONIZED"
            && (forall i :: i in {9, 13, 14} ==> n[i] == "?")
  {
  }

  lemma FieldFlagMeanings()
    ensures var n := Names(Field);
            && n[0] == "PUBLIC" && n[1] == "PRIVATE" && n[2] == "PROTECTED" && n[3] == "STATIC"
            && n[4] == "FINAL" && n[6] == "VOLATILE" && n[7] == "TRANSIENT" && n[12] == "SYNTHETIC"
            && n[14] == "ENUM"
            && (forall i :: i in {5, 8, 9, 10, 11, 13, 15, 16, 17} ==> n[i] == "?")
  {
  }

  /** The names of the flags that are set, in order. */
  function SetNames(flags: bv32, names: seq<string>, n: nat): seq<string>
    requires n <= |names|
  {
    if n == 0 then [] else SetNames(flags, names, n - 1) + if Bit(Shifted(flags, n - 1)) == 1 then [names[n - 1]] else []
  }

  /** The pieces between spaces; there is always at least one. */
  function Pieces(s: string): (r: seq<string>)
    ensures r != []
  {
    if s == "" then [""]
    else
      var c, r := s[|s| - 1], Pieces(s[..|s| - 1]);
      if c == ' ' then r + [""] else r[..|r| - 1] + [r[|r| - 1] + [c]]
  }

  lemma {:induction false} PiecesMore(s: string, done: seq<string>, t: string)
    requires Pieces(s) == done + [""] && ' ' !in t
    ensures Pieces(s + t) == done + [t]
    decreases |t|
  {
    if t == "" {
      assert s + t == s;
    } else {
      var before, c := t[..|t| - 1], t[|t| - 1];
      PiecesMore(s, done, before);
      assert (s + t)[..|s + t| - 1] == s + before && before + [c] == t && c in t;
      assert (done + [before])[..|done|] == done;
    }
  }

  lemma PiecesSpace(s: string)
    ensures Pieces(s + " ") == Pieces(s) + [""]
  {
    assert (s + " ")[..|s|] == s;
  }

  /** The text can be read back: split at spaces it gives the names of exactly the flags that are set. */
  lemma {:induction false} TextReadsBack(flags: bv32, names: seq<string>, n: nat)
    requires n <= |names| && forall i :: 0 <= i < |names| ==> names[i] != "" && ' ' !in names[i]
    ensures Text(flags, names, n) == "" <==> SetNames(flags, names, n) == []
    ensures Text(flags, names, n) != "" ==> Pieces(Text(flags, names, n)) == SetNames(flags, names, n)
  {
    if n > 0 {
      var before, set_ := Text(flags, names, n - 1), SetNames(flags, names, n - 1);
      TextReadsBack(flags, names, n - 1);
      if Bit(Shifted(flags, n - 1)) == 1 {
        if before == "" {
          PiecesMore("", [], names[n - 1]);
          assert "" + names[n - 1] == names[n - 1];
        } else {
          PiecesSpace(before);
          PiecesMore(before + " ", set_, names[n - 1]);
        }
      }
    }
  }

  /** No name is empty or has a space in it, so this applies to all three tables. */
  lemma NamesHaveNoSpace(what: AccessFor, i: nat)
    requires i < NUM_FLAGS
    ensures Names(what)[i] != "" && ' ' !in Names(what)[i]
  {
    match what {
      case Class => ClassNamesHaveNoSpace(i);
      case Method => MethodNamesHaveNoSpace(i);
      case Field => FieldNamesHaveNoSpace(i);
    }
  }

  lemma ClassNamesHaveNoSpace(i: nat)
    requires i < NUM_FLAGS
    ensures ' ' !in CLASS_FLAGS[i]
  {
  }

  lemma MethodNamesHaveNoSpace(i: nat)
    requires i < NUM_FLAGS
    ensures ' ' !in METHOD_FLAGS[i]
  {
  }

  lemma FieldNamesHaveNoSpace(i: nat)
    requires i < NUM_FLAGS
    ensures ' ' !in FIELD_FLAGS[i]
  {
  }
}
