/**
 The part of the managed heap that a transaction can see: typed cells addressed by an object and
 a field offset or an array index, and the 64-bit words in which a transaction log keeps them.
 */
module ManagedHeap {

  const TWO_8: nat := 0x100
  const TWO_16: nat := 0x1_0000
  const TWO_32: nat := 0x1_0000_0000
  const TWO_64: nat := 0x1_0000_0000_0000_0000

  /** A machine word as the logs store it. */
  type Word64 = n: nat | n < TWO_64

  /** An object address; 0 is the null reference. */
  type Addr = n: nat | n < TWO_64

  const NULL: Addr := 0

  /** Offset of `Object::klass_`, present in every object. */
  const CLASS_OFFSET: nat := 0
  /** Offset of `Array::length_`, present in arrays only. */
  const LENGTH_OFFSET: nat := 8

  /**
   The storage types of cells. Fields use U8 (boolean), I8, U16, I16, U32, U64 and Reference;
   elements of primitive arrays use U8, I8, U16, I16, I32, I64 and Float (float and double).
   */
  datatype Kind = U8 | I8 | U16 | I16 | U32 | I32 | U64 | I64 | Reference | Float

  /** The component types of primitive arrays. */
  type ElemKind = k: Kind | !k.Reference? && !k.U32? && !k.U64? witness U8

  datatype Value = Word(n: int) | Ref(addr: Addr) | Fp(r: real)

  datatype Cell = Cell(kind: Kind, value: Value)

  datatype Loc = Field(obj: Addr, offset: nat) | Elem(obj: Addr, index: nat)

  datatype Shape = Instance | ClassObject | PrimitiveArray(elem: ElemKind) | ObjectArray

  datatype Header = Header(shape: Shape, inBootImage: bool) {
    predicate IsArray() {
      shape.PrimitiveArray? || shape.ObjectArray?
    }
  }

  datatype Heap = Heap(headers: map<Addr, Header>, cells: map<Loc, Cell>)

  /** The values a cell of the given kind can hold. */
  predicate Fits(kind: Kind, v: Value) {
    match kind
    case U8 => v.Word? && 0 <= v.n < TWO_8
    case I8 => v.Word? && -0x80 <= v.n < 0x80
    case U16 => v.Word? && 0 <= v.n < TWO_16
    case I16 => v.Word? && -0x8000 <= v.n < 0x8000
    case U32 => v.Word? && 0 <= v.n < TWO_32
    case I32 => v.Word? && -0x8000_0000 <= v.n < 0x8000_0000
    case U64 => v.Word? && 0 <= v.n < TWO_64
    case I64 => v.Word? && -0x8000_0000_0000_0000 <= v.n < 0x8000_0000_0000_0000
    case Reference => v.Ref?
    case Float => v.Fp?
  }

  /**
   Well-formed heaps: cells belong to existing objects and hold values of their kind, null is no
   object, references lead to existing objects, and array elements have the array's type.
   */
  predicate WellFormed(h: Heap) {
    && NULL !in h.headers
    && (forall loc :: loc in h.cells ==> CellOk(h, loc, h.cells[loc]))
  }

  predicate CellOk(h: Heap, loc: Loc, c: Cell) {
    && loc.obj in h.headers
    && Fits(c.kind, c.value)
    && (c.value.Ref? ==> c.value.addr == NULL || c.value.addr in h.headers)
    && (loc.Elem? ==> h.headers[loc.obj].shape.PrimitiveArray? && h.headers[loc.obj].shape.elem == c.kind)
    && (loc.Field? ==> c.kind != Float)
  }

  // --- Conversion to and from the words of a log -------------------------------------------

  /** Implicit conversion of a signed value to `uint64_t`. */
  function ToU64(n: int): (r: Word64)
    requires -(TWO_64 as int) < n < TWO_64
    ensures r == n || r == n + TWO_64
  {
    if n < 0 then n + TWO_64 else n
  }

  /** Cast of a word to a signed integer of `2 * half` values. */
  function ToSigned(bits: nat, half: nat): (n: int)
    requires half > 0
    ensures -(half as int) <= n < half
  {
    var low := bits % (2 * half);
    if low < half then low else low - 2 * half
  }

  /**
   What a log stores for a value. A float or double is converted by value, which drops the
   fraction; outside (-1, 2^64) that conversion has no defined result and 0 stands in for it.
   */
  function Encode(kind: Kind, v: Value): Word64
    requires Fits(kind, v)
  {
    match v
    case Word(n) => ToU64(n)
    case Ref(a) => a
    case Fp(r) => if 0.0 <= r < TWO_64 as real then r.Floor else 0
  }

  /** What undoing a log entry writes back into a cell of the given kind. */
  function Decode(kind: Kind, bits: Word64): (v: Value)
    ensures Fits(kind, v)
  {
    match kind
    case U8 => Word(bits % TWO_8)
    case I8 => Word(ToSigned(bits, 0x80))
    case U16 => Word(bits % TWO_16)
    case I16 => Word(ToSigned(bits, 0x8000))
    case U32 => Word(bits % TWO_32)
    case I32 => Word(ToSigned(bits, 0x8000_0000))
    case U64 => Word(bits)
    case I64 => Word(ToSigned(bits, 0x8000_0000_0000_0000))
    case Reference => Ref(bits)
    case Float => Fp(bits as real)
  }

  /** The values that survive being logged and undone. */
  predicate Loggable(v: Value) {
    v.Fp? ==> 0.0 <= v.r < TWO_64 as real && v.r == v.r.Floor as real
  }

  /** Sign extension to 64 bits followed by truncation gives the value back. */
  lemma SignedRoundTrip(n: int, half: nat, factor: nat)
    requires half > 0 && TWO_64 == factor * (2 * half)
    requires -(half as int) <= n < half
    requires -(TWO_64 as int) < n < TWO_64
    ensures ToSigned(ToU64(n), half) == n
  {
    if n < 0 {
      DivisorShift(n + 2 * half, factor - 1, 2 * half);
      assert (factor - 1) * (2 * half) == factor * (2 * half) - 2 * half;
    } else {
      DivisorShift(n, 0, 2 * half);
    }
  }

  lemma {:induction false} DivisorShift(low: nat, times: nat, m: nat)
    requires low < m
    ensures (low + times * m) % m == low
  {
    var x := low + times * m;
    var q, r := x / m, x % m;
    assert (q - times) * m == low - r by {
      assert x == q * m + r;
    }
    if q > times {
      assert (q - times) * m >= m by { AtLeastFactor(q - times, m); }
    } else if q < times {
      assert (times - q) * m >= m by { AtLeastFactor(times - q, m); }
    }
  }

  lemma AtLeastFactor(k: nat, m: nat)
    requires k >= 1
    ensures k * m >= m
  {
  }

  lemma SmallIsOwnRemainder(n: nat, m: nat)
    requires n < m
    ensures n % m == n
  {
  }

  /** Every loggable value of a kind survives the way into the log and back. */
  lemma EncodeDecode(kind: Kind, v: Value)
    requires Fits(kind, v) && Loggable(v)
    ensures Decode(kind, Encode(kind, v)) == v
  {
    match kind
    case U8 => SmallIsOwnRemainder(v.n, TWO_8);
    case U16 => SmallIsOwnRemainder(v.n, TWO_16);
    case U32 => SmallIsOwnRemainder(v.n, TWO_32);
    case I8 => SignedRoundTrip(v.n, 0x80, 0x100_0000_0000_0000);
    case I16 => SignedRoundTrip(v.n, 0x8000, 0x1_0000_0000_0000);
    case I32 => SignedRoundTrip(v.n, 0x8000_0000, 0x1_0000_0000);
    case I64 => SignedRoundTrip(v.n, 0x8000_0000_0000_0000, 1);
    case U64 =>
    case Reference =>
    case Float =>
  }

  /**
   Logging a float or double array element restores it exactly when the element is a
   non-negative integer; every other value in the convertible range is lost.
   */
  lemma FloatRestoredIff(r: real)
    requires -1.0 < r < TWO_64 as real
    ensures Decode(Float, Encode(Float, Fp(r))) == Fp(r) <==> Loggable(Fp(r))
  {
  }

  lemma FloatElementLost()
    ensures Decode(Float, Encode(Float, Fp(3.5))) == Fp(3.0)
  {
  }
}
