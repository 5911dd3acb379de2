/** The bit primitives of the register layer: word widths, the field mask,
 *  the value-width check, and the two word expressions every accessor is
 *  built from — the masked read `(word & mask(pos, len)) >> pos` and the
 *  read-modify-write `(word & ~mask(pos, len)) | (val << pos)`.
 *
 *  The lemmas give each expression an independent meaning: which bits it
 *  sets, what it is in plain arithmetic, and how reads and writes of the
 *  same or of disjoint fields interact.
 */
module Register {
  import opened Bits

  /** The two runtime failures of the layer: `std::domain_error` (a value
      does not fit its field) and `std::out_of_range` (an array index is not
      below the capacity). */
  datatype Error = DomainError | OutOfRange

  /** The outcome of an operation that either completes or throws. */
  datatype Outcome = Pass | Fail(error: Error)

  /** The result of a read that either returns a value or throws. */
  datatype Result<+T> = Success(value: T) | Failure(error: Error)

  const CHAR_BIT: nat := 8

  /** The unsigned storage types a register word can have. */
  datatype BaseType = UInt8 | UInt16 | UInt32 | UInt64

  /** `sizeof(T)` in bytes. */
  function SizeOf(t: BaseType): nat
  {
    match t
    case UInt8 => 1
    case UInt16 => 2
    case UInt32 => 4
    case UInt64 => 8
  }

  /** `n_bits<T>()`: the number of bits in a word of type t. */
  function NBits(t: BaseType): (r: nat)
    ensures 8 <= r <= 64 && r % CHAR_BIT == 0
  {
    SizeOf(t) * CHAR_BIT
  }

  /** `mask<T>(pos, len)`: `len` one-bits shifted up to position `pos`. */
  function Mask(pos: nat, len: nat): nat
  {
    Shl(Pow2(len) - 1, pos)
  }

  /** `check_val_size(val, len)`: a value is rejected when it is not below
      `1 << len`. */
  function CheckValSize(val: nat, len: nat): Outcome
  {
    if val >= Pow2(len) then Fail(DomainError) else Pass
  }

  /** The value of the `len`-bit field at `pos` in `word`:
      `(word & mask(pos, len)) >> pos`. */
  function ReadField(word: nat, pos: nat, len: nat): nat
  {
    Shr(And(word, Mask(pos, len)), pos)
  }

  /** `word` with the `len`-bit field at `pos` replaced by `val`, computed on a
      `w`-bit word as `(word & ~mask(pos, len)) | (val << pos)`. */
  function WriteField(word: nat, pos: nat, len: nat, val: nat, w: nat): nat
  {
    Or(And(word, Not(Mask(pos, len), w)), Shl(val, pos))
  }

  /** True when the bit ranges [p1, p1 + l1) and [p2, p2 + l2) do not meet. */
  predicate Disjoint(p1: nat, l1: nat, p2: nat, l2: nat)
  {
    p1 + l1 <= p2 || p2 + l2 <= p1
  }

  // ---------------------------------------------------------------------
  // The mask

  /** The mask has exactly the bits [pos, pos + len) set. */
  lemma MaskBits(pos: nat, len: nat, k: nat)
    ensures BitAt(Mask(pos, len), k) <==> pos <= k < pos + len
  {
    BitShl(Pow2(len) - 1, pos, k);
    if pos <= k {
      BitLowOnes(len, k - pos);
    }
  }

  /** For a layout that fits the word, the mask is a value of the word type. */
  lemma MaskFits(pos: nat, len: nat, w: nat)
    requires pos + len <= w
    ensures Mask(pos, len) < Pow2(w)
  {
    forall k: nat | w <= k
      ensures !BitAt(Mask(pos, len), k)
    {
      MaskBits(pos, len, k);
    }
    BoundFromBits(Mask(pos, len), w);
  }

  // ---------------------------------------------------------------------
  // Reading a field

  /** Bit k of a field read is bit pos + k of the word, for k below len. */
  lemma ReadFieldBits(word: nat, pos: nat, len: nat, k: nat)
    ensures BitAt(ReadField(word, pos, len), k) <==> k < len && BitAt(word, pos + k)
  {
    BitShr(And(word, Mask(pos, len)), pos, k);
    BitAnd(word, Mask(pos, len), pos + k);
    MaskBits(pos, len, pos + k);
  }

  /** A field read always fits in the field. */
  lemma ReadFieldBound(word: nat, pos: nat, len: nat)
    ensures ReadField(word, pos, len) < Pow2(len)
  {
    forall k: nat | len <= k
      ensures !BitAt(ReadField(word, pos, len), k)
    {
      ReadFieldBits(word, pos, len, k);
    }
    BoundFromBits(ReadField(word, pos, len), len);
  }

  /** In plain arithmetic a field read is `(word / 2^pos) mod 2^len`. */
  lemma ReadFieldArith(word: nat, pos: nat, len: nat)
    ensures ReadField(word, pos, len) == (word / Pow2(pos)) % Pow2(len)
  {
    var s := Shr(word, pos);
    ShrIsDiv(word, pos);
    forall k: nat
      ensures BitAt(ReadField(word, pos, len), k) == BitAt(s % Pow2(len), k)
    {
      ReadFieldBits(word, pos, len, k);
      BitModPow2(s, len, k);
      BitShr(word, pos, k);
    }
    BitsEqual(ReadField(word, pos, len), s % Pow2(len));
  }

  // ---------------------------------------------------------------------
  // The value check

  /** A value that is not below 2^n has a bit at or above n. */
  lemma WideValueHasHighBit(val: nat, n: nat)
    requires val >= Pow2(n)
    ensures !(forall k: nat :: n <= k ==> !BitAt(val, k))
  {
    if forall k: nat :: n <= k ==> !BitAt(val, k) {
      BoundFromBits(val, n);
    }
  }

  /** `check_val_size` accepts a value exactly when it has no bit at or above
      len. */
  lemma CheckValSizeBits(val: nat, len: nat)
    ensures (CheckValSize(val, len) == Pass) <==> (forall k: nat :: len <= k ==> !BitAt(val, k))
  {
    if val < Pow2(len) {
      forall k: nat | len <= k
        ensures !BitAt(val, k)
      {
        BitAboveBound(val, len, k);
      }
    } else {
      WideValueHasHighBit(val, len);
    }
  }

  /** `check_val_size` accepts a value exactly when storing it in a len-bit
      field and reading it back loses nothing. */
  lemma CheckValSizeLossless(val: nat, len: nat)
    ensures CheckValSize(val, len) == Pass <==> ReadField(val, 0, len) == val
  {
    ReadFieldBound(val, 0, len);
    if val < Pow2(len) {
      forall k: nat
        ensures BitAt(ReadField(val, 0, len), k) == BitAt(val, k)
      {
        ReadFieldBits(val, 0, len, k);
        if len <= k {
          BitAboveBound(val, len, k);
        }
      }
      BitsEqual(ReadField(val, 0, len), val);
    }
  }

  // ---------------------------------------------------------------------
  // Writing a field

  /** After a write the field holds the bits of val and every other bit below
      w is the word's own; nothing is left at or above w. */
  lemma WriteFieldBits(word: nat, pos: nat, len: nat, val: nat, w: nat, k: nat)
    requires val < Pow2(len) && pos + len <= w
    ensures BitAt(WriteField(word, pos, len, val, w), k) <==>
              if pos <= k < pos + len then BitAt(val, k - pos) else k < w && BitAt(word, k)
  {
    var m := Mask(pos, len);
    BitOr(And(word, Not(m, w)), Shl(val, pos), k);
    BitAnd(word, Not(m, w), k);
    BitNot(m, w, k);
    MaskBits(pos, len, k);
    BitShl(val, pos, k);
    if pos + len <= k {
      BitAboveBound(val, len, k - pos);
    }
  }

  /** A write into a w-bit word gives a w-bit word. */
  lemma WriteFieldBound(word: nat, pos: nat, len: nat, val: nat, w: nat)
    requires val < Pow2(len) && pos + len <= w
    ensures WriteField(word, pos, len, val, w) < Pow2(w)
  {
    forall k: nat | w <= k
      ensures !BitAt(WriteField(word, pos, len, val, w), k)
    {
      WriteFieldBits(word, pos, len, val, w, k);
    }
    BoundFromBits(WriteField(word, pos, len, val, w), w);
  }

  /** Round trip: reading the field just written gives the value written. */
  lemma WriteReadRoundTrip(word: nat, pos: nat, len: nat, val: nat, w: nat)
    requires val < Pow2(len) && pos + len <= w
    ensures ReadField(WriteField(word, pos, len, val, w), pos, len) == val
  {
    var word' := WriteField(word, pos, len, val, w);
    forall k: nat
      ensures BitAt(ReadField(word', pos, len), k) == BitAt(val, k)
    {
      ReadFieldBits(word', pos, len, k);
      WriteFieldBits(word, pos, len, val, w, pos + k);
      if len <= k {
        BitAboveBound(val, len, k);
      }
    }
    BitsEqual(ReadField(word', pos, len), val);
  }

  /** Isolation: a write leaves every field that does not meet it unchanged. */
  lemma WriteFieldIsolation(word: nat, pos: nat, len: nat, val: nat, w: nat, pos': nat, len': nat)
    requires val < Pow2(len) && pos + len <= w
    requires pos' + len' <= w && Disjoint(pos, len, pos', len')
    ensures ReadField(WriteField(word, pos, len, val, w), pos', len') == ReadField(word, pos', len')
  {
    var word' := WriteField(word, pos, len, val, w);
    forall k: nat
      ensures BitAt(ReadField(word', pos', len'), k) == BitAt(ReadField(word, pos', len'), k)
    {
      ReadFieldBits(word', pos', len', k);
      ReadFieldBits(word, pos', len', k);
      WriteFieldBits(word, pos, len, val, w, pos' + k);
    }
    BitsEqual(ReadField(word', pos', len'), ReadField(word, pos', len'));
  }

  /** Writing back the value a field already holds changes nothing. */
  lemma WriteBackIdentity(word: nat, pos: nat, len: nat, w: nat)
    requires word < Pow2(w) && pos + len <= w
    ensures WriteField(word, pos, len, ReadField(word, pos, len), w) == word
  {
    var v := ReadField(word, pos, len);
    ReadFieldBound(word, pos, len);
    forall k: nat
      ensures BitAt(WriteField(word, pos, len, v, w), k) == BitAt(word, k)
    {
      WriteFieldBits(word, pos, len, v, w, k);
      if pos <= k < pos + len {
        ReadFieldBits(word, pos, len, k - pos);
      } else if w <= k {
        BitAboveBound(word, w, k);
      }
    }
    BitsEqual(WriteField(word, pos, len, v, w), word);
  }

  /** The last write to a field wins. */
  lemma WriteFieldOverwrite(word: nat, pos: nat, len: nat, v1: nat, v2: nat, w: nat)
    requires v1 < Pow2(len) && v2 < Pow2(len) && pos + len <= w
    ensures WriteField(WriteField(word, pos, len, v1, w), pos, len, v2, w) == WriteField(word, pos, len, v2, w)
  {
    var once := WriteField(word, pos, len, v1, w);
    forall k: nat
      ensures BitAt(WriteField(once, pos, len, v2, w), k) == BitAt(WriteField(word, pos, len, v2, w), k)
    {
      WriteFieldBits(once, pos, len, v2, w, k);
      WriteFieldBits(word, pos, len, v2, w, k);
      WriteFieldBits(word, pos, len, v1, w, k);
    }
    BitsEqual(WriteField(once, pos, len, v2, w), WriteField(word, pos, len, v2, w));
  }

  /** In plain arithmetic a write takes the field's old contribution
      `old * 2^pos` out of the word and puts `val * 2^pos` in. */
  lemma WriteFieldArith(word: nat, pos: nat, len: nat, val: nat, w: nat)
    requires word < Pow2(w) && val < Pow2(len) && pos + len <= w
    ensures WriteField(word, pos, len, val, w) + ReadField(word, pos, len) * Pow2(pos)
            == word + val * Pow2(pos)
  {
    var m := Mask(pos, len);
    var rest := And(word, Not(m, w));
    var field := Shl(ReadField(word, pos, len), pos);
    var shifted := Shl(val, pos);
    // The word splits into the bits outside the field and the field itself.
    forall k: nat
      ensures !(BitAt(rest, k) && BitAt(shifted, k))
      ensures !(BitAt(rest, k) && BitAt(field, k))
      ensures BitAt(Or(rest, field), k) == BitAt(word, k)
    {
      BitAnd(word, Not(m, w), k);
      BitNot(m, w, k);
      MaskBits(pos, len, k);
      BitShl(val, pos, k);
      BitShl(ReadField(word, pos, len), pos, k);
      BitOr(rest, field, k);
      if pos <= k {
        ReadFieldBits(word, pos, len, k - pos);
        if pos + len <= k {
          BitAboveBound(val, len, k - pos);
        }
      }
      if w <= k {
        BitAboveBound(word, w, k);
      }
    }
    AndZeroFromBits(rest, shifted);
    AndZeroFromBits(rest, field);
    OrOfDisjointIsSum(rest, shifted);
    OrOfDisjointIsSum(rest, field);
    BitsEqual(Or(rest, field), word);
  }

  // ---------------------------------------------------------------------
  // One-bit fields

  /** Writing 1 into a one-bit field is `word | (1 << pos)`. */
  lemma WriteOneBitIsOr(word: nat, pos: nat, w: nat)
    requires word < Pow2(w) && pos < w
    ensures WriteField(word, pos, 1, 1, w) == Or(word, Pow2(pos))
  {
    forall k: nat
      ensures BitAt(WriteField(word, pos, 1, 1, w), k) == BitAt(Or(word, Pow2(pos)), k)
    {
      WriteFieldBits(word, pos, 1, 1, w, k);
      BitOr(word, Pow2(pos), k);
      BitPow2(pos, k);
      if k == pos {
        BitOne(0);
      } else if w <= k {
        BitAboveBound(word, w, k);
      }
    }
    BitsEqual(WriteField(word, pos, 1, 1, w), Or(word, Pow2(pos)));
  }

  /** Writing 0 into a one-bit field is `word & ~(1 << pos)`. */
  lemma WriteZeroBitIsAndNot(word: nat, pos: nat, w: nat)
    requires word < Pow2(w) && pos < w
    ensures WriteField(word, pos, 1, 0, w) == And(word, Not(Pow2(pos), w))
  {
    forall k: nat
      ensures BitAt(WriteField(word, pos, 1, 0, w), k) == BitAt(And(word, Not(Pow2(pos), w)), k)
    {
      WriteFieldBits(word, pos, 1, 0, w, k);
      BitAnd(word, Not(Pow2(pos), w), k);
      BitNot(Pow2(pos), w, k);
      BitPow2(pos, k);
      BitZero(0);
    }
    BitsEqual(WriteField(word, pos, 1, 0, w), And(word, Not(Pow2(pos), w)));
  }

  /** Writing the negation of a one-bit field back into it is
      `word ^ (1 << pos)`. */
  lemma FlipBitIsXor(word: nat, pos: nat, w: nat)
    requires word < Pow2(w) && pos < w
    ensures WriteField(word, pos, 1, if BitAt(word, pos) then 0 else 1, w) == Xor(word, Pow2(pos))
  {
    var v := if BitAt(word, pos) then 0 else 1;
    forall k: nat
      ensures BitAt(WriteField(word, pos, 1, v, w), k) == BitAt(Xor(word, Pow2(pos)), k)
    {
      WriteFieldBits(word, pos, 1, v, w, k);
      BitXor(word, Pow2(pos), k);
      BitPow2(pos, k);
      BitZero(0);
      BitOne(0);
      if w <= k {
        BitAboveBound(word, w, k);
      }
    }
    BitsEqual(WriteField(word, pos, 1, v, w), Xor(word, Pow2(pos)));
  }
}
