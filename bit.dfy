/** A bit field bound to one storage word: `Bit<base_t, pos, len, VAL, RT>`.
 *
 *  The word is caller-owned memory, modelled as one element `raw[at]` of a
 *  caller-owned array of words.  The layout constants of the template become
 *  constant fields, its `static_assert`s become the constructor's
 *  preconditions, and its `enable_if` gates on `set()`, `reset()` and
 *  `flip()` become preconditions on those methods.  The accessor keeps no
 *  state of its own: every read and write goes to `raw[at]`.
 */
module BitField {
  import opened Bits
  import opened Register
  import opened Access

  class Bit {
    const raw: array<nat>
    const at: nat
    const width: nat
    const pos: nat
    const len: nat
    const mode: RegisterType

    /** The layout checks of `check()` hold and the word is a value of the
        storage type. */
    ghost predicate Valid()
      reads raw
    {
      0 < len && pos + len <= width && at < raw.Length && raw[at] < Pow2(width)
    }

    /** Binds the field to the word `raw[at]` of storage type `base`. */
    constructor (raw: array<nat>, at: nat, base: BaseType, pos: nat, len: nat, mode: RegisterType)
      requires 0 < len && pos + len <= NBits(base)
      requires at < raw.Length && raw[at] < Pow2(NBits(base))
      ensures this.raw == raw && this.at == at && width == NBits(base)
      ensures this.pos == pos && this.len == len && this.mode == mode
      ensures Valid()
    {
      this.raw := raw;
      this.at := at;
      this.width := NBits(base);
      this.pos := pos;
      this.len := len;
      this.mode := mode;
    }

    /** `get()`: the value of the field; available in every access mode. */
    function Get(): (r: nat)
      reads raw
      requires Valid()
      ensures r < Pow2(len)
      ensures r == (raw[at] / Pow2(pos)) % Pow2(len)
    {
      ReadFieldBound(raw[at], pos, len);
      ReadFieldArith(raw[at], pos, len);
      ReadField(raw[at], pos, len)
    }

    /** `get_raw()`: the whole storage word. */
    function GetRaw(): (r: nat)
      reads raw
      requires Valid()
      ensures r < Pow2(width)
      ensures ReadField(r, pos, len) == Get()
    {
      raw[at]
    }

    /** `operator==`: the field currently holds `other`.  A value too wide
        for the field never compares equal. */
    function Equals(other: nat): (r: bool)
      reads raw
      requires Valid()
      ensures r <==> (raw[at] / Pow2(pos)) % Pow2(len) == other
      ensures other >= Pow2(len) ==> !r
    {
      Get() == other
    }

    /** `operator!=`: the negation of `operator==`. */
    function NotEquals(other: nat): (r: bool)
      reads raw
      requires Valid()
      ensures r <==> (raw[at] / Pow2(pos)) % Pow2(len) != other
      ensures other >= Pow2(len) ==> r
    {
      Get() != other
    }

    /** `operator bool` of a one-bit field: the bit at `pos` of the word. */
    function AsBool(): (r: bool)
      reads raw
      requires Valid() && len == 1
      ensures r <==> BitAt(raw[at], pos)
    {
      ReadFieldBits(raw[at], pos, len, 0);
      Get() != 0
    }

    /** `set(val, std::nothrow)`: the unchecked read-modify-write.  The caller
        vouches that `val` fits the field. */
    method SetUnchecked(val: nat)
      requires Valid() && val < Pow2(len)
      modifies raw
      ensures Valid()
      ensures raw[..] == old(raw[..])[at := WriteField(old(raw[at]), pos, len, val, width)]
      ensures Get() == val
      ensures forall p: nat, l: nat :: p + l <= width && Disjoint(pos, len, p, l) ==>
                ReadField(raw[at], p, l) == ReadField(old(raw[at]), p, l)
      ensures raw[at] + old(Get()) * Pow2(pos) == old(raw[at]) + val * Pow2(pos)
    {
      var word := raw[at];
      WriteFieldBound(word, pos, len, val, width);
      WriteReadRoundTrip(word, pos, len, val, width);
      WriteFieldArith(word, pos, len, val, width);
      raw[at] := WriteField(word, pos, len, val, width);
      forall p: nat, l: nat | p + l <= width && Disjoint(pos, len, p, l)
        ensures ReadField(raw[at], p, l) == ReadField(word, p, l)
      {
        WriteFieldIsolation(word, pos, len, val, width, p, l);
      }
    }

    /** `set(val)`: rejects a value that does not fit the field with a domain
        error before touching the word; otherwise writes it. */
    method Set(val: nat) returns (o: Outcome)
      requires Valid()
      modifies raw
      ensures Valid()
      ensures o.Pass? <==> val < Pow2(len)
      ensures o.Fail? ==> o.error == DomainError && unchanged(raw)
      ensures o.Pass? ==> raw[..] == old(raw[..])[at := WriteField(old(raw[at]), pos, len, val, width)]
      ensures o.Pass? ==> Get() == val
    {
      o := CheckValSize(val, len);
      if o.Pass? {
        SetUnchecked(val);
      }
    }

    /** `set()` of a one-bit field whose mode permits setting: the bit becomes 1. */
    method SetBit()
      requires Valid() && len == 1 && CanSet(mode)
      modifies raw
      ensures Valid()
      ensures raw[..] == old(raw[..])[at := Or(old(raw[at]), Pow2(pos))]
      ensures AsBool() && Get() == 1
    {
      WriteOneBitIsOr(raw[at], pos, width);
      var o := Set(1);
    }

    /** `reset()` of a one-bit field whose mode permits resetting: the bit
        becomes 0. */
    method ResetBit()
      requires Valid() && len == 1 && CanReset(mode)
      modifies raw
      ensures Valid()
      ensures raw[..] == old(raw[..])[at := And(old(raw[at]), Not(Pow2(pos), width))]
      ensures !AsBool() && Get() == 0
    {
      WriteZeroBitIsAndNot(raw[at], pos, width);
      var o := Set(0);
    }

    /** `flip()` of a one-bit field whose mode permits writing: the bit is
        inverted. */
    method Flip()
      requires Valid() && len == 1 && CanWrite(mode)
      modifies raw
      ensures Valid()
      ensures raw[..] == old(raw[..])[at := Xor(old(raw[at]), Pow2(pos))]
      ensures AsBool() == !old(AsBool())
      ensures Get() == 1 - old(Get())
    {
      FlipBitIsXor(raw[at], pos, width);
      assert AsBool() <==> Get() != 0;
      var v := if Get() == 0 then 1 else 0;
      var o := Set(v);
    }
  }
}
