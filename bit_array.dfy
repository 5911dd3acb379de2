/** A repeating group of bit fields: `BitArray<base_t, pos0, len, step, N, IDX, RT>`.
 *
 *  Element `idx` is `len` bits wide and starts `idx * step + pos0` bits after
 *  the start of the storage, counted across consecutive words of `width`
 *  bits.  `get_idx` splits that bit position into a word index and a bit
 *  offset by plain division; the layout is required not to put an element
 *  across two words.  The storage is caller-owned: the words
 *  `raw[at], raw[at + 1], ...` of a caller-owned array.  The `reference`
 *  proxy returned by the non-const `operator[]` is the class `Reference`.
 */
module BitFieldArray {
  import opened Bits
  import opened Register
  import opened Access

  /** The place of an element: the word after the base, and the bit offset
      of the element's lowest bit inside that word. */
  datatype Location = Location(word: nat, offset: nat)

  /** `get_idx(idx)`: the bit position `idx * step + pos0` as a word index
      and an offset inside that word. */
  function GetIdx(idx: nat, pos0: nat, step: nat, width: nat): (r: Location)
    requires width > 0
    ensures r.offset < width
    ensures r.word * width + r.offset == idx * step + pos0
  {
    var m := (idx * step + pos0) / width;
    Location(m, idx * step + pos0 - width * m)
  }

  /** `get_idx` is the only split of the bit position into a word index and
      an in-word offset. */
  lemma GetIdxUnique(idx: nat, pos0: nat, step: nat, width: nat, loc: Location)
    requires width > 0
    requires loc.offset < width && loc.word * width + loc.offset == idx * step + pos0
    ensures loc == GetIdx(idx, pos0, step, width)
  {
    DivModUnique(idx * step + pos0, width, loc.word, loc.offset);
  }

  /** The default capacity `N = (n_bits - pos0 + (step - len)) / step`. */
  function DefaultCapacity(width: nat, pos0: nat, len: nat, step: nat): nat
    requires 0 < len <= step && pos0 + len <= width
  {
    (width - pos0 + (step - len)) / step
  }

  /** The default capacity admits exactly the elements that end inside the
      first word. */
  lemma DefaultCapacityExact(width: nat, pos0: nat, len: nat, step: nat, idx: nat)
    requires 0 < len <= step && pos0 + len <= width
    ensures idx < DefaultCapacity(width, pos0, len, step) <==> idx * step + pos0 + len <= width
  {
    DivLowerBound(width - pos0 + (step - len), step, idx + 1);
    assert (idx + 1) * step == idx * step + step;
  }

  /** Under the default capacity every valid index lies in the first word
      and fits in it; in particular there is always at least one element. */
  lemma DefaultCapacityInFirstWord(width: nat, pos0: nat, len: nat, step: nat, idx: nat)
    requires 0 < len <= step && pos0 + len <= width
    requires idx < DefaultCapacity(width, pos0, len, step)
    ensures GetIdx(idx, pos0, step, width).word == 0
    ensures GetIdx(idx, pos0, step, width).offset + len <= width
    ensures DefaultCapacity(width, pos0, len, step) >= 1
  {
    DefaultCapacityExact(width, pos0, len, step, idx);
    DefaultCapacityExact(width, pos0, len, step, 0);
    GetIdxUnique(idx, pos0, step, width, Location(0, idx * step + pos0));
  }

  /** Two distinct elements of one array never overlap: when they share a
      word their bit ranges are disjoint. */
  lemma ElementsDisjoint(i: nat, j: nat, pos0: nat, len: nat, step: nat, width: nat)
    requires 0 < len <= step && width > 0 && i != j
    requires GetIdx(i, pos0, step, width).word == GetIdx(j, pos0, step, width).word
    ensures Disjoint(GetIdx(i, pos0, step, width).offset, len, GetIdx(j, pos0, step, width).offset, len)
  {
    var li, lj := GetIdx(i, pos0, step, width), GetIdx(j, pos0, step, width);
    if i < j {
      assert j * step == i * step + (j - i) * step;
      MulAtLeast(j - i, step);
    } else {
      assert i * step == j * step + (i - j) * step;
      MulAtLeast(i - j, step);
    }
  }

  /** `check_index_overflow(idx)`: an index at or above the capacity is out of
      range. */
  function CheckIndexOverflow(idx: nat, n: nat): Outcome
  {
    if idx >= n then Fail(OutOfRange) else Pass
  }

  /** Against the default capacity, the index check passes exactly for the
      indices whose element ends inside the first word, and otherwise
      reports out-of-range. */
  lemma DefaultIndexCheck(width: nat, pos0: nat, len: nat, step: nat, idx: nat)
    requires 0 < len <= step && pos0 + len <= width
    ensures CheckIndexOverflow(idx, DefaultCapacity(width, pos0, len, step)) == Pass <==>
              idx * step + pos0 + len <= width
    ensures CheckIndexOverflow(idx, DefaultCapacity(width, pos0, len, step)) != Pass ==>
              CheckIndexOverflow(idx, DefaultCapacity(width, pos0, len, step)) == Fail(OutOfRange)
  {
    DefaultCapacityExact(width, pos0, len, step, idx);
  }

  class BitArray {
    const raw: array<nat>
    const at: nat
    const width: nat
    const pos0: nat
    const len: nat
    const step: nat
    const n: nat
    const mode: RegisterType

    /** Where element idx lives. */
    function Locate(idx: nat): Location
      requires width > 0
    {
      GetIdx(idx, pos0, step, width)
    }

    /** Element idx lies inside one word of the storage. */
    ghost predicate InStorage(idx: nat)
    {
      width > 0 && at + Locate(idx).word < raw.Length && Locate(idx).offset + len <= width
    }

    /** The layout checks of `check()` hold, every index below the capacity
        names an element inside one storage word, and every word is a value
        of the storage type. */
    ghost predicate Valid()
      reads raw
    {
      0 < len <= step && pos0 + len <= width &&
      (forall i: nat :: i < n ==> InStorage(i)) &&
      (forall j :: at <= j < raw.Length ==> raw[j] < Pow2(width))
    }

    /** Both arrays are instances of one `BitArray` type: the same storage
        type, layout, capacity and access mode. */
    predicate SameLayout(other: BitArray)
    {
      width == other.width && pos0 == other.pos0 && len == other.len &&
      step == other.step && n == other.n && mode == other.mode
    }

    /** An index that passes the capacity check names an element inside one
        storage word, so the unchecked access after it stays in bounds. */
    lemma CheckedIndexInStorage(idx: nat)
      requires Valid() && CheckIndexOverflow(idx, n) == Pass
      ensures InStorage(idx)
      ensures at + Locate(idx).word < raw.Length && Locate(idx).offset + len <= width
    {
    }

    /** An array with an explicit capacity `n`; the caller's layout must keep
        every index below `n` inside the storage and inside one word. */
    constructor (raw: array<nat>, at: nat, base: BaseType, pos0: nat, len: nat, step: nat, n: nat,
                 mode: RegisterType)
      requires 0 < len <= step && pos0 + len <= NBits(base)
      requires forall i: nat :: i < n ==>
                 at + GetIdx(i, pos0, step, NBits(base)).word < raw.Length &&
                 GetIdx(i, pos0, step, NBits(base)).offset + len <= NBits(base)
      requires forall j :: at <= j < raw.Length ==> raw[j] < Pow2(NBits(base))
      ensures this.raw == raw && this.at == at && width == NBits(base)
      ensures this.pos0 == pos0 && this.len == len && this.step == step && this.n == n
      ensures this.mode == mode
      ensures Valid()
    {
      this.raw := raw;
      this.at := at;
      this.width := NBits(base);
      this.pos0 := pos0;
      this.len := len;
      this.step := step;
      this.n := n;
      this.mode := mode;
    }

    /** An array with the default capacity, which keeps every element in the
        first word. */
    constructor WithDefaultCapacity(raw: array<nat>, at: nat, base: BaseType, pos0: nat, len: nat,
                                    step: nat, mode: RegisterType)
      requires 0 < len <= step && pos0 + len <= NBits(base)
      requires at < raw.Length
      requires forall j :: at <= j < raw.Length ==> raw[j] < Pow2(NBits(base))
      ensures this.raw == raw && this.at == at && width == NBits(base)
      ensures this.pos0 == pos0 && this.len == len && this.step == step
      ensures n == DefaultCapacity(NBits(base), pos0, len, step)
      ensures this.mode == mode
      ensures Valid()
    {
      this.raw := raw;
      this.at := at;
      this.width := NBits(base);
      this.pos0 := pos0;
      this.len := len;
      this.step := step;
      this.n := DefaultCapacity(NBits(base), pos0, len, step);
      this.mode := mode;
      new;
      forall i: nat | i < n
        ensures InStorage(i)
      {
        DefaultCapacityInFirstWord(width, pos0, len, step, i);
      }
    }

    /** `get(idx, std::nothrow)`: the unchecked read of element idx. */
    function GetUnchecked(idx: nat): (r: nat)
      reads raw
      requires Valid() && InStorage(idx)
      ensures r < Pow2(len)
      ensures r == (raw[at + Locate(idx).word] / Pow2(Locate(idx).offset)) % Pow2(len)
    {
      var loc := Locate(idx);
      ReadFieldBound(raw[at + loc.word], loc.offset, len);
      ReadFieldArith(raw[at + loc.word], loc.offset, len);
      ReadField(raw[at + loc.word], loc.offset, len)
    }

    /** `get(idx)` (and the const `operator[]`): an out-of-range error for
        an index at or above the capacity, otherwise the element's value. */
    function Get(idx: nat): (r: Result<nat>)
      reads raw
      requires Valid()
      ensures r.Failure? <==> idx >= n
      ensures r.Failure? ==> r.error == OutOfRange
      ensures r.Success? ==>
                InStorage(idx) && r.value < Pow2(len) &&
                r.value == (raw[at + Locate(idx).word] / Pow2(Locate(idx).offset)) % Pow2(len)
    {
      match CheckIndexOverflow(idx, n)
      case Fail(e) => Failure(e)
      case Pass => Success(GetUnchecked(idx))
    }

    /** `get_raw()`: the first storage word. */
    function GetRaw(): (r: nat)
      reads raw
      requires Valid() && at < raw.Length
      ensures r < Pow2(width)
    {
      raw[at]
    }

    /** `set(idx, val, std::nothrow)`: the unchecked read-modify-write of
        element idx.  The caller vouches that the element is in the storage
        and that `val` fits it. */
    method SetUnchecked(idx: nat, val: nat)
      requires Valid() && InStorage(idx) && val < Pow2(len)
      modifies raw
      ensures Valid()
      ensures raw[..] == old(raw[..])[at + Locate(idx).word :=
                WriteField(old(raw[at + Locate(idx).word]), Locate(idx).offset, len, val, width)]
      ensures GetUnchecked(idx) == val
      ensures forall j: nat :: j != idx && InStorage(j) ==> GetUnchecked(j) == old(GetUnchecked(j))
      ensures forall p: nat, l: nat :: p + l <= width && Disjoint(Locate(idx).offset, len, p, l) ==>
                ReadField(raw[at + Locate(idx).word], p, l) == ReadField(old(raw[at + Locate(idx).word]), p, l)
    {
      var loc := Locate(idx);
      var m := at + loc.word;
      var word := raw[m];
      WriteFieldBound(word, loc.offset, len, val, width);
      WriteReadRoundTrip(word, loc.offset, len, val, width);
      raw[m] := WriteField(word, loc.offset, len, val, width);
      forall p: nat, l: nat | p + l <= width && Disjoint(loc.offset, len, p, l)
        ensures ReadField(raw[m], p, l) == ReadField(word, p, l)
      {
        WriteFieldIsolation(word, loc.offset, len, val, width, p, l);
      }
      forall j: nat | j != idx && InStorage(j)
        ensures GetUnchecked(j) == old(GetUnchecked(j))
      {
        if Locate(j).word == loc.word {
          ElementsDisjoint(idx, j, pos0, len, step, width);
        }
      }
    }

    /** `set(idx, val)` (and assignment through `operator[]`): first rejects
        an index at or above the capacity, then a value that does not fit the
        element, both before touching the storage; otherwise writes the
        element and nothing else. */
    method Set(idx: nat, val: nat) returns (o: Outcome)
      requires Valid()
      modifies raw
      ensures Valid()
      ensures o == if idx >= n then Fail(OutOfRange)
                   else if val >= Pow2(len) then Fail(DomainError)
                   else Pass
      ensures o.Fail? ==> unchanged(raw)
      ensures o.Pass? ==>
                InStorage(idx) &&
                raw[..] == old(raw[..])[at + Locate(idx).word :=
                  WriteField(old(raw[at + Locate(idx).word]), Locate(idx).offset, len, val, width)]
      ensures o.Pass? ==> Get(idx) == Success(val)
      ensures o.Pass? ==> forall j: nat :: j != idx ==> Get(j) == old(Get(j))
    {
      o := CheckIndexOverflow(idx, n);
      if o.Pass? {
        o := CheckValSize(val, len);
        if o.Pass? {
          SetUnchecked(idx, val);
        }
      }
    }

    /** The non-const `operator[]`: a proxy for element idx of this array. */
    method Index(idx: nat) returns (r: Reference)
      ensures fresh(r) && r.idx == idx && r.bf == this
    {
      r := new Reference(idx, this);
    }
  }

  /** `BitArray::reference`: an assignable proxy for one element. */
  class Reference {
    const idx: nat
    const bf: BitArray

    constructor (idx: nat, bf: BitArray)
      ensures this.idx == idx && this.bf == bf
    {
      this.idx := idx;
      this.bf := bf;
    }

    /** `operator base_t()`: reading the proxy is the checked `get(idx)`. */
    function Value(): (r: Result<nat>)
      reads bf.raw
      requires bf.Valid()
      ensures r.Failure? <==> idx >= bf.n
      ensures r.Success? ==> r.value < Pow2(bf.len)
    {
      bf.Get(idx)
    }

    /** `operator=(val)`: assigning a value through the proxy is the checked
        `set(idx, val)`. */
    method Assign(val: nat) returns (o: Outcome)
      requires bf.Valid()
      modifies bf.raw
      ensures bf.Valid()
      ensures o == if idx >= bf.n then Fail(OutOfRange)
                   else if val >= Pow2(bf.len) then Fail(DomainError)
                   else Pass
      ensures o.Fail? ==> unchanged(bf.raw)
      ensures o.Pass? ==>
                bf.InStorage(idx) &&
                bf.raw[..] == old(bf.raw[..])[bf.at + bf.Locate(idx).word :=
                  WriteField(old(bf.raw[bf.at + bf.Locate(idx).word]), bf.Locate(idx).offset, bf.len, val, bf.width)]
      ensures o.Pass? ==> Value() == Success(val)
      ensures o.Pass? ==> forall j: nat :: j != idx ==> bf.Get(j) == old(bf.Get(j))
    {
      o := bf.Set(idx, val);
    }

    /** `operator=(other)`: reads the other proxy's element (which may
        fail with out-of-range) and writes that value through this proxy.
        The other proxy belongs to an array of the same type, so the value
        it yields always fits and the value check cannot fail. */
    method AssignFrom(other: Reference) returns (o: Outcome)
      requires bf.Valid() && other.bf.Valid() && other.bf.SameLayout(bf)
      modifies bf.raw
      ensures bf.Valid()
      ensures o != Fail(DomainError)
      ensures old(other.Value()).Failure? ==>
                o == Fail(old(other.Value()).error) && unchanged(bf.raw)
      ensures old(other.Value()).Success? ==>
                o == if idx >= bf.n then Fail(OutOfRange)
                     else if old(other.Value()).value >= Pow2(bf.len) then Fail(DomainError)
                     else Pass
      ensures o.Fail? ==> unchanged(bf.raw)
      ensures o.Pass? ==>
                old(other.Value()).Success? && bf.InStorage(idx) &&
                bf.raw[..] == old(bf.raw[..])[bf.at + bf.Locate(idx).word :=
                  WriteField(old(bf.raw[bf.at + bf.Locate(idx).word]), bf.Locate(idx).offset, bf.len,
                             old(other.Value()).value, bf.width)]
      ensures o.Pass? ==> Value() == old(other.Value())
      ensures o.Pass? ==> forall j: nat :: j != idx ==> bf.Get(j) == old(bf.Get(j))
    {
      var v := other.Value();
      match v
      case Failure(e) =>
        o := Fail(e);
      case Success(x) =>
        o := bf.Set(idx, x);
    }
  }
}
