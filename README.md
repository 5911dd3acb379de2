# Bit-field register access, modelled in Dafny

This project models the bit-field access layer of `register.hpp` (namespace
`mcu`): typed access to sub-word fields of memory-mapped registers.

- **Primitives** (`register.dfy`, module `Register`): `n_bits<T>()`, the field
  mask `((1 << len) - 1) << pos`, the value check `check_val_size` (a
  `domain_error` when `val >= 1 << len`), and the two word expressions every
  accessor uses: the masked read `(word & mask) >> pos` and the
  read-modify-write `(word & ~mask) | (val << pos)`.
- **Access modes** (`access.dfy`, module `Access`): the `RegisterType`
  enumeration and `can_read`, `can_write`, `can_set`, `can_reset`.
- **`Bit`** (`bit.dfy`, module `BitField`): a `(pos, len)` field bound to one
  storage word, with checked and unchecked `set`, `get`, `get_raw`, `==`,
  `!=`, `operator bool`, and the one-bit `set()`, `reset()` and `flip()`.
- **`BitArray`** (`bit_array.dfy`, module `BitFieldArray`): `len`-bit
  elements at pitch `step` from bit `pos0`, over consecutive words;
  `get_idx`, the default capacity `N`, `check_index_overflow`, checked and
  unchecked `get`/`set`, `get_raw`, `operator[]` and the assignable
  `reference` proxy.
- **Test layouts** (`scenarios.dfy`, module `Scenarios`): the layouts and
  values of `test-bitfield.cpp`, stated as lemmas and as client methods on the
  classes.

Machine words are natural numbers. `bits.dfy` (module `Bits`) defines `&`,
`|`, `^` and the `w`-bit `~` digit by digit in base 2, `<<` as
multiplication by `2^n` and `>>` as `n` halvings (proved equal to floor
division by `2^n`), and proves which bits each result has. All field properties are proved bit by bit and then, where useful,
restated in plain arithmetic (`get() == (word / 2^pos) % 2^len`).

Storage is caller-owned, as in the source. A `Bit` holds an `array<nat>` and
the index `at` of its word. A `BitArray` holds the array and the index of its
first word. Methods that write declare `modifies raw`. Several accessors may
share one array, as the control register of the tests does. The C++
exceptions become `Outcome`/`Result` values. The `static_assert`s of
`check()` become constructor preconditions and class invariants (`Valid()`).
The `enable_if` gates of `set()`, `reset()` and `flip()` become method
preconditions. The value `set` of both classes, checked and unchecked, is not
gated by the access mode (register.hpp:126 leaves that as a to-do). So
`Bit.Set` and `BitArray.Set` accept an accessor in `Read` mode, just as the
source does.

`get_idx` (register.hpp:239-248) uses one formula for every index: the word
is `(idx * step + pos0) / W` and the offset is what remains. `GetIdx`
reproduces lines 241-246. Layouts whose elements would cross a word
boundary are excluded by the constructors' preconditions.

## Model

| member | source | states |
|---|---|---|
| `Register.NBits` | register.hpp:36-39 | a word has a whole number of bytes, 8 to 64 bits |
| `Register.Mask` | register.hpp:41-44 | defines `((1 << len) - 1) << pos` on unbounded words; its bits are stated by MaskBits and its bound by MaskFits |
| `Register.CheckValSize` | register.hpp:46-52 | defines the check: a domain error iff val >= 2^len, else pass; what it means is stated by CheckValSizeBits and CheckValSizeLossless |
| `Register.ReadField` | register.hpp:135-138 | defines the read `(word & mask) >> pos`; its bits, bound and arithmetic value are stated by ReadFieldBits, ReadFieldBound and ReadFieldArith |
| `Register.WriteField` | register.hpp:127-130 | defines the read-modify-write `(word & ~mask) \| (val << pos)` on a W-bit word; its bits, round trip and isolation are stated by WriteFieldBits, WriteReadRoundTrip and WriteFieldIsolation |
| `Register.MaskBits` | register.hpp:41-44 | the mask has exactly bits [pos, pos+len) set |
| `Register.MaskFits` | register.hpp:41-44 | for a layout with pos+len <= W the mask is a W-bit value |
| `Register.WideValueHasHighBit` | register.hpp:46-52 | a value not below 2^n has a set bit at or above n |
| `Register.CheckValSizeBits` | register.hpp:46-52 | the check passes iff the value has no bit at or above len |
| `Register.CheckValSizeLossless` | register.hpp:46-52 | the check passes iff storing the value in a len-bit field and reading it back gives the value unchanged |
| `Bits.ShrIsDiv` | register.hpp:137 | shifting right by n is floor division by 2^n |
| `Register.ReadFieldBits` | register.hpp:135-138 | bit k of a field read is bit pos+k of the word for k < len, and 0 above |
| `Register.ReadFieldBound` | register.hpp:135-138 | a field read is below 2^len |
| `Register.ReadFieldArith` | register.hpp:135-138 | a field read equals (word / 2^pos) mod 2^len |
| `Register.WriteFieldBits` | register.hpp:127-130 | after a write the field holds val's bits and every other bit below W is the old word's; no bit at or above W |
| `Register.WriteFieldBound` | register.hpp:127-130 | a write into a W-bit word yields a W-bit word |
| `Register.WriteReadRoundTrip` | register.hpp:127-138 | for val < 2^len, reading the field just written returns val |
| `Register.WriteFieldIsolation` | register.hpp:127-130 | a write leaves every disjoint field of the word unchanged |
| `Register.WriteBackIdentity` | register.hpp:127-138 | writing back the field's current value leaves the word unchanged |
| `Register.WriteFieldOverwrite` | register.hpp:127-130 | of two writes to one field, the last wins |
| `Register.WriteFieldArith` | register.hpp:127-130 | new word + old field * 2^pos == old word + val * 2^pos |
| `Register.WriteOneBitIsOr` | register.hpp:107-112 | writing 1 to a one-bit field is word OR (1 << pos) |
| `Register.WriteZeroBitIsAndNot` | register.hpp:113-118 | writing 0 to a one-bit field is word AND NOT (1 << pos) |
| `Register.FlipBitIsXor` | register.hpp:119-124 | writing the negated bit back is word XOR (1 << pos) |
| `Access.CanRead` | register.hpp:62-66 | read, read_write and read_clear_w0 permit reading |
| `Access.CanWrite` | register.hpp:68-71 | write and read_write permit writing |
| `Access.CanSet` | register.hpp:73-76 | writable modes and read_clear_w1 permit setting a bit |
| `Access.CanReset` | register.hpp:78-81 | writable modes and read_clear_w0 permit resetting a bit |
| `Access.WriteIsSetAndReset` | register.hpp:68-81 | can_write implies can_set and can_reset, and set plus reset together imply write |
| `Access.CapabilityTable` | register.hpp:54-81 | per mode: read permits only reading; write permits all but reading; read_write permits all; read_clear_w0 permits read and reset; read_clear_w1 permits only set |
| `Access.EveryModeGrantsSomething` | register.hpp:62-81 | every mode permits reading, setting or resetting |
| `BitField.Bit.constructor` | register.hpp:146-151 | a field is created only for len > 0 and pos+len <= n_bits, over an existing word of the storage type |
| `BitField.Bit.Get` | register.hpp:135-138 | the field value is below 2^len and equals (word / 2^pos) mod 2^len; allowed in every mode |
| `BitField.Bit.GetRaw` | register.hpp:140-142 | the whole word is a W-bit value whose field is what Get returns |
| `BitField.Bit.Equals` | register.hpp:99 | true iff the field holds the value; a value too wide for the field never compares equal |
| `BitField.Bit.NotEquals` | register.hpp:100 | true iff the field does not hold the value; true for every value too wide for the field |
| `BitField.Bit.AsBool` | register.hpp:101-106 | a one-bit field converts to the bit at pos of the word |
| `BitField.Bit.SetUnchecked` | register.hpp:127-130 | only the word changes; Get then returns val; every disjoint field keeps its value; the word changes arithmetically by (val - old) * 2^pos |
| `BitField.Bit.Set` | register.hpp:131-134 | passes iff val < 2^len; a rejected value is a domain error and leaves the storage unchanged; otherwise Get returns val |
| `BitField.Bit.SetBit` | register.hpp:107-112 | only for a one-bit field with can_set: the word becomes word OR (1 << pos) and the field reads 1 |
| `BitField.Bit.ResetBit` | register.hpp:113-118 | only for a one-bit field with can_reset: the word becomes word AND NOT (1 << pos) and the field reads 0 |
| `BitField.Bit.Flip` | register.hpp:119-124 | only for a one-bit field with can_write: the word becomes word XOR (1 << pos) and the bit is inverted |
| `BitFieldArray.GetIdx` | register.hpp:239-248 | the offset is below W, and word * W + offset == idx * step + pos0 |
| `BitFieldArray.GetIdxUnique` | register.hpp:239-248 | any word/offset split with offset < W equals get_idx's result |
| `BitFieldArray.DefaultCapacity` | register.hpp:154-158 | defines the default N = (W - pos0 + (step - len)) / step; its meaning is stated by DefaultCapacityExact and DefaultCapacityInFirstWord |
| `BitFieldArray.DefaultCapacityExact` | register.hpp:154-158 | idx < N iff element idx ends inside the first word (idx*step + pos0 + len <= W) |
| `BitFieldArray.DefaultCapacityInFirstWord` | register.hpp:154-158 | with the default N every valid index maps to word 0 with offset + len <= W, and N >= 1 |
| `BitFieldArray.ElementsDisjoint` | register.hpp:239-248 | with step >= len, two distinct elements in the same word occupy disjoint bit ranges |
| `BitFieldArray.CheckIndexOverflow` | register.hpp:249-256 | defines the check: out-of-range iff idx >= N, else pass; its meaning is stated by DefaultIndexCheck and CheckedIndexInStorage |
| `BitFieldArray.DefaultIndexCheck` | register.hpp:249-256 | against the default N, the index check passes iff element idx ends inside the first word (idx*step + pos0 + len <= W), and otherwise reports out-of-range |
| `BitFieldArray.BitArray.CheckedIndexInStorage` | register.hpp:180-196 | on a valid array, an index that passes the check names an element inside one storage word, so the unchecked access after it stays in bounds |
| `BitFieldArray.BitArray.constructor` | register.hpp:257-267 | an array is created only for len > 0, step >= len and pos0+len <= n_bits, with every index below N inside one storage word |
| `BitFieldArray.BitArray.WithDefaultCapacity` | register.hpp:154-172 | with the default N the layout checks alone make the array valid |
| `BitFieldArray.BitArray.GetUnchecked` | register.hpp:185-192 | element value is below 2^len and equals (word[m] / 2^b) mod 2^len for (m, b) = get_idx(idx) |
| `BitFieldArray.BitArray.Get` | register.hpp:193-196 | out-of-range iff idx >= N, otherwise the element value as above |
| `BitFieldArray.BitArray.GetRaw` | register.hpp:198-200 | the first storage word is a W-bit value |
| `BitFieldArray.BitArray.SetUnchecked` | register.hpp:173-178 | only word m changes; element idx then reads val; every other element and every disjoint field of that word keep their values |
| `BitFieldArray.BitArray.Set` | register.hpp:180-184 | index checked before value: out-of-range for idx >= N, else domain error for val >= 2^len, both with storage unchanged; otherwise Get(idx) returns val and all other elements are unchanged |
| `BitFieldArray.BitArray.Index` | register.hpp:227-229 | returns a new proxy for (this array, idx) |
| `BitFieldArray.Reference.constructor` | register.hpp:218-219 | the proxy is bound to its index and array |
| `BitFieldArray.Reference.Value` | register.hpp:215 | reading the proxy is the checked get: out-of-range iff idx >= N, else a value below 2^len |
| `BitFieldArray.Reference.Assign` | register.hpp:206-209 | assigning a value is the checked set(idx, val): same outcomes, storage unchanged on failure; on success only word m changes, to the read-modify-write of element idx; the proxy then reads val and every other element keeps its value |
| `BitFieldArray.Reference.AssignFrom` | register.hpp:210-214 | reads the other proxy's element first (its out-of-range error leaves storage unchanged), then sets that value at this index with set's checks; the other proxy belongs to an array of the same type, so the value check never fails; on success only word m changes, to the read-modify-write of that value, this proxy reads the other's old value, and every other element keeps its value |
| `Scenarios.FieldAtZeroWordIsValue` | test-bitfield.cpp:21-30 | a 2-bit field at bit 0 of an otherwise empty 16-bit word: after set(v) the word is v |
| `Scenarios.FieldAtFiveWordIsShiftedValue` | test-bitfield.cpp:32-39 | a 2-bit field at bit 5: after set(v) the word is v << 5 and get returns v |
| `Scenarios.TooWideForTwoBits` | test-bitfield.cpp:40-45 | 0b100 is rejected for a 2-bit field, 0b11 accepted |
| `Scenarios.TestLayoutCapacities` | test-bitfield.cpp:49-67 | default N is 8 for the 2-bit arrays and the control register's arrays, 1 for the 16-bit element; index 8 is out of range |
| `Scenarios.ModeLocation` | test-bitfield.cpp:84-96 | element i of the control register's mode array (pos0 0, len 2, step 4) is in word 0 at bit 4i |
| `Scenarios.CnfLocation` | test-bitfield.cpp:84-96 | element j of the cnf array (pos0 2, len 2, step 4) is in word 0 at bit 4j+2 |
| `Scenarios.ModeCnfDisjoint` | test-bitfield.cpp:84-96 | no mode element overlaps any cnf element |
| `Scenarios.ModeWriteKeepsCnf` | test-bitfield.cpp:86-90 | writing mode element i leaves every cnf element unchanged |
| `Scenarios.CnfWriteKeepsMode` | test-bitfield.cpp:91-95 | writing cnf element j leaves every mode element unchanged |
| `Scenarios.ModeRead` | test-bitfield.cpp:88 | on the class, mode.get(i) is bits [4i, 4i+2) of the shared word |
| `Scenarios.CnfRead` | test-bitfield.cpp:86-90 | on the class, cnf.get(i) is bits [4i+2, 4i+4) of the shared word |
| `Scenarios.ControlRegisterStep` | test-bitfield.cpp:86-90 | on the classes: mode.set(i, v) passes, mode then reads v at i, and cnf reads at i what it read before |
| `Scenarios.CycleFieldAtZero` | test-bitfield.cpp:21-30 | a 2-bit field at bit 0 takes 0, 1, 2, 3, 0 in turn, and after each set the raw word equals the value |
| `Scenarios.CycleFieldAtFive` | test-bitfield.cpp:32-39 | a 2-bit field at bit 5 takes 0, 1, 2, 3, 0 in turn, and after each set the raw word equals the value << 5 |
| `Scenarios.BitFieldSequence` | test-bitfield.cpp:11-47 | the field test sequence ends with the word 0 and rejects 0b100 with a domain error |
| `Scenarios.FillWithSet` | test-bitfield.cpp:71-75 | setting all eight elements to v makes each read v |
| `Scenarios.FillThroughProxies` | test-bitfield.cpp:76-79 | assigning all eight elements through proxies makes each read v |
| `Scenarios.BitArraySequence` | test-bitfield.cpp:58-114 | the array test sequence leaves all elements 0; 0b100 is a domain error and index 8 is out of range |

## Left out

- Hardware semantics of the storage word are not modelled (register.hpp:145, 238). This covers `volatile`, the ban on reordering, and the non-atomic read-modify-write. The word is ordinary sequential state: nothing changes it between a read and a write.
- The constructors from a raw `addr_t` address are not modelled (register.hpp:89-92, 166-169). They use `reinterpret_cast`. Accessors are built over an existing array instead.
- `Bit::operator=(VAL)` (register.hpp:95-98) is `set(val)`. The model has it only as `Set`.
- The const `BitArray::operator[]` (register.hpp:223-226) is `get(idx)`. The model has it only as `Get`.
- `BitArray::operator bool` (register.hpp:230-235) is not modelled. It calls a `get()` with no index, and `BitArray` has no such overload, so it cannot be instantiated.
- `reference::operator~` (register.hpp:216) is commented out in the source.
- The model assumes `VAL` is `base_t`, the default, and that `IDX` is a non-negative integer or an enumeration, which becomes its ordinal. Both are `nat`. `BitArray`'s access mode is stored but gates nothing, as in the source.
- A `VAL` wider than the word is not modelled. `static_cast<base_t>(val)` (register.hpp:129, 132) reduces it modulo 2^W before the check and the write. For example, with a 32-bit `VAL` over a 16-bit word, `set(65537)` on a 2-bit field passes and writes 1, while `Bit.Set` reports a domain error.
- A negative signed `IDX` is not modelled. `static_cast<uint_t>(idx)` (register.hpp:242, 251) wraps it to a huge unsigned index, which the capacity check then rejects.
- `BitField.Bit.SetUnchecked`: requires `val < 2^len`. The source's unchecked `set` ORs `val << pos` in unmasked, so an oversized value would corrupt neighbouring bits. The model treats that as the caller's broken promise rather than modelling the corruption.
- `BitFieldArray.BitArray.SetUnchecked`: requires `val < 2^len` for the same reason. It also requires the element to lie inside the storage and inside one word.
- `BitFieldArray.BitArray.GetUnchecked`: requires the element to lie inside the storage and inside one word. The source reads out of bounds, or reads a truncated element that straddles two words.
- `BitFieldArray.BitArray.constructor`: with an explicit `N`, requires every index below `N` to lie inside the storage and inside one word. The source checks neither condition.
- `Register.MaskBits`: the mask and the value check use the mathematical `2^len`. In C++, `static_cast<T>(1u) << len` is undefined behaviour when `len` equals the width of a 32-bit or 64-bit word (register.hpp:43, 48). Narrower types are promoted to `int` first and are not affected. So for a full-width 32-bit or 64-bit field, the model's "every W-bit value fits" is not promised by the code.
- `BitFieldArray.GetIdx`: `idx * step + pos0` is computed in unbounded integers. The source uses `unsigned int`, which wraps for very large indices.
- There is no register-array type in `register.hpp`, so none is modelled.
- The test driver's `main`, `example()` and console output are not modelled. `test-bitfield.cpp` serves only as a source of reference cases (`Scenarios`).
