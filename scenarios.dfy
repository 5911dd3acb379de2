/** The concrete layouts and values exercised by the register tests, stated
 *  as facts about the model: two-bit fields at bit 0 and bit 5 of a 16-bit
 *  word, the two-bit array that fills a 16-bit word, and a 32-bit control
 *  register holding two interleaved arrays (`mode` at bits 4i, `cnf` at bits
 *  4i + 2).
 */
module Scenarios {
  import opened Bits
  import opened Register
  import opened Access
  import opened BitField
  import opened BitFieldArray

  /** The powers of two the test layouts use. */
  lemma SmallPowers()
    ensures Pow2(2) == 4 && Pow2(5) == 32 && Pow2(16) == 65536
  {
    assert Pow2(4) == 16;
    assert Pow2(8) == 256 by {
      assert Pow2(6) == 64;
    }
    assert Pow2(12) == 4096 by {
      assert Pow2(10) == 1024;
    }
    assert Pow2(14) == 16384;
  }

  /** A two-bit field at bit 0 of a 16-bit word that holds nothing else:
      after writing v the whole word is v. */
  lemma FieldAtZeroWordIsValue(word: nat, v: nat)
    requires word < 4 && v < 4
    ensures WriteField(word, 0, 2, v, 16) == v
    ensures ReadField(WriteField(word, 0, 2, v, 16), 0, 2) == v
  {
    SmallPowers();
    ReadFieldArith(word, 0, 2);
    assert ReadField(word, 0, 2) == word;
    WriteFieldArith(word, 0, 2, v, 16);
    WriteReadRoundTrip(word, 0, 2, v, 16);
  }

  /** A two-bit field at bit 5 of a 16-bit word that holds nothing else:
      after writing v the whole word is `v << 5`. */
  lemma FieldAtFiveWordIsShiftedValue(u: nat, v: nat)
    requires u < 4 && v < 4
    ensures WriteField(u * 32, 5, 2, v, 16) == v * 32
    ensures ReadField(WriteField(u * 32, 5, 2, v, 16), 5, 2) == v
  {
    SmallPowers();
    var word := u * 32;
    assert word < 65536;
    ReadFieldArith(word, 5, 2);
    DivModUnique(word, 32, u, 0);
    assert ReadField(word, 5, 2) == u;
    WriteFieldArith(word, 5, 2, v, 16);
    assert WriteField(word, 5, 2, v, 16) + u * 32 == word + v * 32;
    WriteReadRoundTrip(word, 5, 2, v, 16);
  }

  /** Writing 0b100 into a two-bit field is a domain error. */
  lemma TooWideForTwoBits()
    ensures CheckValSize(4, 2) == Fail(DomainError)
    ensures CheckValSize(3, 2) == Pass
  {
  }

  /** The default capacities of the test layouts: eight two-bit elements in
      a 16-bit word, one 16-bit element in a 16-bit word, and eight elements
      for each of the control register's interleaved arrays. */
  lemma TestLayoutCapacities()
    ensures DefaultCapacity(16, 0, 2, 2) == 8
    ensures DefaultCapacity(16, 0, 16, 16) == 1
    ensures DefaultCapacity(32, 0, 2, 4) == 8
    ensures DefaultCapacity(32, 2, 2, 4) == 8
    ensures CheckIndexOverflow(8, DefaultCapacity(16, 0, 2, 2)) == Fail(OutOfRange)
  {
  }

  /** Element i of the control register's `mode` array is bits [4i, 4i + 2)
      of word 0. */
  lemma ModeLocation(i: nat)
    requires i < 8
    ensures GetIdx(i, 0, 4, 32) == Location(0, 4 * i)
  {
    GetIdxUnique(i, 0, 4, 32, Location(0, 4 * i));
  }

  /** Element j of the control register's `cnf` array is bits
      [4j + 2, 4j + 4) of word 0. */
  lemma CnfLocation(j: nat)
    requires j < 8
    ensures GetIdx(j, 2, 4, 32) == Location(0, 4 * j + 2)
  {
    GetIdxUnique(j, 2, 4, 32, Location(0, 4 * j + 2));
  }

  /** Elements of `mode` and `cnf` never overlap. */
  lemma ModeCnfDisjoint(i: nat, j: nat)
    ensures Disjoint(4 * i, 2, 4 * j + 2, 2) && Disjoint(4 * j + 2, 2, 4 * i, 2)
  {
    if i <= j {
      assert 4 * i + 2 <= 4 * j + 2;
    } else {
      assert 4 * j + 4 <= 4 * i;
    }
  }

  /** Writing element i of `mode` leaves element j of `cnf` unchanged. */
  lemma ModeWriteKeepsCnf(word: nat, i: nat, j: nat, v: nat)
    requires i < 8 && j < 8 && v < 4
    ensures ReadField(WriteField(word, 4 * i, 2, v, 32), 4 * j + 2, 2) == ReadField(word, 4 * j + 2, 2)
  {
    assert Pow2(2) == 4;
    ModeCnfDisjoint(i, j);
    WriteFieldIsolation(word, 4 * i, 2, v, 32, 4 * j + 2, 2);
  }

  /** Writing element j of `cnf` leaves element i of `mode` unchanged. */
  lemma CnfWriteKeepsMode(word: nat, i: nat, j: nat, v: nat)
    requires i < 8 && j < 8 && v < 4
    ensures ReadField(WriteField(word, 4 * j + 2, 2, v, 32), 4 * i, 2) == ReadField(word, 4 * i, 2)
  {
    assert Pow2(2) == 4;
    ModeCnfDisjoint(i, j);
    WriteFieldIsolation(word, 4 * j + 2, 2, v, 32, 4 * i, 2);
  }

  /** Reading element i of the control register's `mode` array reads bits
      [4i, 4i + 2) of the shared word. */
  lemma ModeRead(mode: BitArray, i: nat)
    requires mode.Valid() && i < 8
    requires mode.width == 32 && mode.pos0 == 0 && mode.len == 2 && mode.step == 4 && mode.n == 8
    ensures mode.at < mode.raw.Length
    ensures mode.Get(i) == Success(ReadField(mode.raw[mode.at], 4 * i, 2))
  {
    ModeLocation(i);
    assert mode.Locate(i) == Location(0, 4 * i);
    assert mode.InStorage(i);
    assert mode.GetUnchecked(i) == ReadField(mode.raw[mode.at], 4 * i, 2);
  }

  /** Reading element i of the control register's `cnf` array reads bits
      [4i + 2, 4i + 4) of the shared word. */
  lemma CnfRead(cnf: BitArray, i: nat)
    requires cnf.Valid() && i < 8
    requires cnf.width == 32 && cnf.pos0 == 2 && cnf.len == 2 && cnf.step == 4 && cnf.n == 8
    ensures cnf.at < cnf.raw.Length
    ensures cnf.Get(i) == Success(ReadField(cnf.raw[cnf.at], 4 * i + 2, 2))
  {
    CnfLocation(i);
    assert cnf.Locate(i) == Location(0, 4 * i + 2);
    assert cnf.InStorage(i);
    assert cnf.GetUnchecked(i) == ReadField(cnf.raw[cnf.at], 4 * i + 2, 2);
  }

  /** The control-register step of the tests on the model's classes: `mode`
      (two bits at 4i) and `cnf` (two bits at 4i + 2) share one 32-bit word;
      setting element i of `mode` to v passes, `mode` then reads v at i and
      element i of `cnf` reads as before. */
  method ControlRegisterStep(mode: BitArray, cnf: BitArray, i: nat, v: nat) returns (o: Outcome)
    requires mode.Valid() && cnf.Valid() && mode.raw == cnf.raw && mode.at == cnf.at
    requires mode.width == 32 && mode.pos0 == 0 && mode.len == 2 && mode.step == 4 && mode.n == 8
    requires cnf.width == 32 && cnf.pos0 == 2 && cnf.len == 2 && cnf.step == 4 && cnf.n == 8
    requires i < 8 && v < 4
    modifies mode.raw
    ensures mode.Valid() && cnf.Valid()
    ensures o == Pass && mode.Get(i) == Success(v)
    ensures cnf.Get(i) == old(cnf.Get(i))
  {
    CnfRead(cnf, i);
    ghost var before := mode.raw[mode.at];
    ModeLocation(i);
    assert mode.Locate(i) == Location(0, 4 * i);
    assert Pow2(2) == 4;
    o := mode.Set(i, v);
    assert mode.raw[mode.at] == mode.raw[..][mode.at + 0];
    ModeWriteKeepsCnf(before, i, i, v);
    CnfRead(cnf, i);
  }

  /** The test's values, in the order it writes them. */
  const TestValues: seq<nat> := [0, 1, 2, 3, 0]

  /** A two-bit field at bit 0 of an otherwise empty 16-bit word takes each
      of the test values in turn; each is read back through `Get` and seen
      in the raw word as itself. */
  method CycleFieldAtZero(bf: Bit)
    requires bf.Valid() && bf.width == 16 && bf.pos == 0 && bf.len == 2 && bf.raw[bf.at] == 0
    modifies bf.raw
    ensures bf.Valid() && bf.raw[bf.at] == 0
  {
    SmallPowers();
    for n := 0 to |TestValues|
      invariant bf.Valid()
      invariant bf.raw[bf.at] == if n == 0 then 0 else TestValues[n - 1]
    {
      FieldAtZeroWordIsValue(bf.raw[bf.at], TestValues[n]);
      var o := bf.Set(TestValues[n]);
      assert bf.Get() == TestValues[n] && bf.GetRaw() == TestValues[n];
    }
  }

  /** A two-bit field at bit 5 of an otherwise empty 16-bit word takes each
      of the test values in turn; each is read back through `Get` and seen
      in the raw word as `v << 5`. */
  method CycleFieldAtFive(bf: Bit)
    requires bf.Valid() && bf.width == 16 && bf.pos == 5 && bf.len == 2 && bf.raw[bf.at] == 0
    modifies bf.raw
    ensures bf.Valid() && bf.raw[bf.at] == 0
  {
    SmallPowers();
    for n := 0 to |TestValues|
      invariant bf.Valid()
      invariant bf.raw[bf.at] == (if n == 0 then 0 else TestValues[n - 1]) * 32
    {
      FieldAtFiveWordIsShiftedValue(if n == 0 then 0 else TestValues[n - 1], TestValues[n]);
      var o := bf.Set(TestValues[n]);
      assert bf.Get() == TestValues[n] && bf.GetRaw() == TestValues[n] * 32;
    }
  }

  /** The single-field test on the model's classes: the field at bit 0 and
      then the one at bit 5 of the same 16-bit word cycle through the test
      values; finally 0b100 is rejected as a domain error. */
  method BitFieldSequence() returns (word: array<nat>, rejected: Outcome)
    ensures word.Length == 1 && word[0] == 0
    ensures rejected == Fail(DomainError)
  {
    word := new nat[1](_ => 0);
    var bf := new Bit(word, 0, UInt16, 0, 2, ReadWrite);
    CycleFieldAtZero(bf);
    var bf2 := new Bit(word, 0, UInt16, 5, 2, ReadWrite);
    CycleFieldAtFive(bf2);
    assert Pow2(2) == 4;
    rejected := bf.Set(4);
  }

  /** Sets every element of an eight-element array to v with `Set`. */
  method FillWithSet(bfa: BitArray, v: nat)
    requires bfa.Valid() && bfa.n == 8 && v < Pow2(bfa.len)
    modifies bfa.raw
    ensures bfa.Valid()
    ensures forall j: nat :: j < 8 ==> bfa.Get(j) == Success(v)
  {
    for i := 0 to 8
      invariant bfa.Valid()
      invariant forall j: nat :: j < i ==> bfa.Get(j) == Success(v)
    {
      var o := bfa.Set(i, v);
    }
  }

  /** Sets every element of an eight-element array to v by assignment
      through the `operator[]` proxy, reading each back through the proxy. */
  method FillThroughProxies(bfa: BitArray, v: nat)
    requires bfa.Valid() && bfa.n == 8 && v < Pow2(bfa.len)
    modifies bfa.raw
    ensures bfa.Valid()
    ensures forall j: nat :: j < 8 ==> bfa.Get(j) == Success(v)
  {
    for i := 0 to 8
      invariant bfa.Valid()
      invariant forall j: nat :: j < i ==> bfa.Get(j) == Success(v)
    {
      var r := bfa.Index(i);
      var o := r.Assign(v);
      assert r.Value() == Success(v);
    }
  }

  /** The array test on the model's classes: the eight two-bit elements of a
      16-bit word are set to each of 0, 1, 2, 3, 0 in turn, first with `Set`
      and then by assignment through the `operator[]` proxy; finally 0b100 at
      index 0 is a domain error and index 8 is out of range. */
  method BitArraySequence() returns (bfa: BitArray, tooWide: Outcome, tooFar: Outcome)
    ensures bfa.Valid() && bfa.n == 8
    ensures forall j: nat :: j < 8 ==> bfa.Get(j) == Success(0)
    ensures tooWide == Fail(DomainError) && tooFar == Fail(OutOfRange)
  {
    assert Pow2(2) == 4;
    var word := new nat[1](_ => 0);
    bfa := new BitArray.WithDefaultCapacity(word, 0, UInt16, 0, 2, 2, ReadWrite);
    assert bfa.n == 8 by {
      TestLayoutCapacities();
    }
    for n := 0 to |TestValues|
      invariant bfa.Valid() && bfa.raw == word && bfa.n == 8 && bfa.len == 2
      invariant n > 0 ==> forall j: nat :: j < 8 ==> bfa.Get(j) == Success(TestValues[n - 1])
    {
      FillWithSet(bfa, TestValues[n]);
      FillThroughProxies(bfa, TestValues[n]);
    }
    tooWide := bfa.Set(0, 4);
    tooFar := bfa.Set(8, 0);
  }
}
