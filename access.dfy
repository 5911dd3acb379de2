/** Access modes of a register field and the capabilities each one grants.
 *  The capabilities form a lattice rather than a state machine: a mode either
 *  permits reading, writing, setting to one or resetting to zero, or not.
 */
module Access {

  /** `RegisterType`: read-only, write-only, read/write, and the two
      read/clear modes (cleared by writing 0, or by writing 1). */
  datatype RegisterType = Read | Write | ReadWrite | ReadClearW0 | ReadClearW1

  predicate CanRead(rt: RegisterType)
  {
    rt == Read || rt == ReadWrite || rt == ReadClearW0
  }

  predicate CanWrite(rt: RegisterType)
  {
    rt == Write || rt == ReadWrite
  }

  predicate CanSet(rt: RegisterType)
  {
    CanWrite(rt) || rt == ReadClearW1
  }

  predicate CanReset(rt: RegisterType)
  {
    CanWrite(rt) || rt == ReadClearW0
  }

  /** Writing subsumes setting and resetting, and the modes that permit both
      setting and resetting are exactly the writable ones. */
  lemma WriteIsSetAndReset(rt: RegisterType)
    ensures CanWrite(rt) ==> CanSet(rt) && CanReset(rt)
    ensures CanSet(rt) && CanReset(rt) ==> CanWrite(rt)
  {
  }

  /** The capability table, mode by mode. */
  lemma CapabilityTable(rt: RegisterType)
    ensures rt == Read ==> CanRead(rt) && !CanWrite(rt) && !CanSet(rt) && !CanReset(rt)
    ensures rt == Write ==> !CanRead(rt) && CanWrite(rt) && CanSet(rt) && CanReset(rt)
    ensures rt == ReadWrite ==> CanRead(rt) && CanWrite(rt) && CanSet(rt) && CanReset(rt)
    ensures rt == ReadClearW0 ==> CanRead(rt) && !CanWrite(rt) && !CanSet(rt) && CanReset(rt)
    ensures rt == ReadClearW1 ==> !CanRead(rt) && !CanWrite(rt) && CanSet(rt) && !CanReset(rt)
  {
  }

  /** Every mode grants at least one capability. */
  lemma EveryModeGrantsSomething(rt: RegisterType)
    ensures CanRead(rt) || CanSet(rt) || CanReset(rt)
  {
  }
}
