/** What the modules share. */
module Common {

  const NPROC := 64       // slots of the process table
  const MAX_PROCS := 64   // places in a run queue
  const NULL := -1        // no process
  const WRAP := 0x1_0000_0000

  /** A slot of the process table. */
  predicate Slot(p: int) { 0 <= p < NPROC }

  datatype Option<T> = None | Some(value: T)

  /** A 32-bit unsigned word. */
  type Word = w: nat | w < WRAP

  /** enum procstate */
  datatype State = UNUSED | EMBRYO | SLEEPING | RUNNABLE | RUNNING | ZOMBIE
}
