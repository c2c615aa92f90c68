/** Small datatypes shared by the models. */
module Base {
  datatype Option<+T> = None | Some(value: T)

  // Sizes and states of sched/inc/env.h.
  const NENV: nat := 1024
  datatype Status = FREE | DYING | RUNNABLE | RUNNING | NOT_RUNNABLE

  // The int32_t that holds x after wrapping around.
  function Wrap32(x: int): int { (x + 0x8000_0000) % 0x1_0000_0000 - 0x8000_0000 }

  // Error codes of sched/inc/error.h, as the kernel returns them (negated).
  const E_BAD_ENV := -2
  const E_INVAL := -3
  const E_NO_MEM := -4
  const E_NO_FREE_ENV := -5
  const E_FAULT := -6
  const E_IPC_NOT_RECV := -7
}
