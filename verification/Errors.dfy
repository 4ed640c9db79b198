/** Error numbers of the kernel (inc/error.h); a call that fails returns one of them negated. */
module Errors {
  const E_UNSPECIFIED := 1
  const E_BAD_ENV := 2
  const E_INVAL := 3
  const E_NO_MEM := 4
  const E_NO_FREE_ENV := 5
  const E_IPC_NOT_RECV := 7
}
