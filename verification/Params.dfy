/** The constants of kernel/param.h that several parts share. */
module Params {
  const MAXOPBLOCKS := 10
  /** MAXOPBLOCKS * 3. */
  const LOGSIZE := 30
  const FSSIZE := 2000
}
