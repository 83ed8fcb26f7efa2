/**
 Limits of kernel/param.h that several components share.
 */
module Params {
  const MAXOPBLOCKS: nat := 10  // blocks one file-system operation may log
}
