/** The Linux error numbers the driver returns, negated. */
module Errno {
  const EAGAIN := 11
  const ENOMEM := 12
  const EFAULT := 14
  const EBUSY := 16
  const EINVAL := 22
  const ERANGE := 34
  const EOVERFLOW := 75
  const ENOTCONN := 107
}
