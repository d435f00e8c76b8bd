/** What the daemon and the kernel module share. */
module Basics {
  import opened SeqNo

  type Addr = U32

  datatype Option<T> = None | Some(value: T)
}
