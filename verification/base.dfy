/** Options and the kernel's error codes. */
module Base {
  datatype Option<T> = None | Some(value: T)

  datatype Code = EOK | ERROR | EEMPTY | EFULL | EINVAL | EDELETED | E_IN_ISR
}
