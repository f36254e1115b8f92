/** Bus addresses: initiators are built from five nibbles, targets are everything else that can be named. */
module Address {
  import opened Octets

  predicate IsInitiatorNibble(n: int) {
    n == 0x0 || n == 0x1 || n == 0x3 || n == 0x7 || n == 0xF
  }

  predicate IsInitiator(a: byte) {
    IsInitiatorNibble(a / 16) && IsInitiatorNibble(a % 16)
  }

  /** No broadcast, no initiator pattern, neither escape nor SYN. */
  predicate IsTarget(a: byte) {
    a != BROADCAST && a != ESC && a != SYN && !IsInitiator(a)
  }
}
