/** IEEE 802 MAC addresses, shared by the Ethernet applications and the access point. */
module MacAddresses {

  /** A 48-bit MAC address. */
  newtype MacAddress = x: int | 0 <= x < 0x1_0000_0000_0000

  /** The all-zero address, which stands for "no address given". */
  const UNSPECIFIED: MacAddress := 0

  predicate IsUnspecified(a: MacAddress)
  {
    a == UNSPECIFIED
  }
}
