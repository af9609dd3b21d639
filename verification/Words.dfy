/** Machine words, as ranges of integers. */
module Words {
  type uint8 = n: int | 0 <= n < 0x100
  type uint16 = n: int | 0 <= n < 0x1_0000
  type uint32 = n: int | 0 <= n < 0x1_0000_0000
  type uint64 = n: int | 0 <= n < 0x1_0000_0000_0000_0000

  const ETH_ALEN: nat := 6

  type Mac = m: seq<uint8> | |m| == ETH_ALEN witness [0, 0, 0, 0, 0, 0]
}
