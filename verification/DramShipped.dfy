/** A configuration that comes with the simulator: its first DDR3 device with the default system settings. */
module DramShipped {
  import opened AddressMap
  import opened Bits
  import opened DramTypes

  const SG125: Config := Config(
    2, 8,
    11, 0, 8,
    28, 11, 5, 39, 11, 4, 6,
    6, 12, 1, 88, 24, 4, 5, 1,
    3120, 6240,
    8, 8, 4,
    true, OpenPage, PerRank, RankThenBank,
    Mapping(Scheme2, 3, 1, 3, 14, 11))

  /** It meets the side conditions, and its queues have room for several transactions. */
  lemma ShippedIsValid()
    ensures SG125.Valid() && SG125.commandDepth >= 4 && SG125.transactionDepth >= 3
  {
    assert Pow2(1) == 2 && Pow2(3) == 8;
  }
}
