/** The Shanghai gas calculator: a London schedule with the two transient-storage
    costs overridden. Schedules form an override chain; only the entries this model
    uses are listed. */
module GasCalculator {
  import opened EvmTypes

  /** G_verylow of the Yellow Paper (Appendix G), inherited from the Frontier calculator. */
  const VeryLowTierGasCost: Long := 3

  /** WARM_STORAGE_READ_COST of EIP-2929, inherited from the Berlin calculator. */
  const WarmStorageReadCost: Long := 100

  /** Shanghai's TLOAD_GAS and TSTORE_GAS. */
  const TloadGas: Long := WarmStorageReadCost
  const TstoreGas: Long := WarmStorageReadCost

  /** The cost queries a schedule answers. */
  datatype CostEntry = VeryLowTier | WarmStorageRead | Tload | Tstore

  /** The two protocol versions of the override chain that this model shows. */
  datatype Fork = London | Shanghai

  /** London's schedule, which has no transient-storage operations. */
  function LondonCost(e: CostEntry): (r: Option<Long>)
    ensures r.None? <==> (e == Tload || e == Tstore)
  {
    match e
    case VeryLowTier => Some(VeryLowTierGasCost)
    case WarmStorageRead => Some(WarmStorageReadCost)
    case Tload => None
    case Tstore => None
  }

  /** Shanghai's `getTloadOperationGasCost`: takes no frame or slot, so it is a constant. */
  function TloadOperationGasCost(): (r: Long)
    ensures r == WarmStorageReadCost && Some(r) == LondonCost(WarmStorageRead)
  {
    TloadGas
  }

  /** Shanghai's `getTstoreOperationGasCost`: takes no frame or slot, so it is a constant. */
  function TstoreOperationGasCost(): (r: Long)
    ensures r == WarmStorageReadCost && Some(r) == LondonCost(WarmStorageRead)
  {
    TstoreGas
  }

  /** The cost a fork's calculator answers for an entry: Shanghai overrides exactly the
      two transient-storage entries and inherits everything else from London. */
  function Cost(fork: Fork, e: CostEntry): (r: Option<Long>)
    ensures fork == Shanghai && e == Tload ==> r == Some(WarmStorageReadCost)
    ensures fork == Shanghai && e == Tstore ==> r == Some(WarmStorageReadCost)
    ensures fork == Shanghai && e != Tload && e != Tstore ==> r == LondonCost(e)
    ensures fork == Shanghai ==> r.Some?
  {
    match fork
    case London => LondonCost(e)
    case Shanghai =>
      match e
      case Tload => Some(TloadOperationGasCost())
      case Tstore => Some(TstoreOperationGasCost())
      case _ => LondonCost(e)
  }

  /** Nothing but the two overridden entries differs between London and Shanghai.
      The implication from right to left rests on London's transient-storage entries
      being undefined in this model; London's actual answers to those two queries are
      not part of this model. */
  lemma ShanghaiOverridesOnlyTransientCosts(e: CostEntry)
    ensures Cost(Shanghai, e) != Cost(London, e) <==> (e == Tload || e == Tstore)
  {
  }

  /** Both transient-storage costs are equal, and equal to the 100 gas the tests expect. */
  lemma TransientCostsAgree()
    ensures TloadOperationGasCost() == TstoreOperationGasCost() == 100
    ensures Cost(Shanghai, Tload) == Cost(Shanghai, Tstore) == Cost(Shanghai, WarmStorageRead)
  {
  }
}
