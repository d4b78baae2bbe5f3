/** Per-symbol trading parameters and the manager that holds them
    (src/SymbolConfig.h). tickSize, volatilityThreshold and referencePrice
    feed only the floating-point checks that this model leaves out; they
    are carried as opaque integers. */
module SymbolConfigs {

  datatype SymbolConfig = SymbolConfig(
    tickSize: int,
    minQuantity: nat,
    minPrice: int,
    maxPrice: int,
    volatilityThreshold: int,
    referencePrice: int,
    tradingHalted: bool)

  type ConfigMap = map<string, SymbolConfig>

  /** The entry for `symbol` with its halted flag set to `halted`, when the
      symbol is present; the map unchanged otherwise. */
  function WithHalted(m: ConfigMap, symbol: string, halted: bool): (r: ConfigMap)
    ensures r.Keys == m.Keys
    ensures forall s :: s in m && s != symbol ==> r[s] == m[s]
    ensures symbol in m ==> r[symbol] == m[symbol].(tradingHalted := halted)
  {
    if symbol in m then m[symbol := m[symbol].(tradingHalted := halted)] else m
  }

  /** Halting (or resuming) twice is the same as doing it once. */
  lemma WithHaltedIdempotent(m: ConfigMap, symbol: string, halted: bool)
    ensures WithHalted(WithHalted(m, symbol, halted), symbol, halted) == WithHalted(m, symbol, halted)
  {
  }

  /** Halting and then resuming restores a symbol that was running. */
  lemma HaltThenResume(m: ConfigMap, symbol: string)
    requires symbol in m && !m[symbol].tradingHalted
    ensures WithHalted(WithHalted(m, symbol, true), symbol, false) == m
  {
  }

  class SymbolConfigManager {
    var configs: ConfigMap

    constructor ()
      ensures configs == map[]
    {
      configs := map[];
    }

    /** Inserts or overwrites the entry for one symbol. */
    method SetConfig(symbol: string, config: SymbolConfig)
      modifies this
      ensures configs == old(configs)[symbol := config]
    {
      configs := configs[symbol := config];
    }

    /** Copies the stored config into `out` when there is one; otherwise
        reports false and leaves the caller's `out` (passed in as
        `previous`) as it was. */
    method GetConfig(symbol: string, previous: SymbolConfig) returns (found: bool, out: SymbolConfig)
      ensures found <==> symbol in configs
      ensures found ==> out == configs[symbol]
      ensures !found ==> out == previous
    {
      if symbol in configs {
        found, out := true, configs[symbol];
      } else {
        found, out := false, previous;
      }
    }

    /** Sets tradingHalted for an existing symbol; never inserts. */
    method HaltTrading(symbol: string)
      modifies this
      ensures configs == WithHalted(old(configs), symbol, true)
    {
      if symbol in configs {
        configs := configs[symbol := configs[symbol].(tradingHalted := true)];
      }
    }

    /** Clears tradingHalted for an existing symbol; never inserts. */
    method ResumeTrading(symbol: string)
      modifies this
      ensures configs == WithHalted(old(configs), symbol, false)
    {
      if symbol in configs {
        configs := configs[symbol := configs[symbol].(tradingHalted := false)];
      }
    }
  }
}
