/** The in-memory cache of per-candle volumes, by instrument. */
module MarketData {
  class MarketDataCache {
    var volumes: map<string, int>

    function GetVolume(key: string): int
      reads this
    {
      if key in volumes then volumes[key] else 0
    }

    constructor ()
      ensures forall k :: GetVolume(k) == 0
    {
      volumes := map[];
    }

    method AccumulateVolume(key: string, delta: int)
      modifies this
      ensures forall k :: GetVolume(k) == old(GetVolume(k)) + if k == key then delta else 0
    {
      volumes := volumes[key := GetVolume(key) + delta];
    }

    method ResetVolume(key: string)
      modifies this
      ensures forall k :: GetVolume(k) == if k == key then 0 else old(GetVolume(k))
    {
      volumes := volumes[key := 0];
    }
  }
}
