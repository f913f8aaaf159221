/** Looking up the backing memory of a physical address, with a one-entry cache. */
module PhysRegions {

  datatype Region = VramRegion | DspRegion | FcramRegion | N3dsRegion

  /** `PhysMemRegionInfo`; `NoInfo` is the default-constructed, invalid one. */
  datatype Info = NoInfo | Info(region: Region, start: nat, end: nat)

  const AREAS: seq<Info> := [
    Info(VramRegion, 0x1800_0000, 0x1860_0000),
    Info(DspRegion, 0x1FF0_0000, 0x1FF8_0000),
    Info(FcramRegion, 0x2000_0000, 0x3000_0000),
    Info(N3dsRegion, 0x1F00_0000, 0x1F40_0000)]

  /** The area holds the address, or ends there: callers pass open right bounds. */
  predicate Holds(area: Info, address: nat) { area.Info? && area.start <= address <= area.end }

  /** At most one area holds an address, so the order of the search does not matter. */
  lemma AreasAreApart(i: nat, j: nat, address: nat)
    requires i < |AREAS| && j < |AREAS| && Holds(AREAS[i], address) && Holds(AREAS[j], address)
    ensures i == j
  {
  }

  class RegionCache {
    var cached: Info

    predicate Valid()
      reads this
    {
      cached.NoInfo? || cached in AREAS
    }

    constructor ()
      ensures Valid()
    {
      cached := NoInfo;
    }

    /** The cache never shows: the answer depends on the address alone. */
    method GetPhysMemRegionInfo(address: nat) returns (info: Info)
      requires Valid()
      modifies this
      ensures Valid()
      ensures if exists i :: 0 <= i < |AREAS| && Holds(AREAS[i], address)
              then info in AREAS && Holds(info, address) else info == NoInfo
    {
      if cached.Info? && cached.start <= address < cached.end {
        assert exists i :: 0 <= i < |AREAS| && AREAS[i] == cached;
        return cached;
      }
      for i := 0 to |AREAS|
        invariant forall j :: 0 <= j < i ==> !Holds(AREAS[j], address)
      {
        if Holds(AREAS[i], address) {
          cached := AREAS[i];
          return cached;
        }
      }
      cached := NoInfo;
      info := NoInfo;
    }

    /** `GetPhysicalRef`: the region and the offset into it. */
    method GetPhysicalRef(address: nat) returns (info: Info, offset: nat)
      requires Valid()
      modifies this
      ensures Valid()
      ensures info.Info? <==> exists i :: 0 <= i < |AREAS| && Holds(AREAS[i], address)
      ensures info.Info? ==> Holds(info, address) && info.start + offset == address
    {
      info := GetPhysMemRegionInfo(address);
      offset := if info.Info? then address - info.start else 0;
    }
  }
}
