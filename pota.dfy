/**
 * PotaSpotController (pota.py:48-90): holds the deduplicated snapshot of
 * spots and serves filtered views of it.  The HTTP fetch and JSON decoding
 * of refresh are outside the model: refresh takes the decoded records.
 */
module Pota {
  import opened Wrappers
  import opened Spots
  import opened Dedup
  import opened SpotFilter

  class PotaSpotController {
    /** The current snapshot, replaced wholesale by each refresh. */
    var spots: seq<Spot>

    constructor ()
      ensures spots == []
    {
      spots := [];
    }

    /**
     * Sorts the fetched records by spotId and keeps the first record of each
     * activator, in that order.
     */
    method Refresh(raw: seq<Spot>)
      modifies this
      ensures spots == Deduplicate(raw)
      ensures UniqueActivators(spots)
      ensures SortedById(spots)
      ensures Activators(spots) == Activators(raw)
      ensures |spots| <= |raw|
    {
      var sorted := SortById(raw);
      var calls: set<string> := {};
      var deduped: seq<Spot> := [];
      for i := 0 to |sorted|
        invariant calls == Activators(sorted[..i])
        invariant deduped == KeepFirst(sorted[..i])
      {
        var spot := sorted[i];
        WalkStep(sorted, i);
        if spot.activator !in calls {
          deduped := deduped + [spot];
          calls := calls + {spot.activator};
        }
      }
      assert sorted[..|sorted|] == sorted;
      spots := deduped;
      assert UniqueActivators(spots) && SortedById(spots) && Activators(spots) == Activators(raw)
        && |spots| <= |raw| by {
        DeduplicateProperties(raw);
      }
    }

    /**
     * The stored spots that pass the mode and band filters, in stored order;
     * the stored list itself is not changed (the function only reads it).
     */
    function GetSpots(mode: Option<Mode>, band: Option<Band>): (r: Result<seq<Spot>, QueryError>)
      reads this
      ensures r == FilterSpots(spots, mode, band)
      ensures spots == [] ==> r == Success([])
      ensures mode.None? && band.None? ==> r == Success(spots)
      ensures r.Success? ==> IsSubsequence(r.value, spots)
    {
      FilterWithoutCriteria(spots);
      var r := FilterSpots(spots, mode, band);
      if r.Success? then FilterIsSubsequence(spots, mode, band); r else r
    }
  }
}
