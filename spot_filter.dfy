/**
 * The filter of PotaSpotController.getSpots (pota.py:80-90): a record is
 * returned when it passes the optional mode filter and the optional band
 * filter; the band filter parses the frequency text and fails the whole
 * call when that text is not a number.
 */
module SpotFilter {
  import opened Wrappers
  import opened Spots

  /** float() rejected a record's frequency text. */
  datatype QueryError = FrequencyNotANumber

  predicate ModeAccepts(mode: Option<Mode>, x: Spot)
  {
    mode.None? || x.mode == ModeValue(mode.value)
  }

  /**
   * The combined predicate on one record.  The band filter runs only when
   * the mode filter passed (`and` short-circuits), and only then can an
   * unparseable frequency raise.
   */
  function Accepts(mode: Option<Mode>, band: Option<Band>, x: Spot): Result<bool, QueryError>
  {
    if !ModeAccepts(mode, x) then Success(false)
    else if band.None? then Success(true)
    else match x.frequency
      case None => Failure(FrequencyNotANumber)
      case Some(f) => Success(InBand(band.value, f))
  }

  /**
   * The records of s that the filters accept, in the order of s, or the
   * error when the band filter meets a frequency that is not a number.
   */
  function FilterSpots(s: seq<Spot>, mode: Option<Mode>, band: Option<Band>): (r: Result<seq<Spot>, QueryError>)
    ensures r.Failure? <==> exists i :: 0 <= i < |s| && Accepts(mode, band, s[i]).Failure?
    ensures r.Success? ==> forall i :: 0 <= i < |r.value| ==> Accepts(mode, band, r.value[i]) == Success(true)
  {
    if s == [] then Success([])
    else
      var p := s[..|s| - 1];
      var x := s[|s| - 1];
      assert s == p + [x];
      match FilterSpots(p, mode, band)
      case Failure(e) => Failure(e)
      case Success(kept) =>
        match Accepts(mode, band, x)
        case Failure(e) => Failure(e)
        case Success(ok) => if ok then Success(kept + [x]) else Success(kept)
  }

  /** The filter looks at one more record. */
  lemma FilterSnoc(p: seq<Spot>, x: Spot, mode: Option<Mode>, band: Option<Band>)
    ensures FilterSpots(p + [x], mode, band) ==
      match FilterSpots(p, mode, band)
      case Failure(e) => Failure(e)
      case Success(kept) =>
        match Accepts(mode, band, x)
        case Failure(e) => Failure(e)
        case Success(ok) => if ok then Success(kept + [x]) else Success(kept)
  {
    assert (p + [x])[..|p|] == p;
  }

  lemma {:induction false} FilterEmbeds(s: seq<Spot>, mode: Option<Mode>, band: Option<Band>) returns (idx: seq<int>)
    requires FilterSpots(s, mode, band).Success?
    ensures Embeds(FilterSpots(s, mode, band).value, s, idx)
  {
    if s == [] {
      idx := [];
    } else {
      var p := s[..|s| - 1];
      var x := s[|s| - 1];
      assert s == p + [x];
      var pidx := FilterEmbeds(p, mode, band);
      var keep := Accepts(mode, band, x) == Success(true);
      EmbedsSnoc(FilterSpots(p, mode, band).value, p, x, pidx, keep);
      idx := if keep then pidx + [|p|] else pidx;
    }
  }

  /**
   * Every copy of an accepted record comes back, and no copy of any other:
   * together with FilterIsSubsequence this pins the result down exactly.
   */
  lemma {:induction false} FilterCounts(s: seq<Spot>, mode: Option<Mode>, band: Option<Band>, y: Spot)
    requires FilterSpots(s, mode, band).Success?
    ensures multiset(FilterSpots(s, mode, band).value)[y] ==
      if Accepts(mode, band, y) == Success(true) then multiset(s)[y] else 0
  {
    if s != [] {
      var p, x := s[..|s| - 1], s[|s| - 1];
      assert p + [x] == s;
      FilterSnoc(p, x, mode, band);
      FilterCounts(p, mode, band, y);
    }
  }

  /** The result keeps the stored order: it is a subsequence of the stored list. */
  lemma FilterIsSubsequence(s: seq<Spot>, mode: Option<Mode>, band: Option<Band>)
    requires FilterSpots(s, mode, band).Success?
    ensures IsSubsequence(FilterSpots(s, mode, band).value, s)
  {
    var idx := FilterEmbeds(s, mode, band);
  }

  /** Without a mode and without a band every record comes back, in order. */
  lemma {:induction false} FilterWithoutCriteria(s: seq<Spot>)
    ensures FilterSpots(s, None, None) == Success(s)
  {
    if s != [] {
      var p, x := s[..|s| - 1], s[|s| - 1];
      FilterWithoutCriteria(p);
      FilterSnoc(p, x, None, None);
      assert p + [x] == s;
    }
  }

  /** Without a band filter no frequency is parsed, so the call cannot fail. */
  lemma FilterWithoutBandSucceeds(s: seq<Spot>, mode: Option<Mode>)
    ensures FilterSpots(s, mode, None).Success?
  {
  }

  /**
   * Both limits of a band are inclusive: a record of the requested mode
   * whose frequency is exactly a band limit is returned.
   */
  lemma BandLimitsInclusive(s: seq<Spot>, m: Mode, b: Band, x: Spot)
    requires x in s && x.mode == ModeValue(m)
    requires x.frequency == Some(Limits(b).0 as real) || x.frequency == Some(Limits(b).1 as real)
    requires FilterSpots(s, Some(m), Some(b)).Success?
    ensures x in FilterSpots(s, Some(m), Some(b)).value
  {
    assert multiset(s)[x] > 0;
  }
}
