/**
 * The records of the POTA spot service and the two closed radio tables
 * (operating modes and HF bands) of pota.py, with the predicates on spot
 * lists that the rest of the model states its contracts in.
 */
module Spots {
  import opened Wrappers

  /** Operating modes the filter knows; the value is the mode token of a record. */
  datatype Mode = SSB | CW

  function ModeValue(m: Mode): (token: string)
    ensures token == "SSB" || token == "CW"
  {
    match m
    case SSB => "SSB"
    case CW => "CW"
  }

  lemma ModeValueInjective(m1: Mode, m2: Mode)
    ensures ModeValue(m1) == ModeValue(m2) ==> m1 == m2
  {
  }

  /** The nine HF bands; each maps to an inclusive kHz range. */
  datatype Band =
    | Meters160 | Meters80 | Meters40 | Meters30 | Meters20
    | Meters17 | Meters15 | Meters12 | Meters10

  /** The (low, high) kHz limits of a band, both ends inclusive. */
  function Limits(b: Band): (r: (int, int))
    ensures 0 < r.0 < r.1
  {
    match b
    case Meters160 => (1800, 2000)
    case Meters80 => (3500, 4000)
    case Meters40 => (7000, 7300)
    case Meters30 => (10100, 10150)
    case Meters20 => (14000, 14350)
    case Meters17 => (18068, 18168)
    case Meters15 => (21000, 21450)
    case Meters12 => (24890, 24990)
    case Meters10 => (28000, 29700)
  }

  /** True when frequency f (kHz) lies in band b, both limits included. */
  predicate InBand(b: Band, f: real)
  {
    Limits(b).0 as real <= f <= Limits(b).1 as real
  }

  /** The band ranges do not overlap, so a frequency is in at most one band. */
  lemma BandsDisjoint(b1: Band, b2: Band, f: real)
    requires InBand(b1, f) && InBand(b2, f)
    ensures b1 == b2
  {
  }

  /**
   * One record of the spot service.  The frequency text is given already
   * parsed: None stands for text that is not a decimal number.
   */
  datatype Spot = Spot(
    spotId: int,
    activator: string,
    reference: string,
    frequency: Option<real>,
    mode: string)

  /** The call signs that occur in a list of spots. */
  function Activators(s: seq<Spot>): set<string>
  {
    set x | x in s :: x.activator
  }

  /** No two records of s share an activator. */
  ghost predicate UniqueActivators(s: seq<Spot>)
  {
    forall i, j :: 0 <= i < j < |s| ==> s[i].activator != s[j].activator
  }

  /** s is in ascending spotId order. */
  ghost predicate SortedById(s: seq<Spot>)
  {
    forall i, j :: 0 <= i < j < |s| ==> s[i].spotId <= s[j].spotId
  }

  /** idx picks the elements of a out of b, in order: a is b with some elements dropped. */
  ghost predicate Embeds<T>(a: seq<T>, b: seq<T>, idx: seq<int>)
  {
    && |idx| == |a|
    && (forall k :: 0 <= k < |idx| ==> 0 <= idx[k] < |b| && a[k] == b[idx[k]])
    && (forall k, l :: 0 <= k < l < |idx| ==> idx[k] < idx[l])
  }

  ghost predicate IsSubsequence<T>(a: seq<T>, b: seq<T>)
  {
    exists idx :: Embeds(a, b, idx)
  }

  /** Dropping or keeping the last element of b extends an embedding into its prefix. */
  lemma EmbedsSnoc<T>(a: seq<T>, p: seq<T>, x: T, idx: seq<int>, keep: bool)
    requires Embeds(a, p, idx)
    ensures keep ==> Embeds(a + [x], p + [x], idx + [|p|])
    ensures !keep ==> Embeds(a, p + [x], idx)
  {
  }

  lemma ActivatorsSnoc(p: seq<Spot>, x: Spot)
    ensures Activators(p + [x]) == Activators(p) + {x.activator}
  {
    assert forall y :: y in p + [x] <==> y in p || y == x;
  }
}
