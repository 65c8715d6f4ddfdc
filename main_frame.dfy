/**
 * The business logic of the POTAScan main window (main.py): the band
 * combo box's label table, the redraw that turns the controller's filtered
 * spots into spot widgets, and the Scan button that moves a highlight
 * through those widgets.  A widget is reduced to what it shows and whether
 * it is highlighted.
 */
module MainFrame {
  import opened Wrappers
  import opened Spots
  import opened SpotFilter
  import opened Dedup
  import Pota

  // ---------------------------------------------------------------------
  // BAND_STRINGS_TO_BANDS  (main.py:9-20)
  // ---------------------------------------------------------------------

  /** The band combo box's labels and the band filter each one selects. */
  const BandLabels: map<string, Option<Band>> := map[
    "ALL" := None,
    "10 Meters" := Some(Meters10),
    "12 Meters" := Some(Meters12),
    "15 Meters" := Some(Meters15),
    "17 Meters" := Some(Meters17),
    "20 Meters" := Some(Meters20),
    "30 Meters" := Some(Meters30),
    "40 Meters" := Some(Meters40),
    "80 Meters" := Some(Meters80),
    "160 Meters" := Some(Meters160)
  ]

  function LabelOf(b: Band): string
  {
    match b
    case Meters10 => "10 Meters"
    case Meters12 => "12 Meters"
    case Meters15 => "15 Meters"
    case Meters17 => "17 Meters"
    case Meters20 => "20 Meters"
    case Meters30 => "30 Meters"
    case Meters40 => "40 Meters"
    case Meters80 => "80 Meters"
    case Meters160 => "160 Meters"
  }

  /** "ALL" selects no band filter, and it is the only label that does. */
  lemma AllMeansNoBand(l: string)
    requires l in BandLabels
    ensures BandLabels[l].None? <==> l == "ALL"
  {
  }

  /** Every band is selected by its label ... */
  lemma LabelSelectsBand(b: Band)
    ensures LabelOf(b) in BandLabels && BandLabels[LabelOf(b)] == Some(b)
  {
  }

  /** ... and by no other label. */
  lemma OnlyLabelOfBand(l: string)
    requires l in BandLabels && BandLabels[l].Some?
    ensures l == LabelOf(BandLabels[l].value)
  {
  }

  // ---------------------------------------------------------------------
  // SpotWidget  (main.py:22-40), reduced to its contents and highlight
  // ---------------------------------------------------------------------

  class SpotWidget {
    const call: string
    const park: string
    const frequency: Option<real>
    /** True while the box is drawn in the highlight colour. */
    var active: bool

    constructor (spot: Spot)
      ensures Shows(spot) && !active
    {
      call, park, frequency := spot.activator, spot.reference, spot.frequency;
      active := false;
    }

    predicate Shows(x: Spot)
    {
      call == x.activator && park == x.reference && frequency == x.frequency
    }

    method MakeActive()
      modifies this
      ensures active
    {
      active := true;
    }

    method Reset()
      modifies this
      ensures !active
    {
      active := false;
    }
  }

  /** Widget i shows record i, for every record. */
  ghost predicate Mirrors(ws: seq<SpotWidget>, shown: seq<Spot>)
  {
    |ws| == |shown| && forall i :: 0 <= i < |ws| ==> ws[i].Shows(shown[i])
  }

  /** One new, unhighlighted widget per record, in order (main.py:187-188). */
  method MakeWidgets(shown: seq<Spot>) returns (ws: seq<SpotWidget>)
    ensures Mirrors(ws, shown)
    ensures forall w :: w in ws ==> fresh(w) && !w.active
    ensures forall i, j :: 0 <= i < j < |ws| ==> ws[i] != ws[j]
  {
    ws := [];
    for i := 0 to |shown|
      invariant |ws| == i
      invariant forall k :: 0 <= k < i ==> fresh(ws[k]) && !ws[k].active && ws[k].Shows(shown[k])
      invariant forall k, l :: 0 <= k < l < i ==> ws[k] != ws[l]
    {
      var w := new SpotWidget(shown[i]);
      ws := ws + [w];
    }
  }

  /** Python's list.index: the first position of x, None where it raises ValueError. */
  function IndexOf<T(==)>(s: seq<T>, x: T): (r: Option<nat>)
    ensures r.None? <==> x !in s
    ensures r.Some? ==> r.value < |s| && s[r.value] == x
    ensures r.Some? ==> forall j :: 0 <= j < r.value ==> s[j] != x
  {
    if s == [] then None
    else if s[0] == x then Some(0)
    else match IndexOf(s[1..], x)
      case None => None
      case Some(i) => Some(i + 1)
  }

  // ---------------------------------------------------------------------
  // The scan cursor  (main.py:196-213)
  // ---------------------------------------------------------------------

  /**
   * Where current_spot stands in the widget list: not scanning, at an index,
   * or holding a widget that is no longer in the list.
   */
  datatype Cursor = Idle | At(index: nat) | Stale

  /** One press of Scan over a list of n widgets. */
  function Advance(c: Cursor, n: nat): (r: Cursor)
    ensures n > 0 && (c.Idle? || (c.At? && c.index < n)) ==> r.At? && r.index < n
    ensures c.Stale? ==> r.Stale?
  {
    if n == 0 then c
    else match c
      case Idle => At(0)
      case At(i) => At((i + 1) % n)
      case Stale => Stale
  }

  /** k presses of Scan. */
  function AdvanceTimes(c: Cursor, n: nat, k: nat): Cursor
    decreases k
  {
    if k == 0 then c else AdvanceTimes(Advance(c, n), n, k - 1)
  }

  lemma {:induction false} MulAtLeast(d: int, n: int)
    requires d >= 1 && n > 0
    ensures d * n >= n
  {
    if d > 1 {
      MulAtLeast(d - 1, n);
      assert d * n == (d - 1) * n + n;
    }
  }

  /** Euclidean division is unique: y = a * n + r with 0 <= r < n fixes y % n. */
  lemma ModUnique(y: int, a: int, r: int, n: int)
    requires n > 0 && 0 <= r < n && y == a * n + r
    ensures y % n == r
  {
    var q, s := y / n, y % n;
    assert y == q * n + s;
    if q > a {
      assert (q - a) * n == r - s;
      MulAtLeast(q - a, n);
    } else if q < a {
      assert (a - q) * n == s - r;
      MulAtLeast(a - q, n);
    }
  }

  lemma ModAdd(a: nat, b: nat, n: nat)
    requires n > 0
    ensures (a % n + b) % n == (a + b) % n
  {
    var q, r := a / n, a % n;
    assert a == q * n + r;
    var q2, r2 := (r + b) / n, (r + b) % n;
    assert r + b == q2 * n + r2;
    assert a + b == (q + q2) * n + r2;
    ModUnique(a + b, q + q2, r2, n);
  }

  lemma StepSum(i: nat, k: nat, n: nat)
    requires n > 0 && k > 0
    ensures ((i + 1) % n + (k - 1)) % n == (i + k) % n
  {
    ModAdd(i + 1, k - 1, n);
  }

  lemma {:induction false} AdvanceFrom(i: nat, n: nat, k: nat)
    requires i < n
    ensures AdvanceTimes(At(i), n, k) == At((i + k) % n)
    decreases k
  {
    if k == 0 {
      ModUnique(i, 0, i, n);
    } else {
      AdvanceFrom((i + 1) % n, n, k - 1);
      StepSum(i, k, n);
    }
  }

  /** Starting a scan and pressing Scan k + 1 times highlights widget k mod n. */
  lemma ScanVisitsInOrder(n: nat, k: nat)
    requires n > 0
    ensures AdvanceTimes(Idle, n, k + 1) == At(k % n)
  {
    AdvanceFrom(0, n, k);
  }

  /** n presses bring the highlight back to where it was. */
  lemma ScanReturnsAfterFullCycle(i: nat, n: nat)
    requires i < n
    ensures AdvanceTimes(At(i), n, n) == At(i)
  {
    AdvanceFrom(i, n, n);
    ModUnique(i + n, 1, i, n);
  }

  // ---------------------------------------------------------------------
  // MainAppFrame  (main.py:43-213), without the window plumbing
  // ---------------------------------------------------------------------

  /** What triggered a redraw: none (start-up), the Reload tool, or the band combo box. */
  datatype RedrawEvent = NoEvent | ReloadTool(fetched: seq<Spot>) | BandCombo

  /** list.index raised ValueError: current_spot is not in the widget list. */
  datatype ScanError = CurrentNotInList

  class MainAppFrame {
    const pc: Pota.PotaSpotController
    /** The value of the read-only band combo box. */
    var bandLabel: string
    var spots: seq<SpotWidget>
    var currentSpot: SpotWidget?

    /** Widgets are distinct, and exactly the current one is highlighted. */
    ghost predicate Valid()
      reads this, spots
    {
      && bandLabel in BandLabels
      && (forall i, j :: 0 <= i < j < |spots| ==> spots[i] != spots[j])
      && (forall i :: 0 <= i < |spots| ==> (spots[i].active <==> spots[i] == currentSpot))
    }

    ghost function CursorOf(): Cursor
      reads this
    {
      if currentSpot == null then Idle
      else match IndexOf(spots, currentSpot)
        case None => Stale
        case Some(i) => At(i)
    }

    /** The query every redraw makes: SSB, with the combo box's band. */
    function Shown(): Result<seq<Spot>, QueryError>
      reads this, pc
      requires bandLabel in BandLabels
    {
      pc.GetSpots(Some(SSB), BandLabels[bandLabel])
    }

    /** Start-up: refresh with the fetched records, draw with band "ALL", no scan. */
    constructor (fetched: seq<Spot>)
      ensures Valid() && fresh(pc)
      ensures pc.spots == Deduplicate(fetched)
      ensures bandLabel == "ALL" && currentSpot == null
      ensures Shown().Success? && Mirrors(spots, Shown().value)
    {
      var c := new Pota.PotaSpotController();
      c.Refresh(fetched);
      pc := c;
      bandLabel := "ALL";
      spots := [];
      currentSpot := null;
      new;
      FilterWithoutBandSucceeds(pc.spots, Some(SSB));
      var _ := OnSpotRedraw(NoEvent);
      currentSpot := null;
    }

    /**
     * Re-fetches only for the Reload tool, then rebuilds the widgets from
     * the SSB spots of the selected band.  current_spot is left as it was,
     * so a scan in progress now points at a widget outside the list.
     */
    method OnSpotRedraw(event: RedrawEvent) returns (out: Outcome<QueryError>)
      requires Valid()
      modifies this, pc
      ensures Valid()
      ensures pc.spots == if event.ReloadTool? then Deduplicate(event.fetched) else old(pc.spots)
      ensures bandLabel == old(bandLabel) && currentSpot == old(currentSpot)
      ensures out.Fail? <==> Shown().Failure?
      ensures out.Fail? ==> spots == old(spots)
      ensures out.Pass? ==> Shown().Success? && Mirrors(spots, Shown().value)
      ensures out.Pass? ==> forall w :: w in spots ==> fresh(w) && !w.active
      ensures out.Pass? && old(currentSpot) != null ==> CursorOf() == Stale
    {
      if event.ReloadTool? {
        pc.Refresh(event.fetched);
      }
      var band := BandLabels[bandLabel];
      var shown := pc.GetSpots(Some(SSB), band);
      if shown.Failure? {
        return Fail(shown.error);
      }
      spots := MakeWidgets(shown.value);
      return Pass;
    }

    /** The band combo box changed: re-filter the snapshot without fetching. */
    method SelectBand(choice: string) returns (out: Outcome<QueryError>)
      requires Valid() && choice in BandLabels
      modifies this, pc
      ensures Valid() && bandLabel == choice
      ensures pc.spots == old(pc.spots) && currentSpot == old(currentSpot)
      ensures out.Fail? <==> Shown().Failure?
      ensures out.Fail? ==> spots == old(spots)
      ensures out.Pass? ==> Shown().Success? && Mirrors(spots, Shown().value)
      ensures out.Pass? ==> forall w :: w in spots ==> fresh(w) && !w.active
      ensures out.Pass? && old(currentSpot) != null ==> CursorOf() == Stale
    {
      bandLabel := choice;
      out := OnSpotRedraw(BandCombo);
    }

    /**
     * Scan: highlight the widget after the current one, wrapping to the
     * first, or the first widget when no scan is running.
     */
    method NextSpot() returns (out: Outcome<ScanError>)
      requires Valid()
      modifies this`currentSpot, spots
      ensures Valid()
      ensures out.Fail? <==> |spots| > 0 && old(CursorOf()).Stale?
      ensures out.Pass? ==> CursorOf() == Advance(old(CursorOf()), |spots|)
      ensures old(CursorOf()).Stale? ==> CursorOf() == Stale
      ensures out.Pass? && |spots| > 0 ==> currentSpot != null && currentSpot in spots && currentSpot.active
      ensures out.Pass? && |spots| == 1 ==> currentSpot == spots[0] && spots[0].active
      ensures (out.Fail? || |spots| == 0) ==>
        currentSpot == old(currentSpot) && forall w :: w in spots ==> w.active == old(w.active)
    {
      if |spots| == 0 {
        return Pass;
      }
      var next: SpotWidget;
      if currentSpot != null {
        var i := IndexOf(spots, currentSpot);
        if i.None? {
          return Fail(CurrentNotInList);
        }
        next := spots[(i.value + 1) % |spots|];
        currentSpot.Reset();
      } else {
        next := spots[0];
      }
      next.MakeActive();
      currentSpot := next;
      out := Pass;
    }
  }

  /** Valid frames highlight at most one widget. */
  lemma AtMostOneActive(f: MainAppFrame, i: int, j: int)
    requires f.Valid()
    requires 0 <= i < |f.spots| && 0 <= j < |f.spots|
    requires f.spots[i].active && f.spots[j].active
    ensures i == j
  {
  }
}
