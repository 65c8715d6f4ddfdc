/**
 * The dedup step of PotaSpotController.refresh (pota.py:70-77): a stable
 * sort by spotId, then a single walk that keeps the first record seen for
 * each activator.
 *
 * The comment at pota.py:59-60 says the most recent spot of each station is
 * wanted.  Sorting ascending and keeping the first occurrence keeps the
 * LOWEST spotId instead; RetainedIsEarliestLowest and DedupKeepsOldest state
 * that literal behaviour.
 */
module Dedup {
  import opened Wrappers
  import opened Spots

  // ---------------------------------------------------------------------
  // The stable sort by spotId  (pota.py:70)
  // ---------------------------------------------------------------------

  /** Inserts x before the first element of t whose spotId is not below x's. */
  function InsertById(x: Spot, t: seq<Spot>): (r: seq<Spot>)
    ensures multiset(r) == multiset(t) + multiset{x}
  {
    if t == [] || x.spotId <= t[0].spotId then [x] + t
    else
      assert t == [t[0]] + t[1..];
      [t[0]] + InsertById(x, t[1..])
  }

  lemma {:induction false} InsertSorted(x: Spot, t: seq<Spot>)
    requires SortedById(t)
    ensures SortedById(InsertById(x, t))
  {
    if t != [] && x.spotId > t[0].spotId {
      var rest := InsertById(x, t[1..]);
      InsertSorted(x, t[1..]);
      var r := [t[0]] + rest;
      forall i, j | 0 <= i < j < |r|
        ensures r[i].spotId <= r[j].spotId
      {
        var y := rest[j - 1];
        if i == 0 {
          assert y in multiset(rest);
          assert y == x || y in t[1..];
        } else {
          assert r[i] == rest[i - 1];
        }
      }
    }
  }

  /** A stable sort by spotId: the model of Python's sorted with that key. */
  function SortById(s: seq<Spot>): (r: seq<Spot>)
    ensures multiset(r) == multiset(s)
    ensures SortedById(r)
  {
    if s == [] then []
    else
      assert s == [s[0]] + s[1..];
      InsertSorted(s[0], SortById(s[1..]));
      InsertById(s[0], SortById(s[1..]))
  }

  /** The records of s whose spotId is k, in their order in s. */
  function WithId(s: seq<Spot>, k: int): seq<Spot>
  {
    if s == [] then [] else (if s[0].spotId == k then [s[0]] else []) + WithId(s[1..], k)
  }

  lemma SortedTail(t: seq<Spot>)
    requires SortedById(t) && t != []
    ensures SortedById(t[1..])
  {
    forall i, j | 0 <= i < j < |t| - 1
      ensures t[1..][i].spotId <= t[1..][j].spotId
    {
      assert t[1..][i] == t[i + 1] && t[1..][j] == t[j + 1];
    }
  }

  lemma {:induction false} InsertKeepsIdOrder(x: Spot, t: seq<Spot>, k: int)
    requires SortedById(t)
    ensures WithId(InsertById(x, t), k) == (if x.spotId == k then [x] else []) + WithId(t, k)
  {
    if t == [] || x.spotId <= t[0].spotId {
      assert ([x] + t)[1..] == t;
    } else {
      var rest := InsertById(x, t[1..]);
      assert ([t[0]] + rest)[1..] == rest;
      SortedTail(t);
      InsertKeepsIdOrder(x, t[1..], k);
      assert WithId(t, k) == (if t[0].spotId == k then [t[0]] else []) + WithId(t[1..], k);
    }
  }

  /** Stability: records with equal spotId keep their input order. */
  lemma {:induction false} SortIsStable(s: seq<Spot>, k: int)
    ensures WithId(SortById(s), k) == WithId(s, k)
  {
    if s != [] {
      SortIsStable(s[1..], k);
      InsertKeepsIdOrder(s[0], SortById(s[1..]), k);
    }
  }

  /** Sorting a list that is already in spotId order leaves it as it is. */
  lemma {:induction false} SortOfSorted(s: seq<Spot>)
    requires SortedById(s)
    ensures SortById(s) == s
  {
    if s != [] {
      SortOfSorted(s[1..]);
    }
  }

  // ---------------------------------------------------------------------
  // The first-seen walk  (pota.py:71-76)
  // ---------------------------------------------------------------------

  /**
   * The records of s, walked from the front, that carry an activator not
   * seen before: s's prefix result, plus s's last record when its
   * activator is new.
   */
  function KeepFirst(s: seq<Spot>): (r: seq<Spot>)
    ensures |r| <= |s|
  {
    if s == [] then []
    else
      var p := s[..|s| - 1];
      if s[|s| - 1].activator in Activators(p) then KeepFirst(p)
      else KeepFirst(p) + [s[|s| - 1]]
  }

  /** One more step of the walk. */
  lemma KeepFirstSnoc(p: seq<Spot>, x: Spot)
    ensures KeepFirst(p + [x]) ==
      if x.activator in Activators(p) then KeepFirst(p) else KeepFirst(p) + [x]
  {
    assert (p + [x])[..|p|] == p;
  }

  lemma {:induction false} KeepFirstMembers(s: seq<Spot>)
    ensures forall x :: x in KeepFirst(s) ==> x in s
  {
    if s != [] {
      KeepFirstMembers(s[..|s| - 1]);
    }
  }

  /** The walk over s[..i + 1] is the walk over s[..i] plus one step. */
  lemma WalkStep(s: seq<Spot>, i: int)
    requires 0 <= i < |s|
    ensures Activators(s[..i + 1]) == Activators(s[..i]) + {s[i].activator}
    ensures KeepFirst(s[..i + 1]) ==
      if s[i].activator in Activators(s[..i]) then KeepFirst(s[..i]) else KeepFirst(s[..i]) + [s[i]]
  {
    assert s[..i + 1] == s[..i] + [s[i]];
    ActivatorsSnoc(s[..i], s[i]);
    KeepFirstSnoc(s[..i], s[i]);
  }

  /** What refresh stores for a fetched list of records. */
  function Deduplicate(raw: seq<Spot>): seq<Spot>
  {
    KeepFirst(SortById(raw))
  }

  lemma {:induction false} KeepFirstUnique(s: seq<Spot>)
    ensures UniqueActivators(KeepFirst(s))
  {
    if s != [] {
      var p := s[..|s| - 1];
      KeepFirstUnique(p);
      KeepFirstMembers(p);
      if s[|s| - 1].activator !in Activators(p) {
        forall x | x in KeepFirst(p)
          ensures x.activator != s[|s| - 1].activator
        {
          assert x in p;
        }
      }
    }
  }

  lemma {:induction false} KeepFirstActivators(s: seq<Spot>)
    ensures Activators(KeepFirst(s)) == Activators(s)
  {
    if s != [] {
      var p := s[..|s| - 1];
      assert s == p + [s[|s| - 1]];
      KeepFirstActivators(p);
      ActivatorsSnoc(p, s[|s| - 1]);
      if s[|s| - 1].activator !in Activators(p) {
        ActivatorsSnoc(KeepFirst(p), s[|s| - 1]);
      }
    }
  }

  /** A list without repeated activators holds one record per activator. */
  lemma {:induction false} UniqueCount(s: seq<Spot>)
    requires UniqueActivators(s)
    ensures |Activators(s)| == |s|
  {
    if s != [] {
      var p := s[..|s| - 1];
      assert s == p + [s[|s| - 1]];
      UniqueCount(p);
      ActivatorsSnoc(p, s[|s| - 1]);
    }
  }

  /** The output holds exactly one record per distinct activator of the input. */
  lemma KeepFirstCount(s: seq<Spot>)
    ensures |KeepFirst(s)| == |Activators(s)|
  {
    KeepFirstUnique(s);
    KeepFirstActivators(s);
    UniqueCount(KeepFirst(s));
  }

  /** A list without repeated activators is a fixed point of the walk. */
  lemma {:induction false} KeepFirstOfUnique(s: seq<Spot>)
    requires UniqueActivators(s)
    ensures KeepFirst(s) == s
  {
    if s != [] {
      var p := s[..|s| - 1];
      KeepFirstOfUnique(p);
      assert s == p + [s[|s| - 1]];
    }
  }

  lemma KeepFirstIdempotent(s: seq<Spot>)
    ensures KeepFirst(KeepFirst(s)) == KeepFirst(s)
  {
    KeepFirstUnique(s);
    KeepFirstOfUnique(KeepFirst(s));
  }

  lemma {:induction false} KeepFirstSorted(s: seq<Spot>)
    requires SortedById(s)
    ensures SortedById(KeepFirst(s))
  {
    if s != [] {
      var p := s[..|s| - 1];
      KeepFirstSorted(p);
      KeepFirstMembers(p);
    }
  }

  lemma {:induction false} KeepFirstEmbeds(s: seq<Spot>) returns (idx: seq<int>)
    ensures Embeds(KeepFirst(s), s, idx)
  {
    if s == [] {
      idx := [];
    } else {
      var p := s[..|s| - 1];
      var pidx := KeepFirstEmbeds(p);
      assert s == p + [s[|s| - 1]];
      var keep := s[|s| - 1].activator !in Activators(p);
      EmbedsSnoc(KeepFirst(p), p, s[|s| - 1], pidx, keep);
      idx := if keep then pidx + [|p|] else pidx;
    }
  }

  lemma KeepFirstIsSubsequence(s: seq<Spot>)
    ensures IsSubsequence(KeepFirst(s), s)
  {
    var idx := KeepFirstEmbeds(s);
  }

  // ---------------------------------------------------------------------
  // Which record survives for each activator
  // ---------------------------------------------------------------------

  /** The first record of s whose activator is a. */
  function FirstWith(s: seq<Spot>, a: string): (r: Option<Spot>)
    ensures r.None? <==> a !in Activators(s)
    ensures r.Some? ==> r.value in s && r.value.activator == a
  {
    if s == [] then None
    else if s[0].activator == a then Some(s[0])
    else
      assert s == [s[0]] + s[1..];
      FirstWith(s[1..], a)
  }

  lemma {:induction false} FirstWithSnoc(p: seq<Spot>, x: Spot, a: string)
    ensures FirstWith(p + [x], a) ==
      if FirstWith(p, a).Some? then FirstWith(p, a)
      else if x.activator == a then Some(x) else None
  {
    if p != [] {
      assert (p + [x])[1..] == p[1..] + [x];
      FirstWithSnoc(p[1..], x, a);
    }
  }

  /** Each kept record is the first record of its activator in the walked list. */
  lemma {:induction false} KeepFirstRetainsFirst(s: seq<Spot>, r: Spot)
    requires r in KeepFirst(s)
    ensures FirstWith(s, r.activator) == Some(r)
  {
    var p := s[..|s| - 1];
    var x := s[|s| - 1];
    assert s == p + [x];
    FirstWithSnoc(p, x, r.activator);
    if r in KeepFirst(p) {
      KeepFirstRetainsFirst(p, r);
    }
  }

  /**
   * Index of the record of activator a in s with the smallest spotId,
   * the earliest one among equals; None when a does not occur.
   */
  function FirstLowest(s: seq<Spot>, a: string): (r: Option<nat>)
    ensures r.None? <==> a !in Activators(s)
    ensures r.Some? ==> r.value < |s| && s[r.value].activator == a
    ensures r.Some? ==>
      forall j :: 0 <= j < |s| && s[j].activator == a ==> s[r.value].spotId <= s[j].spotId
    ensures r.Some? ==>
      forall j :: 0 <= j < r.value && s[j].activator == a ==> s[r.value].spotId < s[j].spotId
  {
    if s == [] then None
    else
      assert s == [s[0]] + s[1..];
      match FirstLowest(s[1..], a)
      case None => if s[0].activator == a then Some(0) else None
      case Some(j) =>
        if s[0].activator == a && s[0].spotId <= s[1 + j].spotId then Some(0) else Some(1 + j)
  }

  lemma {:induction false} InsertFirstWith(x: Spot, t: seq<Spot>, a: string)
    requires SortedById(t)
    ensures FirstWith(InsertById(x, t), a) ==
      if x.activator != a then FirstWith(t, a)
      else match FirstWith(t, a)
        case None => Some(x)
        case Some(w) => if x.spotId <= w.spotId then Some(x) else Some(w)
  {
    if t != [] && x.spotId > t[0].spotId {
      InsertFirstWith(x, t[1..], a);
    } else if t != [] && x.activator == a && FirstWith(t, a).Some? {
      assert FirstWith(t, a).value in t;
    }
  }

  /** After the stable sort, the first record of an activator is its FirstLowest record. */
  lemma {:induction false} SortFirstWith(s: seq<Spot>, a: string)
    ensures FirstWith(SortById(s), a) ==
      match FirstLowest(s, a)
      case None => None
      case Some(i) => Some(s[i])
  {
    if s != [] {
      var t := SortById(s[1..]);
      SortFirstWith(s[1..], a);
      InsertFirstWith(s[0], t, a);
      match FirstLowest(s[1..], a)
      case None =>
      case Some(j) => assert s[1..][j] == s[1 + j];
    }
  }

  /**
   * The record refresh keeps for an activator is, among that activator's
   * fetched records, the one with the smallest spotId (the earliest of them
   * in fetch order when several share it) -- not the most recent one.
   */
  lemma RetainedIsEarliestLowest(raw: seq<Spot>, r: Spot)
    requires r in Deduplicate(raw)
    ensures FirstLowest(raw, r.activator).Some?
    ensures r == raw[FirstLowest(raw, r.activator).value]
  {
    KeepFirstRetainsFirst(SortById(raw), r);
    SortFirstWith(raw, r.activator);
  }

  lemma DedupKeepsOldest(raw: seq<Spot>, r: Spot, x: Spot)
    requires r in Deduplicate(raw)
    requires x in raw && x.activator == r.activator
    ensures r.spotId <= x.spotId
  {
    RetainedIsEarliestLowest(raw, r);
    var j :| 0 <= j < |raw| && raw[j] == x;
  }

  lemma ActivatorsOfPermutation(s: seq<Spot>, t: seq<Spot>)
    requires multiset(s) == multiset(t)
    ensures Activators(s) == Activators(t)
  {
    forall y ensures y in s <==> y in t {
      assert y in s <==> y in multiset(s);
      assert y in t <==> y in multiset(t);
    }
  }

  /** Everything refresh promises about the stored list. */
  lemma DeduplicateProperties(raw: seq<Spot>)
    ensures UniqueActivators(Deduplicate(raw))
    ensures SortedById(Deduplicate(raw))
    ensures Activators(Deduplicate(raw)) == Activators(raw)
    ensures IsSubsequence(Deduplicate(raw), SortById(raw))
    ensures |Deduplicate(raw)| == |Activators(raw)| <= |raw|
  {
    var t := SortById(raw);
    KeepFirstUnique(t);
    KeepFirstSorted(t);
    KeepFirstActivators(t);
    KeepFirstIsSubsequence(t);
    KeepFirstCount(t);
    ActivatorsOfPermutation(t, raw);
    assert |t| == |multiset(t)| == |multiset(raw)| == |raw|;
  }

  /** Refreshing with the stored list itself changes nothing. */
  lemma DeduplicateIdempotent(raw: seq<Spot>)
    ensures Deduplicate(Deduplicate(raw)) == Deduplicate(raw)
  {
    DeduplicateProperties(raw);
    SortOfSorted(Deduplicate(raw));
    KeepFirstOfUnique(Deduplicate(raw));
  }

  /**
   * K1ABC is spotted as spotId 1 on 14300 kHz and again, later, as spotId 5
   * on 7200 kHz: refresh keeps the older spot on 14300 kHz and drops the
   * newer one.
   */
  lemma OlderSpotWins()
    ensures
      var raw := [Spot(1, "K1ABC", "K-0001", Some(14300.0), "SSB"),
                  Spot(5, "K1ABC", "K-0001", Some(7200.0), "SSB"),
                  Spot(3, "W2XYZ", "K-0002", Some(21300.0), "CW")];
      raw[0] in Deduplicate(raw) && raw[1] !in Deduplicate(raw)
  {
    var k1 := Spot(1, "K1ABC", "K-0001", Some(14300.0), "SSB");
    var k5 := Spot(5, "K1ABC", "K-0001", Some(7200.0), "SSB");
    var w3 := Spot(3, "W2XYZ", "K-0002", Some(21300.0), "CW");
    var raw := [k1, k5, w3];
    if k5 in Deduplicate(raw) {
      DedupKeepsOldest(raw, k5, k1);
    }
    DeduplicateProperties(raw);
    assert k1.activator in Activators(raw);
    var r :| r in Deduplicate(raw) && r.activator == k1.activator;
    RetainedIsEarliestLowest(raw, r);
    var i := FirstLowest(raw, r.activator).value;
    assert raw[i].spotId <= raw[0].spotId;
    assert i == 0;
  }
}
