/**
 * The as-of join of fact_sales.sql: which customer version a sale belongs to. Version ranges
 * are half open; before the first one the earliest version stands in.
 */
module TemporalJoin {
  import opened Prelude

  /** A row of dim_customer; `sk` numbers the surrogate keys in their sort order. */
  datatype CustomerVersion = CustomerVersion(sk: int, customerId: Key, validFrom: int, validTo: Option<int>)

  datatype Resolution = AsOf(sk: int) | EarliestAvailable(sk: int) | Unresolved

  /** One row of the join for a sale: the matching version and the stand-in, if any. */
  datatype Joined = Joined(matching: Option<CustomerVersion>, earliest: Option<CustomerVersion>)

  predicate Owns(v: CustomerVersion, c: Key, date: int) {
    v.customerId == c && v.validFrom <= date && (v.validTo.None? || date < v.validTo.value)
  }

  ghost function Matches(versions: set<CustomerVersion>, c: Key, date: int): set<CustomerVersion> {
    set v | v in versions && Owns(v, c, date)
  }

  /** ORDER BY valid_from, customer_sk */
  predicate Before(v: CustomerVersion, w: CustomerVersion) {
    v.validFrom < w.validFrom || (v.validFrom == w.validFrom && v.sk < w.sk)
  }

  /** row_number() = 1 over the customer's versions by valid_from, customer_sk. */
  predicate IsEarliest(versions: set<CustomerVersion>, v: CustomerVersion) {
    && v in versions
    && forall w :: w in versions && w.customerId == v.customerId && w != v ==> Before(v, w)
  }

  /** Surrogate keys are unique. */
  ghost predicate UniqueKeys(versions: set<CustomerVersion>) {
    forall v, w :: v in versions && w in versions && v.sk == w.sk ==> v == w
  }

  predicate IsStandIn(versions: set<CustomerVersion>, c: Key, date: int, v: CustomerVersion) {
    IsEarliest(versions, v) && v.customerId == c && date < v.validFrom
  }

  /** The rows the two left joins produce for one sale. */
  ghost function JoinedRows(versions: set<CustomerVersion>, c: Key, date: int): set<Joined> {
    var matches := Matches(versions, c, date);
    if matches != {} then set v | v in matches :: Joined(Some(v), None)
    else
      var standIns := set v | v in versions && IsStandIn(versions, c, date, v);
      if standIns != {} then set v | v in standIns :: Joined(None, Some(v)) else {Joined(None, None)}
  }

  function ResolutionOf(j: Joined): Resolution {
    if j.matching.Some? then AsOf(j.matching.value.sk)
    else if j.earliest.Some? then EarliestAvailable(j.earliest.value.sk)
    else Unresolved
  }

  /** Ranges of one customer do not overlap. */
  ghost predicate Disjoint(versions: set<CustomerVersion>) {
    forall v, w :: v in versions && w in versions && v.customerId == w.customerId && v != w ==>
      (v.validTo.Some? && v.validTo.value <= w.validFrom) || (w.validTo.Some? && w.validTo.value <= v.validFrom)
  }

  ghost predicate OneRow(rows: set<Joined>) {
    exists j :: rows == {j}
  }

  lemma {:induction false} EarliestExists(
      versions: set<CustomerVersion>, v: CustomerVersion) returns (e: CustomerVersion)
    requires UniqueKeys(versions) && v in versions
    ensures IsEarliest(versions, e) && e.customerId == v.customerId
    decreases |versions|
  {
    if w :| w in versions && w.customerId == v.customerId && w != v && Before(w, v) {
      e := EarliestExists(versions - {v}, w);
    } else {
      e := v;
    }
  }

  /** A sale keeps its grain exactly when at most one version owns its date. */
  lemma {:induction false} GrainKept(versions: set<CustomerVersion>, c: Key, date: int)
    requires UniqueKeys(versions)
    ensures OneRow(JoinedRows(versions, c, date)) <==>
      forall v, w :: v in versions && w in versions && v.customerId == w.customerId == c ==>
        v.validFrom <= date && (v.validTo.None? || date < v.validTo.value) ==>
        w.validFrom <= date && (w.validTo.None? || date < w.validTo.value) ==>
        v == w
  {
    var matches, rows := Matches(versions, c, date), JoinedRows(versions, c, date);
    if matches != {} {
      var v :| v in matches;
      assert Joined(Some(v), None) in rows;
      assert forall w :: w in versions && Owns(w, c, date) ==> w in matches;
      if w :| w in matches && w != v {
        assert Joined(Some(w), None) in rows;
      } else {
        assert rows == {Joined(Some(v), None)};
      }
    } else {
      assert forall v :: v in versions ==> !Owns(v, c, date) by {
        forall v | v in versions ensures !Owns(v, c, date) {
          assert v !in matches;
        }
      }
      var standIns := set v | v in versions && IsStandIn(versions, c, date, v);
      if standIns != {} {
        var v :| v in standIns;
        assert rows == {Joined(None, Some(v))};
      } else {
        assert rows == {Joined(None, None)};
      }
    }
  }

  /** So with disjoint ranges every sale yields exactly one row. */
  lemma {:induction false} DisjointKeepsGrain(versions: set<CustomerVersion>, c: Key, date: int)
    requires UniqueKeys(versions) && Disjoint(versions)
    ensures OneRow(JoinedRows(versions, c, date))
  {
    GrainKept(versions, c, date);
  }

  /** The stand-in is used exactly for a known customer's sale before all of its versions. */
  lemma {:induction false} StandInOnlyBeforeTheFirst(versions: set<CustomerVersion>, c: Key, date: int)
    requires UniqueKeys(versions)
    ensures (exists j :: j in JoinedRows(versions, c, date) && ResolutionOf(j).EarliestAvailable?) <==>
      && (exists v :: v in versions && v.customerId == c)
      && (forall v :: v in versions && v.customerId == c ==> date < v.validFrom)
  {
    var matches, rows := Matches(versions, c, date), JoinedRows(versions, c, date);
    if j :| j in rows && ResolutionOf(j).EarliestAvailable? {
      var e := j.earliest.value;
      assert IsStandIn(versions, c, date, e);
    }
    if v :| v in versions && v.customerId == c && forall w :: w in versions && w.customerId == c ==> date < w.validFrom {
      var e := EarliestExists(versions, v);
      assert IsStandIn(versions, c, date, e);
      var standIns := set w | w in versions && IsStandIn(versions, c, date, w);
      assert e in standIns;
      assert matches == {};
      assert Joined(None, Some(e)) in rows;
      assert ResolutionOf(Joined(None, Some(e))).EarliestAvailable?;
    }
  }

  /** A version of `c` starts at or before the date and has no end or ends after it. */
  ghost predicate OwnedOn(versions: set<CustomerVersion>, c: Key, date: int) {
    exists w :: w in versions && w.customerId == c && w.validFrom <= date && (w.validTo.None? || date < w.validTo.value)
  }

  /** From the first version of `c` onward some version owns every date. */
  ghost predicate NoGaps(versions: set<CustomerVersion>, c: Key) {
    && (exists v :: v in versions && v.customerId == c)
    && (forall v, date: int :: v in versions && v.customerId == c && v.validFrom <= date ==>
          OwnedOn(versions, c, date))
  }

  lemma {:induction false} MatchesByRange(versions: set<CustomerVersion>, c: Key, date: int)
    ensures Matches(versions, c, date) != {} <==> OwnedOn(versions, c, date)
  {
    if w :| w in versions && w.customerId == c && w.validFrom <= date && (w.validTo.None? || date < w.validTo.value) {
      assert w in Matches(versions, c, date);
    }
  }

  ghost predicate Resolves(versions: set<CustomerVersion>, c: Key, date: int) {
    forall j :: j in JoinedRows(versions, c, date) ==> ResolutionOf(j) != Unresolved
  }

  lemma {:induction false} ResolvesAt(versions: set<CustomerVersion>, c: Key, date: int)
    requires UniqueKeys(versions)
    ensures Resolves(versions, c, date) <==>
      || Matches(versions, c, date) != {}
      || exists v :: v in versions && IsStandIn(versions, c, date, v)
  {
    var rows := JoinedRows(versions, c, date);
    var standIns := set v | v in versions && IsStandIn(versions, c, date, v);
    if Matches(versions, c, date) == {} && standIns == {} {
      assert Joined(None, None) in rows;
      assert forall v :: v in versions ==> v !in standIns;
    } else if Matches(versions, c, date) == {} {
      var v :| v in standIns;
    }
  }

  /** No sale of a customer is ever unresolved, whatever its date, exactly when its versions have no gaps. */
  lemma {:induction false} UnresolvedOnlyInGaps(versions: set<CustomerVersion>, c: Key)
    requires UniqueKeys(versions)
    ensures (forall date: int :: Resolves(versions, c, date)) <==> NoGaps(versions, c)
  {
    hide Matches, JoinedRows, Resolves, OwnedOn;
    if NoGaps(versions, c) {
      forall date: int ensures Resolves(versions, c, date) {
        var v :| v in versions && v.customerId == c;
        var e := EarliestExists(versions, v);
        ResolvesAt(versions, c, date);
        MatchesByRange(versions, c, date);
        if date < e.validFrom {
          assert IsStandIn(versions, c, date, e);
        }
      }
    }
    if forall date: int :: Resolves(versions, c, date) {
      forall v, date: int | v in versions && v.customerId == c && v.validFrom <= date
        ensures OwnedOn(versions, c, date)
      {
        assert Resolves(versions, c, date);
        ResolvesAt(versions, c, date);
        MatchesByRange(versions, c, date);
      }
      assert Resolves(versions, c, 0);
      ResolvesAt(versions, c, 0);
      if Matches(versions, c, 0) != {} {
        MatchesAreVersions(versions, c, 0);
      }
    }
  }

  lemma {:induction false} MatchesAreVersions(versions: set<CustomerVersion>, c: Key, date: int)
    requires Matches(versions, c, date) != {}
    ensures exists v :: v in versions && v.customerId == c
  {
    var v :| v in Matches(versions, c, date);
  }

  /** The resolution stored with a sale. */
  ghost function Resolve(versions: set<CustomerVersion>, c: Key, date: int): (r: Resolution)
    requires UniqueKeys(versions) && Disjoint(versions)
    ensures JoinedRows(versions, c, date) != {}
    ensures forall j :: j in JoinedRows(versions, c, date) ==> ResolutionOf(j) == r
  {
    DisjointKeepsGrain(versions, c, date);
    var j :| JoinedRows(versions, c, date) == {j};
    ResolutionOf(j)
  }

  /** Every row of the join gives the one resolution. */
  lemma {:induction false} RowDecides(versions: set<CustomerVersion>, c: Key, date: int, j: Joined)
    requires UniqueKeys(versions) && Disjoint(versions)
    requires j in JoinedRows(versions, c, date)
    ensures Resolve(versions, c, date) == ResolutionOf(j)
  {
  }

  /** The resolution by the columns of the versions: whose range holds the date, or whose range is the first. */
  lemma {:induction false} ResolutionByRange(versions: set<CustomerVersion>, c: Key, date: int, sk: int)
    requires UniqueKeys(versions) && Disjoint(versions)
    ensures Resolve(versions, c, date) == AsOf(sk) <==>
      exists v :: v in versions && v.sk == sk && v.customerId == c
        && v.validFrom <= date && (v.validTo.None? || date < v.validTo.value)
    ensures Resolve(versions, c, date) == EarliestAvailable(sk) <==>
      exists v :: v in versions && v.sk == sk && v.customerId == c && date < v.validFrom
        && forall w :: w in versions && w.customerId == c && w != v ==>
             v.validFrom < w.validFrom || (v.validFrom == w.validFrom && v.sk < w.sk)
    ensures Resolve(versions, c, date) == Unresolved <==>
      && !OwnedOn(versions, c, date)
      && ((forall v :: v in versions ==> v.customerId != c)
          || exists v :: v in versions && v.customerId == c && v.validFrom <= date)
  {
    var rows := JoinedRows(versions, c, date);
    MatchesByRange(versions, c, date);
    if v :| v in versions && v.customerId == c && v.validFrom <= date && (v.validTo.None? || date < v.validTo.value) {
      assert v in Matches(versions, c, date);
      RowDecides(versions, c, date, Joined(Some(v), None));
    } else if v :| v in versions && v.customerId == c && forall w :: w in versions && w.customerId == c ==> date < w.validFrom {
      var e := EarliestExists(versions, v);
      assert IsStandIn(versions, c, date, e);
      StandInRow(versions, c, date, e);
      RowDecides(versions, c, date, Joined(None, Some(e)));
    } else {
      NoStandIn(versions, c, date);
      RowDecides(versions, c, date, Joined(None, None));
      if v :| v in versions && v.customerId == c {
        var e := EarliestExists(versions, v);
      }
    }
  }

  lemma {:induction false} StandInRow(versions: set<CustomerVersion>, c: Key, date: int, e: CustomerVersion)
    requires IsStandIn(versions, c, date, e) && !OwnedOn(versions, c, date)
    ensures Joined(None, Some(e)) in JoinedRows(versions, c, date)
  {
    MatchesByRange(versions, c, date);
    var standIns := set v | v in versions && IsStandIn(versions, c, date, v);
    assert e in standIns;
  }

  lemma {:induction false} NoStandIn(versions: set<CustomerVersion>, c: Key, date: int)
    requires !OwnedOn(versions, c, date)
    requires forall v :: v in versions && v.customerId == c ==>
      exists w :: w in versions && w.customerId == c && w.validFrom <= date
    ensures Joined(None, None) in JoinedRows(versions, c, date)
  {
    MatchesByRange(versions, c, date);
    assert forall v :: v in versions ==> !IsStandIn(versions, c, date, v);
  }
}
