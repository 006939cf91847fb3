/** The "Payment Type Breakdown" table (app.py:140-145): trips grouped by
    payment name and sorted by count, largest first. */
module PaymentBreakdown {
  import opened Trips
  import opened Tables
  import Metrics

  datatype PaymentCount = PaymentCount(name: string, count: nat)

  function CountOf(p: PaymentCount): int { p.count }

  /** The non-missing values of the `payment_name` column (a group-by drops
      missing keys). */
  function NamesOf(trips: seq<Trip>): (names: seq<string>)
    ensures |names| <= |trips|
    ensures (forall t :: t in trips ==> t.paymentName.Some?) ==> |names| == |trips|
    ensures forall n :: n in names <==> exists t :: t in trips && t.paymentName == Some(n)
    ensures (forall t :: t in trips ==> t.paymentName.Some?) ==>
      forall i :: 0 <= i < |trips| ==> names[i] == trips[i].paymentName.value
  {
    if trips == [] then []
    else
      var rest := NamesOf(trips[1..]);
      assert forall t :: t in trips <==> t == trips[0] || t in trips[1..];
      assert forall i :: 1 <= i < |trips| ==> trips[i] == trips[1..][i - 1];
      match trips[0].paymentName
      case Some(n) => [n] + rest
      case None => rest
  }

  /** One row per key with the size of its group. */
  function Tally(names: seq<string>, keys: seq<string>): (rows: seq<PaymentCount>)
    ensures |rows| == |keys|
    ensures forall i :: 0 <= i < |keys| ==> rows[i] == PaymentCount(keys[i], Count(names, keys[i]))
    ensures KeySum(rows, CountOf) == Total(CountsFor(names, keys))
  {
    if keys == [] then []
    else [PaymentCount(keys[0], Count(names, keys[0]))] + Tally(names, keys[1..])
  }

  /** app.py:140-145. */
  function PaymentCounts(filtered: seq<Trip>): (table: seq<PaymentCount>)
    ensures NonIncreasing(table, CountOf)
    ensures forall i, j :: 0 <= i < j < |table| ==> table[i].name != table[j].name
    ensures forall n :: n in NamesOf(filtered) <==> exists i :: 0 <= i < |table| && table[i].name == n
    ensures forall p :: p in table ==> p.count == Count(NamesOf(filtered), p.name) && p.count > 0
    ensures KeySum(table, CountOf) == |NamesOf(filtered)|
  {
    var names := NamesOf(filtered);
    var keys := Distinct(names);
    var groups := Tally(names, keys);
    CountsCoverAll(names, keys);
    TallyRowsDistinct(names, keys);
    SortDescendingSorted(groups, CountOf);
    SortedTally(names, keys, SortDescending(groups, CountOf));
    SortDescending(groups, CountOf)
  }

  /** Rows over distinct keys carry distinct names. */
  lemma TallyRowsDistinct(names: seq<string>, keys: seq<string>)
    requires NoDuplicates(keys)
    ensures NoDuplicates(Tally(names, keys))
  {
    var rows := Tally(names, keys);
    forall i, j | 0 <= i < j < |rows| ensures rows[i] != rows[j] {
      assert rows[i].name == keys[i] && rows[j].name == keys[j];
    }
  }

  /** A row of a reordering of the tally is a row of the tally, and back. */
  lemma SameRows(table: seq<PaymentCount>, groups: seq<PaymentCount>)
    requires multiset(table) == multiset(groups)
    ensures forall p :: p in table <==> p in groups
  {
    forall p ensures p in table <==> p in groups {
      assert p in table <==> p in multiset(table);
      assert p in groups <==> p in multiset(groups);
    }
  }

  /** Every row of a reordering of the tally is some key with its group size. */
  lemma SortedTallyRows(names: seq<string>, keys: seq<string>, table: seq<PaymentCount>)
    requires multiset(table) == multiset(Tally(names, keys))
    ensures forall p :: p in table ==> p == PaymentCount(p.name, Count(names, p.name)) && p.name in keys
  {
    var groups := Tally(names, keys);
    SameRows(table, groups);
    forall p | p in table ensures p == PaymentCount(p.name, Count(names, p.name)) && p.name in keys {
      var k :| 0 <= k < |groups| && groups[k] == p;
    }
  }

  /** Sorting the rows over distinct keys keeps them distinct, one row per
      key, each with its group size. */
  lemma SortedTally(names: seq<string>, keys: seq<string>, table: seq<PaymentCount>)
    requires NoDuplicates(keys)
    requires table == SortDescending(Tally(names, keys), CountOf)
    ensures forall i, j :: 0 <= i < j < |table| ==> table[i].name != table[j].name
    ensures forall n :: n in keys <==> exists i :: 0 <= i < |table| && table[i].name == n
    ensures forall p :: p in table ==> p.count == Count(names, p.name) && p.name in keys
  {
    SortedTallyRows(names, keys, table);
    SortedTallyDistinct(names, keys, table);
    SortedTallyCovers(names, keys, table);
  }

  lemma SortedTallyDistinct(names: seq<string>, keys: seq<string>, table: seq<PaymentCount>)
    requires NoDuplicates(keys)
    requires table == SortDescending(Tally(names, keys), CountOf)
    ensures forall i, j :: 0 <= i < j < |table| ==> table[i].name != table[j].name
  {
    var groups := Tally(names, keys);
    TallyRowsDistinct(names, keys);
    SortDescendingDistinct(groups, CountOf);
    SortedTallyRows(names, keys, table);
    forall i, j | 0 <= i < j < |table| ensures table[i].name != table[j].name {
      assert table[i] in table && table[j] in table;
      assert table[i] != table[j];
    }
  }

  lemma SortedTallyCovers(names: seq<string>, keys: seq<string>, table: seq<PaymentCount>)
    requires multiset(table) == multiset(Tally(names, keys))
    ensures forall n :: n in keys <==> exists i :: 0 <= i < |table| && table[i].name == n
  {
    var groups := Tally(names, keys);
    SameRows(table, groups);
    SortedTallyRows(names, keys, table);
    forall n ensures n in keys <==> exists i :: 0 <= i < |table| && table[i].name == n {
      if n in keys {
        var k :| 0 <= k < |keys| && keys[k] == n;
        assert groups[k] in table;
        var i :| 0 <= i < |table| && table[i] == groups[k];
      } else {
        assert forall i :: 0 <= i < |table| ==> table[i] in table;
      }
    }
  }

  // ---------------------------------------------------------------- lemmas

  /** The mask of one payment group: rows named `n`. */
  function HasName(n: string): Trip -> bool {
    (t: Trip) => t.paymentName == Some(n)
  }

  /** A name's group in the grouping column has one entry per trip of that name. */
  lemma {:induction false} CountNamesOf(trips: seq<Trip>, n: string)
    ensures Count(NamesOf(trips), n) == |Where(trips, HasName(n))|
  {
    if trips != [] {
      CountNamesOf(trips[1..], n);
      assert trips == [trips[0]] + trips[1..];
      WhereCons(trips[0], trips[1..], HasName(n));
      if trips[0].paymentName.Some? {
        CountCons(trips[0].paymentName.value, NamesOf(trips[1..]), n);
      }
    }
  }

  /** Each row of the breakdown counts exactly the selected trips of its name. */
  lemma PaymentCountsAreGroupSizes(filtered: seq<Trip>)
    ensures forall p :: p in PaymentCounts(filtered) ==> p.count == |Where(filtered, HasName(p.name))|
  {
    forall p | p in PaymentCounts(filtered) ensures p.count == |Where(filtered, HasName(p.name))| {
      CountNamesOf(filtered, p.name);
    }
  }

  /** Once every row is named, the counts add up to the "Total Trips" metric. */
  lemma PaymentCountsMatchTotalTrips(filtered: seq<Trip>)
    requires forall t :: t in filtered ==> t.paymentName.Some?
    ensures KeySum(PaymentCounts(filtered), CountOf) == Metrics.KeyMetrics(filtered).totalTrips
  {
  }
}
