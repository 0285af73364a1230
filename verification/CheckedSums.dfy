/** Checked sums over a map's entries, taken in whatever order ranging over the map gives them. */
module CheckedSums {
  import opened Outcomes
  import opened Decimal
  import opened Sums

  predicate Among<K(==)>(ks: seq<K>, m: map<K, Fixed>) {
    forall i :: 0 <= i < |ks| ==> ks[i] in m
  }

  predicate Once<K(==)>(ks: seq<K>) {
    forall i, j :: 0 <= i < j < |ks| ==> ks[i] != ks[j]
  }

  /** `ks` is the keys of `m`, in some order. */
  predicate Lists<K(==)>(ks: seq<K>, m: map<K, Fixed>) {
    Among(ks, m) && Once(ks) && forall k :: k in m ==> k in ks
  }

  function SumInOrder<K(==)>(m: map<K, Fixed>, ks: seq<K>): Checked<Fixed>
    requires Among(ks, m)
  {
    if ks == [] then Done(0)
    else
      var total :- SumInOrder(m, ks[..|ks| - 1]);
      Add(total, m[ks[|ks| - 1]])
  }

  /** Some order gives `r`. */
  ghost predicate CanSumTo<K(!new)>(m: map<K, Fixed>, r: Checked<Fixed>) {
    exists ks: seq<K> :: Lists(ks, m) && SumInOrder(m, ks) == r
  }

  lemma {:induction false} SumIgnoresOthers<K>(m: map<K, Fixed>, n: map<K, Fixed>, ks: seq<K>)
    requires Among(ks, m) && Among(ks, n) && forall i :: 0 <= i < |ks| ==> m[ks[i]] == n[ks[i]]
    ensures SumInOrder(m, ks) == SumInOrder(n, ks)
  {
    if ks != [] {
      SumIgnoresOthers(m, n, ks[..|ks| - 1]);
    }
  }

  lemma ListsRest<K>(ks: seq<K>, m: map<K, Fixed>)
    requires ks != [] && Lists(ks, m)
    ensures Lists(ks[..|ks| - 1], m - {ks[|ks| - 1]})
  {
    var init, last := ks[..|ks| - 1], ks[|ks| - 1];
    forall k | k in m && k != last
      ensures k in init
    {
      var i :| 0 <= i < |ks| && ks[i] == k;
      assert init[i] == k;
    }
  }

  lemma LastEntry<K>(m: map<K, Fixed>, ks: seq<K>)
    requires ks != [] && Lists(ks, m) && Nonneg(m)
    ensures var last := ks[|ks| - 1]; var rest := m - {last};
            && Lists(ks[..|ks| - 1], rest) && Nonneg(rest) && m[last] >= 0
            && MapSum(m) == m[last] + MapSum(rest)
            && SumInOrder(m, ks) == match SumInOrder(rest, ks[..|ks| - 1])
                                    case Panicked => Panicked
                                    case Done(total) => Add(total, m[last])
  {
    hide MapSum;
    var init, last := ks[..|ks| - 1], ks[|ks| - 1];
    ListsRest(ks, m);
    SumIgnoresOthers(m, m - {last}, init);
    SumTake(m, last);
  }

  lemma NoEntries<K>(m: map<K, Fixed>)
    requires Lists([], m)
    ensures MapSum(m) == 0 && SumInOrder(m, []) == Done(0)
  {
    assert m == map[];
  }

  /** Entries that are not negative sum to the same in every order: the true sum, if it fits. */
  lemma {:induction false} AnyOrder<K>(m: map<K, Fixed>, ks: seq<K>)
    requires Lists(ks, m) && Nonneg(m)
    ensures MapSum(m) >= 0 && SumInOrder(m, ks) == Fit(MapSum(m))
    decreases |ks|
  {
    hide MapSum, Lists, SumInOrder, Nonneg;
    if ks == [] {
      NoEntries(m);
    } else {
      LastEntry(m, ks);
      AnyOrder(m - {ks[|ks| - 1]}, ks[..|ks| - 1]);
    }
  }

  /** Once a sum has panicked, the rest of the order does not matter. */
  lemma {:induction false} PanicIsFinal<K(!new)>(m: map<K, Fixed>, ks: seq<K>, missing: set<K>)
    requires Among(ks, m) && Once(ks) && SumInOrder(m, ks).Panicked?
    requires forall k :: k in missing <==> k in m && k !in ks
    ensures CanSumTo(m, Panicked)
    decreases missing
  {
    if missing == {} {
      assert Lists(ks, m) && SumInOrder(m, ks) == Panicked;
    } else {
      var k :| k in missing;
      assert (ks + [k])[..|ks|] == ks;
      PanicIsFinal(m, ks + [k], missing - {k});
    }
  }

  /** One more key in the order so far. */
  lemma NextKey<K>(m: map<K, Fixed>, ks: seq<K>, k: K)
    requires Among(ks, m) && Once(ks) && k in m && k !in ks
    ensures Among(ks + [k], m) && Once(ks + [k])
    ensures SumInOrder(m, ks).Done? ==> SumInOrder(m, ks + [k]) == Add(SumInOrder(m, ks).value, m[k])
  {
    assert (ks + [k])[..|ks|] == ks;
  }

  /** Every map can be summed in some order. */
  ghost function SomeSum<K(!new)>(m: map<K, Fixed>): (r: Checked<Fixed>)
    ensures CanSumTo(m, r)
  {
    SomeOrderExists(m);
    var ks :| Lists(ks, m);
    SumInOrder(m, ks)
  }

  lemma {:induction false} SomeOrderExists<K(!new)>(m: map<K, Fixed>)
    ensures exists ks: seq<K> :: Lists(ks, m)
    decreases m.Keys
  {
    if m == map[] {
      var none: seq<K> := [];
      assert Lists(none, m);
    } else {
      var k :| k in m;
      SomeOrderExists(m - {k});
      var ks :| Lists(ks, m - {k});
      assert k in ks + [k];
      assert Lists(ks + [k], m);
    }
  }

  // Absolute values as Go forms them: nonnegative, or MIN_INT64 where there is none.

  predicate AbsValues<K>(m: map<K, Fixed>) {
    forall k :: k in m ==> m[k] >= 0 || m[k] == MIN_INT64
  }

  predicate OneMin<K(==)>(m: map<K, Fixed>, k: K) {
    k in m && m[k] == MIN_INT64 && forall j :: j in m && j != k ==> m[j] != MIN_INT64
  }

  predicate TwoMins<K(==)>(m: map<K, Fixed>, j: K, k: K) {
    j in m && k in m && j != k && m[j] == MIN_INT64 && m[k] == MIN_INT64
  }

  /**
    The order decides between a sum and a panic: the sum fits, and two entries are MIN_INT64, or
    one is and the sum is not negative, so that the others alone do not fit.
   */
  ghost predicate OrderMatters<K(!new)>(m: map<K, Fixed>) {
    && InRange(MapSum(m))
    && ((exists j, k :: TwoMins(m, j, k)) || (MapSum(m) >= 0 && exists k :: OneMin(m, k)))
  }

  lemma LastTaken<K>(m: map<K, Fixed>, ks: seq<K>)
    requires ks != [] && Lists(ks, m) && AbsValues(m)
    ensures var last := ks[|ks| - 1]; var rest := m - {last};
            && last in m && Lists(ks[..|ks| - 1], rest) && AbsValues(rest)
            && MapSum(m) == m[last] + MapSum(rest)
            && SumInOrder(m, ks) == match SumInOrder(rest, ks[..|ks| - 1])
                                    case Panicked => Panicked
                                    case Done(total) => Add(total, m[last])
  {
    hide MapSum;
    var init, last := ks[..|ks| - 1], ks[|ks| - 1];
    ListsRest(ks, m);
    SumIgnoresOthers(m, m - {last}, init);
    SumTake(m, last);
  }

  /** An order that does not panic gives the true sum. */
  lemma {:induction false} SumOrPanic<K>(m: map<K, Fixed>, ks: seq<K>)
    requires Lists(ks, m) && AbsValues(m)
    ensures SumInOrder(m, ks) == Done(MapSum(m)) || SumInOrder(m, ks).Panicked?
    decreases |ks|
  {
    hide MapSum, Lists, SumInOrder, AbsValues;
    if ks == [] {
      NoEntries(m);
    } else {
      LastTaken(m, ks);
      SumOrPanic(m - {ks[|ks| - 1]}, ks[..|ks| - 1]);
    }
  }

  /** With one MIN_INT64 and a negative sum, every order fits: the others do. */
  lemma {:induction false} OneMinAnyOrder<K>(m: map<K, Fixed>, ks: seq<K>, k: K)
    requires Lists(ks, m) && AbsValues(m) && OneMin(m, k) && MapSum(m) < 0
    ensures SumInOrder(m, ks) == Done(MapSum(m)) && MIN_INT64 <= MapSum(m)
    decreases |ks|
  {
    hide MapSum, SumInOrder;
    LastTaken(m, ks);
    var last, init := ks[|ks| - 1], ks[..|ks| - 1];
    var rest := m - {last};
    if last == k {
      AnyOrder(rest, init);
    } else {
      OneMinAnyOrder(rest, init, k);
    }
  }

  lemma NoMinIsNonneg<K>(m: map<K, Fixed>)
    requires AbsValues(m) && forall k :: k in m ==> m[k] != MIN_INT64
    ensures Nonneg(m)
  {
  }

  /** What is still to come once `ks` has been summed. */
  ghost function Rest<K>(m: map<K, Fixed>, ks: seq<K>): map<K, Fixed> {
    map k | k in m && k !in ks :: m[k]
  }

  lemma OneLess<K>(m: map<K, Fixed>, ks: seq<K>, k: K)
    requires Among(ks, m) && Once(ks) && k in m && k !in ks
    requires SumInOrder(m, ks).Done? && InRange(SumInOrder(m, ks).value + m[k])
    ensures Among(ks + [k], m) && Once(ks + [k]) && Rest(m, ks + [k]) == Rest(m, ks) - {k}
    ensures SumInOrder(m, ks + [k]) == Done(SumInOrder(m, ks).value + m[k])
    ensures MapSum(Rest(m, ks)) == m[k] + MapSum(Rest(m, ks + [k]))
  {
    hide MapSum;
    NextKey(m, ks, k);
    assert Rest(m, ks + [k]) == Rest(m, ks) - {k};
    SumTake(Rest(m, ks), k);
  }

  lemma {:induction false} MinsOnly<K>(m: map<K, Fixed>)
    requires m != map[] && forall k :: k in m ==> m[k] == MIN_INT64
    ensures MapSum(m) <= MIN_INT64
    decreases |m|
  {
    var k :| k in m;
    SumTake(m, k);
    if m - {k} != map[] {
      MinsOnly(m - {k});
    }
  }

  /** The next key that keeps the sum in range: a MIN_INT64 while the sum is not negative, else another. */
  lemma GoodKey<K>(rest: map<K, Fixed>, total: Fixed) returns (k: K)
    requires rest != map[] && AbsValues(rest) && InRange(total + MapSum(rest))
    ensures k in rest && InRange(total + rest[k])
  {
    hide MapSum;
    if total >= 0 && exists j :: j in rest && rest[j] == MIN_INT64 {
      k :| k in rest && rest[k] == MIN_INT64;
    } else if total < 0 && exists j :: j in rest && rest[j] >= 0 {
      k :| k in rest && rest[k] >= 0;
    } else {
      k :| k in rest;
      if total < 0 {
        MinsOnly(rest);
      } else {
        SumTake(rest, k);
        SumNonneg(rest - {k});
      }
    }
  }

  lemma {:induction false} SomeOrderFits<K(!new)>(m: map<K, Fixed>, ks: seq<K>)
    requires AbsValues(m) && InRange(MapSum(m)) && Among(ks, m) && Once(ks)
    requires SumInOrder(m, ks).Done? && SumInOrder(m, ks).value + MapSum(Rest(m, ks)) == MapSum(m)
    ensures CanSumTo(m, Done(MapSum(m)))
    decreases Rest(m, ks).Keys
  {
    hide SumInOrder, MapSum;
    var rest := Rest(m, ks);
    if rest == map[] {
      NothingLeft(m, ks);
    } else {
      var k := GoodKey(rest, SumInOrder(m, ks).value);
      OneLess(m, ks, k);
      SomeOrderFits(m, ks + [k]);
    }
  }

  lemma NothingLeft<K(!new)>(m: map<K, Fixed>, ks: seq<K>)
    requires Among(ks, m) && Once(ks) && Rest(m, ks) == map[]
    requires SumInOrder(m, ks).Done? && SumInOrder(m, ks).value + MapSum(Rest(m, ks)) == MapSum(m)
    ensures CanSumTo(m, Done(MapSum(m)))
  {
    forall k | k in m
      ensures k in ks
    {
      assert k !in Rest(m, ks);
    }
    assert Lists(ks, m);
  }

  /** Some order gives the true sum, if it fits; if it does not, every order panics. */
  lemma SomeOrderIsExact<K(!new)>(m: map<K, Fixed>)
    requires AbsValues(m)
    ensures CanSumTo(m, Fit(MapSum(m)))
  {
    hide MapSum;
    if InRange(MapSum(m)) {
      assert Rest(m, []) == m;
      SomeOrderFits(m, []);
    } else {
      SomeOrderExists(m);
      var ks :| Lists(ks, m);
      SumOrPanic(m, ks);
      assert SumInOrder(m, ks) == Panicked;
    }
  }

  /** Where the order matters, one panics: two MIN_INT64 first, or the others before the only one. */
  lemma SomeOrderPanics<K(!new)>(m: map<K, Fixed>)
    requires AbsValues(m) && OrderMatters(m)
    ensures CanSumTo(m, Panicked)
  {
    hide MapSum;
    if j, k :| TwoMins(m, j, k) {
      TwoMinsPanic(m, j, k);
    } else {
      var k :| OneMin(m, k);
      OthersPanic(m, k);
    }
  }

  lemma TwoMinsPanic<K(!new)>(m: map<K, Fixed>, j: K, k: K)
    requires TwoMins(m, j, k)
    ensures CanSumTo(m, Panicked)
  {
    assert SumInOrder(m, [j]) == Done(MIN_INT64) by {
      assert [j][..0] == [];
    }
    NextKey(m, [j], k);
    PanicIsFinal(m, [j] + [k], Rest(m, [j] + [k]).Keys);
  }

  lemma OthersPanic<K(!new)>(m: map<K, Fixed>, k: K)
    requires AbsValues(m) && OneMin(m, k) && MapSum(m) >= 0
    ensures CanSumTo(m, Panicked)
  {
    hide MapSum;
    var others := m - {k};
    NoMinIsNonneg(others);
    SumTake(m, k);
    SomeOrderExists(others);
    var ks :| Lists(ks, others);
    AnyOrder(others, ks);
    SumIgnoresOthers(m, others, ks);
    PanicIsFinal(m, ks, Rest(m, ks).Keys);
  }

  /** The outcomes of a sum: the true one, if it fits, and where the order matters a panic too. */
  lemma SumOutcomes<K(!new)>(m: map<K, Fixed>, r: Checked<Fixed>)
    requires AbsValues(m)
    ensures CanSumTo(m, r) <==> r == Fit(MapSum(m)) || (r.Panicked? && OrderMatters(m))
  {
    hide MapSum;
    SomeOrderIsExact(m);
    if OrderMatters(m) {
      SomeOrderPanics(m);
    }
    if CanSumTo(m, r) {
      var ks :| Lists(ks, m) && SumInOrder(m, ks) == r;
      SumOrPanic(m, ks);
      if !OrderMatters(m) {
        OrderDoesNotMatter(m, ks);
      }
    }
  }

  lemma OrderDoesNotMatter<K(!new)>(m: map<K, Fixed>, ks: seq<K>)
    requires AbsValues(m) && Lists(ks, m) && !OrderMatters(m)
    ensures SumInOrder(m, ks) == Fit(MapSum(m))
  {
    hide MapSum, SumInOrder;
    if !InRange(MapSum(m)) {
      SumOrPanic(m, ks);
    } else if k :| k in m && m[k] == MIN_INT64 {
      assert forall j :: j in m && j != k && m[j] == MIN_INT64 ==> TwoMins(m, j, k);
      assert OneMin(m, k);
      OneMinAnyOrder(m, ks, k);
    } else {
      NoMinIsNonneg(m);
      AnyOrder(m, ks);
    }
  }
}
