/** The server actions of the time-entry dashboard: the fallback of the
    entry listing, the per-driver leaderboard and the guard of the delete
    action. Store calls are replaced by their replies, given as inputs. */
module Actions {
  import opened Store

  /** A `time_entries` row as the leaderboard query selects it. */
  datatype Entry = Entry(driverName: string, targetHours: real, actualHours: real)

  /** One leaderboard record, accumulated per driver name. */
  datatype DriverStat = DriverStat(driverName: string, totalTarget: real, totalActual: real, balance: real)

  /** A full `time_entries` row as the entry listing selects it; an hours
      value that does not read as a number is `None`. */
  datatype TimeEntry = TimeEntry(id: string, driverName: string, workDate: string,
                                 targetHours: Option<real>, actualHours: Option<real>)

  // ------------------------------------------------------------------
  // Listing
  // ------------------------------------------------------------------

  /** The entry listing: a store error degrades to the empty list. */
  function GetEntries(reply: Reply<seq<TimeEntry>>): (entries: seq<TimeEntry>)
    ensures reply.Failed? ==> entries == []
    ensures reply.Rows? ==> entries == reply.data
  {
    match reply
    case Failed(_) => []
    case Rows(data) => data
  }

  // ------------------------------------------------------------------
  // Specification of the leaderboard, as left folds over the rows
  // ------------------------------------------------------------------

  /** Sum of the target hours of `name`'s entries. */
  function SumTarget(data: seq<Entry>, name: string): real
  {
    if data == [] then 0.0
    else
      var e := data[|data| - 1];
      SumTarget(data[..|data| - 1], name) + (if e.driverName == name then e.targetHours else 0.0)
  }

  /** Sum of the actual hours of `name`'s entries. */
  function SumActual(data: seq<Entry>, name: string): real
  {
    if data == [] then 0.0
    else
      var e := data[|data| - 1];
      SumActual(data[..|data| - 1], name) + (if e.driverName == name then e.actualHours else 0.0)
  }

  /** Sum of `actual - target` over `name`'s entries, as the source
      accumulates the balance field on its own. */
  function SumBalance(data: seq<Entry>, name: string): real
  {
    if data == [] then 0.0
    else
      var e := data[|data| - 1];
      SumBalance(data[..|data| - 1], name) + (if e.driverName == name then e.actualHours - e.targetHours else 0.0)
  }

  /** Sum of `actual - target` over all entries. */
  function TotalDiff(data: seq<Entry>): real
  {
    if data == [] then 0.0
    else
      var e := data[|data| - 1];
      TotalDiff(data[..|data| - 1]) + (e.actualHours - e.targetHours)
  }

  /** The record the leaderboard should hold for `name`. */
  function StatOf(data: seq<Entry>, name: string): DriverStat
  {
    DriverStat(name, SumTarget(data, name), SumActual(data, name), SumBalance(data, name))
  }

  predicate Occurs(data: seq<Entry>, name: string)
  {
    exists j :: 0 <= j < |data| && data[j].driverName == name
  }

  /** Position of the first entry of `name`, or `|data|` when there is none. */
  function FirstIndex(data: seq<Entry>, name: string): (k: nat)
    ensures k <= |data|
    ensures k < |data| ==> data[k].driverName == name
    ensures forall j :: 0 <= j < k ==> data[j].driverName != name
  {
    if data == [] then 0
    else if data[0].driverName == name then 0
    else 1 + FirstIndex(data[1..], name)
  }

  /** The distinct driver names, in the order in which a JavaScript `Map`
      keyed by name first receives them. */
  function FirstAppearance(data: seq<Entry>): seq<string>
  {
    if data == [] then []
    else
      var names := FirstAppearance(data[..|data| - 1]);
      var name := data[|data| - 1].driverName;
      if name in names then names else names + [name]
  }

  predicate Distinct(names: seq<string>)
  {
    forall i, j :: 0 <= i < j < |names| ==> names[i] != names[j]
  }

  /** The records of `names`, in that order. */
  function StatsFor(data: seq<Entry>, names: seq<string>): (stats: seq<DriverStat>)
    ensures |stats| == |names|
    ensures forall k :: 0 <= k < |names| ==> stats[k] == StatOf(data, names[k])
  {
    seq(|names|, k requires 0 <= k < |names| => StatOf(data, names[k]))
  }

  /** The leaderboard: one record per driver in first-appearance order,
      then sorted by balance. */
  function Ranking(data: seq<Entry>): seq<DriverStat>
  {
    SortByBalance(StatsFor(data, FirstAppearance(data)))
  }

  // ------------------------------------------------------------------
  // The sort: `Array.prototype.sort` with comparator `b.balance - a.balance`,
  // which is stable, written as an insertion sort.
  // ------------------------------------------------------------------

  function InsertByBalance(x: DriverStat, s: seq<DriverStat>): (r: seq<DriverStat>)
    ensures |r| == |s| + 1
    ensures multiset(r) == multiset(s) + multiset{x}
  {
    if s == [] || x.balance >= s[0].balance then [x] + s
    else
      assert s == [s[0]] + s[1..];
      [s[0]] + InsertByBalance(x, s[1..])
  }

  function SortByBalance(s: seq<DriverStat>): (r: seq<DriverStat>)
    ensures |r| == |s|
    ensures multiset(r) == multiset(s)
  {
    if s == [] then []
    else
      assert s == [s[0]] + s[1..];
      InsertByBalance(s[0], SortByBalance(s[1..]))
  }

  predicate SortedByBalance(s: seq<DriverStat>)
  {
    forall i, j :: 0 <= i < j < |s| ==> s[i].balance >= s[j].balance
  }

  /** `a` may stand before `b` in the leaderboard of `data`: a larger balance,
      or the same balance and an earlier first entry. */
  predicate Precedes(a: DriverStat, b: DriverStat, data: seq<Entry>)
  {
    a.balance > b.balance
    || (a.balance == b.balance && FirstIndex(data, a.driverName) < FirstIndex(data, b.driverName))
  }

  predicate RankedBy(s: seq<DriverStat>, data: seq<Entry>)
  {
    forall i, j :: 0 <= i < j < |s| ==> Precedes(s[i], s[j], data)
  }

  /** Inserting a record whose driver appeared before every driver already
      placed keeps the (balance, first appearance) order. */
  lemma {:induction false} InsertKeepsRanking(x: DriverStat, s: seq<DriverStat>, data: seq<Entry>)
    requires RankedBy(s, data)
    requires forall y :: y in s ==> FirstIndex(data, x.driverName) < FirstIndex(data, y.driverName)
    ensures RankedBy(InsertByBalance(x, s), data)
  {
    if s == [] || x.balance >= s[0].balance {
      InsertAtFront(x, s, data);
    } else {
      var t := InsertByBalance(x, s[1..]);
      RankedTail(s, data);
      forall y | y in s[1..] ensures FirstIndex(data, x.driverName) < FirstIndex(data, y.driverName) {
        assert y in s;
      }
      InsertKeepsRanking(x, s[1..], data);
      HeadPrecedesInsert(x, s, data);
      RankedCons(s[0], t, data);
    }
  }

  lemma InsertAtFront(x: DriverStat, s: seq<DriverStat>, data: seq<Entry>)
    requires RankedBy(s, data)
    requires forall y :: y in s ==> FirstIndex(data, x.driverName) < FirstIndex(data, y.driverName)
    requires s == [] || x.balance >= s[0].balance
    ensures RankedBy([x] + s, data)
  {
    forall j | 0 <= j < |s| ensures Precedes(x, s[j], data) {
      if j > 0 { assert Precedes(s[0], s[j], data); }
      assert s[j] in s;
    }
    RankedCons(x, s, data);
  }

  lemma RankedTail(s: seq<DriverStat>, data: seq<Entry>)
    requires RankedBy(s, data) && s != []
    ensures RankedBy(s[1..], data)
  {
    forall i, j | 0 <= i < j < |s[1..]| ensures Precedes(s[1..][i], s[1..][j], data) {
      assert s[1..][i] == s[i + 1] && s[1..][j] == s[j + 1];
    }
  }

  lemma RankedCons(x: DriverStat, s: seq<DriverStat>, data: seq<Entry>)
    requires RankedBy(s, data)
    requires forall j :: 0 <= j < |s| ==> Precedes(x, s[j], data)
    ensures RankedBy([x] + s, data)
  {
    var r := [x] + s;
    forall i, j | 0 <= i < j < |r| ensures Precedes(r[i], r[j], data) {
      assert r[j] == s[j - 1];
      if i > 0 { assert r[i] == s[i - 1]; }
    }
  }

  lemma HeadPrecedesInsert(x: DriverStat, s: seq<DriverStat>, data: seq<Entry>)
    requires RankedBy(s, data) && s != [] && x.balance < s[0].balance
    ensures forall j :: 0 <= j < |InsertByBalance(x, s[1..])| ==> Precedes(s[0], InsertByBalance(x, s[1..])[j], data)
  {
    var t := InsertByBalance(x, s[1..]);
    forall j | 0 <= j < |t| ensures Precedes(s[0], t[j], data) {
      var y := t[j];
      assert y in multiset(t);
      if y != x {
        assert y in multiset(s[1..]);
        var k :| 0 <= k < |s[1..]| && s[1..][k] == y;
        assert s[k + 1] == y;
      }
    }
  }

  /** Sorting a list whose drivers are in first-appearance order yields
      the (balance, first appearance) order: the sort is stable. */
  lemma {:induction false} SortKeepsRanking(s: seq<DriverStat>, data: seq<Entry>)
    requires forall i, j :: 0 <= i < j < |s| ==> FirstIndex(data, s[i].driverName) < FirstIndex(data, s[j].driverName)
    ensures RankedBy(SortByBalance(s), data)
  {
    if s != [] {
      var rest := SortByBalance(s[1..]);
      SortKeepsRanking(s[1..], data);
      forall y | y in rest ensures FirstIndex(data, s[0].driverName) < FirstIndex(data, y.driverName) {
        assert y in multiset(rest);
        assert y in multiset(s[1..]);
        var k :| 0 <= k < |s[1..]| && s[1..][k] == y;
        assert s[k + 1] == y;
      }
      InsertKeepsRanking(s[0], rest, data);
    }
  }

  // ------------------------------------------------------------------
  // Properties of the specification
  // ------------------------------------------------------------------

  /** The balance accumulated on its own equals actual minus target. */
  lemma {:induction false} BalanceIsDifference(data: seq<Entry>, name: string)
    ensures SumBalance(data, name) == SumActual(data, name) - SumTarget(data, name)
  {
    if data != [] {
      BalanceIsDifference(data[..|data| - 1], name);
    }
  }

  /** A name with no entry has all sums zero. */
  lemma {:induction false} AbsentStatIsZero(data: seq<Entry>, name: string)
    requires !Occurs(data, name)
    ensures StatOf(data, name) == DriverStat(name, 0.0, 0.0, 0.0)
  {
    if data != [] {
      var init := data[..|data| - 1];
      assert !Occurs(init, name) by {
        forall j | 0 <= j < |init| ensures init[j].driverName != name {
          assert init[j] == data[j];
        }
      }
      AbsentStatIsZero(init, name);
      assert data[|data| - 1].driverName != name;
    }
  }

  /** The first index of a name found in a prefix is its first index in the whole. */
  lemma FirstIndexOfPrefix(data: seq<Entry>, m: nat, name: string)
    requires m <= |data|
    requires FirstIndex(data[..m], name) < m
    ensures FirstIndex(data, name) == FirstIndex(data[..m], name)
  {
    var k := FirstIndex(data[..m], name);
    assert data[k] == data[..m][k];
  }

  /** An entry appended to `init` adds exactly its own name to the names that occur. */
  lemma OccursStep(data: seq<Entry>)
    requires data != []
    ensures forall name :: Occurs(data, name) <==>
              Occurs(data[..|data| - 1], name) || data[|data| - 1].driverName == name
  {
    var init := data[..|data| - 1];
    forall name ensures Occurs(data, name) <==> Occurs(init, name) || data[|data| - 1].driverName == name {
      if Occurs(init, name) {
        var j :| 0 <= j < |init| && init[j].driverName == name;
        assert data[j] == init[j];
      }
      if Occurs(data, name) && data[|data| - 1].driverName != name {
        var j :| 0 <= j < |data| && data[j].driverName == name;
        assert j < |data| - 1 && init[j] == data[j];
      }
    }
  }

  /** The first-appearance order lists exactly the drivers of the input. */
  lemma {:induction false} FirstAppearanceMembers(data: seq<Entry>)
    ensures forall name :: name in FirstAppearance(data) <==> Occurs(data, name)
  {
    if data != [] {
      FirstAppearanceMembers(data[..|data| - 1]);
      OccursStep(data);
    }
  }

  /** The first-appearance order lists each driver once. */
  lemma {:induction false} FirstAppearanceDistinct(data: seq<Entry>)
    ensures Distinct(FirstAppearance(data))
  {
    if data != [] {
      FirstAppearanceDistinct(data[..|data| - 1]);
    }
  }

  /** The first-appearance order is the order of the drivers' first entries. */
  lemma {:induction false} FirstAppearanceOrdered(data: seq<Entry>)
    ensures forall i, j :: 0 <= i < j < |FirstAppearance(data)| ==>
              FirstIndex(data, FirstAppearance(data)[i]) < FirstIndex(data, FirstAppearance(data)[j])
  {
    if data != [] {
      var n := |data|;
      var init := data[..n - 1];
      var e := data[n - 1];
      var names := FirstAppearance(init);
      FirstAppearanceOrdered(init);
      FirstAppearanceMembers(init);
      forall name | name in names ensures FirstIndex(data, name) == FirstIndex(init, name) {
        var j :| 0 <= j < |init| && init[j].driverName == name;
        assert FirstIndex(init, name) <= j;
        FirstIndexOfPrefix(data, n - 1, name);
      }
      if e.driverName !in names {
        var k := FirstIndex(data, e.driverName);
        assert k == n - 1;
        var names' := FirstAppearance(data);
        assert names' == names + [e.driverName];
        forall i | 0 <= i < |names| ensures FirstIndex(data, names'[i]) < FirstIndex(data, names'[|names|]) {
          assert names'[i] == names[i];
          assert names[i] in names;
        }
      }
    }
  }

  /** What the leaderboard promises: exactly one record per driver of the
      input, its totals the sums over that driver's entries, its balance
      actual minus target, the list sorted by balance from highest to lowest,
      and drivers with equal balance in the order of their first entries. */
  lemma RankingCorrect(data: seq<Entry>)
    ensures forall i, j :: 0 <= i < j < |Ranking(data)| ==>
              Ranking(data)[i].driverName != Ranking(data)[j].driverName
    ensures forall name :: (exists k :: 0 <= k < |Ranking(data)| && Ranking(data)[k].driverName == name)
                             <==> Occurs(data, name)
    ensures forall k :: 0 <= k < |Ranking(data)| ==>
              var st := Ranking(data)[k];
              st.totalTarget == SumTarget(data, st.driverName)
              && st.totalActual == SumActual(data, st.driverName)
              && st.balance == st.totalActual - st.totalTarget
    ensures SortedByBalance(Ranking(data))
    ensures forall i, j :: 0 <= i < j < |Ranking(data)| && Ranking(data)[i].balance == Ranking(data)[j].balance ==>
              FirstIndex(data, Ranking(data)[i].driverName) < FirstIndex(data, Ranking(data)[j].driverName)
  {
    var names := FirstAppearance(data);
    var grouped := StatsFor(data, names);
    var r := Ranking(data);
    FirstAppearanceMembers(data);
    FirstAppearanceOrdered(data);
    SortKeepsRanking(grouped, data);
    // every record of the ranking is one of the grouped records
    forall k | 0 <= k < |r| ensures exists m :: 0 <= m < |names| && r[k] == StatOf(data, names[m]) {
      assert r[k] in multiset(grouped);
      var m :| 0 <= m < |grouped| && grouped[m] == r[k];
    }
    forall k | 0 <= k < |r|
      ensures r[k].totalTarget == SumTarget(data, r[k].driverName)
      ensures r[k].totalActual == SumActual(data, r[k].driverName)
      ensures r[k].balance == r[k].totalActual - r[k].totalTarget
    {
      var m :| 0 <= m < |names| && r[k] == StatOf(data, names[m]);
      BalanceIsDifference(data, names[m]);
    }
    forall name ensures (exists k :: 0 <= k < |r| && r[k].driverName == name) <==> Occurs(data, name) {
      if Occurs(data, name) {
        var m :| 0 <= m < |names| && names[m] == name;
        assert grouped[m] in multiset(r);
        var k :| 0 <= k < |r| && r[k] == grouped[m];
      }
      if k :| 0 <= k < |r| && r[k].driverName == name {
        var m :| 0 <= m < |names| && r[k] == StatOf(data, names[m]);
        assert names[m] in names;
      }
    }
  }

  // ------------------------------------------------------------------
  // Balance conservation
  // ------------------------------------------------------------------

  function SumBalances(stats: seq<DriverStat>): real
  {
    if stats == [] then 0.0 else stats[0].balance + SumBalances(stats[1..])
  }

  lemma {:induction false} SumBalancesAppend(a: seq<DriverStat>, b: seq<DriverStat>)
    ensures SumBalances(a + b) == SumBalances(a) + SumBalances(b)
  {
    if a != [] {
      assert (a + b)[0] == a[0] && (a + b)[1..] == a[1..] + b;
      SumBalancesAppend(a[1..], b);
    } else {
      assert a + b == b;
    }
  }

  lemma {:induction false} SortKeepsBalanceSum(s: seq<DriverStat>)
    ensures SumBalances(SortByBalance(s)) == SumBalances(s)
  {
    if s != [] {
      SortKeepsBalanceSum(s[1..]);
      InsertAddsBalance(s[0], SortByBalance(s[1..]));
    }
  }

  lemma {:induction false} InsertAddsBalance(x: DriverStat, s: seq<DriverStat>)
    ensures SumBalances(InsertByBalance(x, s)) == x.balance + SumBalances(s)
  {
    if s != [] && x.balance < s[0].balance {
      InsertAddsBalance(x, s[1..]);
      assert ([s[0]] + InsertByBalance(x, s[1..]))[1..] == InsertByBalance(x, s[1..]);
    } else {
      assert ([x] + s)[1..] == s;
    }
  }

  /** One more entry changes the summed balances of a list of distinct
      drivers by that entry's difference, if its driver is in the list. */
  lemma {:induction false} StatsForStep(data: seq<Entry>, names: seq<string>)
    requires data != []
    requires Distinct(names)
    ensures var e := data[|data| - 1];
            SumBalances(StatsFor(data, names))
            == SumBalances(StatsFor(data[..|data| - 1], names))
               + (if e.driverName in names then e.actualHours - e.targetHours else 0.0)
  {
    if names != [] {
      assert StatsFor(data, names)[1..] == StatsFor(data, names[1..]);
      assert StatsFor(data[..|data| - 1], names)[1..] == StatsFor(data[..|data| - 1], names[1..]);
      assert Distinct(names[1..]) by {
        forall i, j | 0 <= i < j < |names[1..]| ensures names[1..][i] != names[1..][j] {
          assert names[1..][i] == names[i + 1] && names[1..][j] == names[j + 1];
        }
      }
      StatsForStep(data, names[1..]);
      var e := data[|data| - 1];
      if e.driverName == names[0] {
        forall k | 0 <= k < |names[1..]| ensures names[1..][k] != e.driverName {
          assert names[1..][k] == names[k + 1];
        }
      } else {
        assert e.driverName in names <==> e.driverName in names[1..] by {
          assert names == [names[0]] + names[1..];
        }
      }
    }
  }

  /** The balances of the leaderboard add up to the sum of `actual - target`
      over all entries: no entry is lost or counted twice. */
  lemma {:induction false} GroupedBalanceTotal(data: seq<Entry>)
    ensures SumBalances(StatsFor(data, FirstAppearance(data))) == TotalDiff(data)
  {
    if data != [] {
      var init := data[..|data| - 1];
      var e := data[|data| - 1];
      var names := FirstAppearance(init);
      GroupedBalanceTotal(init);
      FirstAppearanceDistinct(init);
      FirstAppearanceMembers(init);
      StatsForStep(data, names);
      if e.driverName !in names {
        var name := e.driverName;
        assert StatsFor(data, names + [name]) == StatsFor(data, names) + [StatOf(data, name)];
        SumBalancesAppend(StatsFor(data, names), [StatOf(data, name)]);
        assert SumBalances([StatOf(data, name)]) == StatOf(data, name).balance;
        AbsentStatIsZero(init, name);
      }
    }
  }

  lemma RankingBalanceTotal(data: seq<Entry>)
    ensures SumBalances(Ranking(data)) == TotalDiff(data)
  {
    SortKeepsBalanceSum(StatsFor(data, FirstAppearance(data)));
    GroupedBalanceTotal(data);
  }

  /** Taking one entry out of the rows takes its difference out of the
      total. */
  lemma {:induction false} TotalDiffRemove(data: seq<Entry>, k: nat)
    requires k < |data|
    ensures TotalDiff(data) == TotalDiff(data[..k] + data[k + 1..]) + (data[k].actualHours - data[k].targetHours)
    decreases |data|
  {
    var last := |data| - 1;
    if k == last {
      assert data[..k] + data[k + 1..] == data[..last];
    } else {
      var init := data[..last];
      TotalDiffRemove(init, k);
      var rest := data[..k] + data[k + 1..];
      assert rest[..|rest| - 1] == init[..k] + init[k + 1..];
      assert rest[|rest| - 1] == data[last];
    }
  }

  lemma RemoveOne(a: seq<Entry>, k: nat, init: seq<Entry>)
    requires k < |a| && multiset(a) == multiset(init + [a[k]])
    ensures multiset(a[..k] + a[k + 1..]) == multiset(init)
  {
    var rest, e := multiset(a[..k] + a[k + 1..]), a[k];
    assert a == a[..k] + [e] + a[k + 1..];
    assert multiset(a) == rest + multiset{e};
    assert multiset(init + [e]) == multiset(init) + multiset{e};
    forall x
      ensures rest[x] == multiset(init)[x]
    {
      assert (rest + multiset{e})[x] == (multiset(init) + multiset{e})[x];
    }
  }

  /** The total difference does not depend on the order the store returns
      the rows in. */
  lemma {:induction false} TotalDiffPermutation(a: seq<Entry>, b: seq<Entry>)
    requires multiset(a) == multiset(b)
    ensures TotalDiff(a) == TotalDiff(b)
    decreases |b|
  {
    if b == [] {
      assert |a| == |multiset(a)| == 0;
    } else {
      var init, e := b[..|b| - 1], b[|b| - 1];
      assert b == init + [e];
      assert e in multiset(a);
      var k :| 0 <= k < |a| && a[k] == e;
      var rest := a[..k] + a[k + 1..];
      RemoveOne(a, k, init);
      TotalDiffRemove(a, k);
      TotalDiffPermutation(rest, init);
    }
  }

  // ------------------------------------------------------------------
  // The action
  // ------------------------------------------------------------------

  /** `getDriverStats`: fold the rows into a map keyed by driver name,
      remembering the map's insertion order, then sort the records by
      balance. A store error yields the empty list. */
  method GetDriverStats(reply: Reply<seq<Entry>>) returns (stats: seq<DriverStat>)
    ensures reply.Failed? ==> stats == []
    ensures reply.Rows? ==> stats == Ranking(reply.data)
    ensures reply.Rows? && reply.data == [] ==> stats == []
    ensures SortedByBalance(stats)
    ensures forall k :: 0 <= k < |stats| ==> stats[k].balance == stats[k].totalActual - stats[k].totalTarget
  {
    if reply.Failed? {
      return [];
    }
    var data := reply.data;
    var statsMap: map<string, DriverStat> := map[];
    var order: seq<string> := [];  // insertion order of the map's keys
    var i := 0;
    while i < |data|
      invariant 0 <= i <= |data|
      invariant order == FirstAppearance(data[..i])
      invariant forall name :: name in statsMap <==> name in order
      invariant forall name :: name in statsMap ==> statsMap[name] == StatOf(data[..i], name)
      invariant forall name :: name !in statsMap ==> StatOf(data[..i], name) == DriverStat(name, 0.0, 0.0, 0.0)
      invariant forall name :: name in statsMap ==>
                  statsMap[name].balance == statsMap[name].totalActual - statsMap[name].totalTarget
    {
      var entry := data[i];
      assert data[..i + 1][..i] == data[..i] && data[..i + 1][i] == entry;
      var current := if entry.driverName in statsMap then statsMap[entry.driverName]
                     else DriverStat(entry.driverName, 0.0, 0.0, 0.0);
      if entry.driverName !in statsMap {
        order := order + [entry.driverName];
      }
      var target := entry.targetHours;
      var actual := entry.actualHours;
      current := current.(totalTarget := current.totalTarget + target,
                          totalActual := current.totalActual + actual,
                          balance := current.balance + (actual - target));
      statsMap := statsMap[entry.driverName := current];
      i := i + 1;
    }
    assert data[..i] == data;
    var values := seq(|order|, k requires 0 <= k < |order| => statsMap[order[k]]);
    assert values == StatsFor(data, order);
    stats := SortByBalance(values);
    RankingCorrect(data);
  }

  // ------------------------------------------------------------------
  // Delete
  // ------------------------------------------------------------------

  datatype ActionError = IdRequired | DeleteFailed

  /** How a `deleteEntry` call ends: the page is revalidated, or it throws. */
  datatype Ending = Revalidated | Thrown(error: ActionError)

  /** The effect of one `deleteEntry` call: the delete request it sent to
      the store (by id), if any, and how it ended. */
  datatype DeleteRun = DeleteRun(issued: Option<string>, ending: Ending)

  /** `deleteEntry`: a missing or empty id throws before anything is sent;
      otherwise the delete is issued and a store error throws. */
  function DeleteEntry(id: Option<string>, storeFails: bool): (run: DeleteRun)
    ensures (id.None? || id.value == "") <==> run.ending == Thrown(IdRequired)
    ensures run.ending == Thrown(IdRequired) ==> run.issued == None
    ensures run.issued.Some? ==> id.Some? && run.issued.value == id.value != ""
    ensures run.ending == Revalidated <==> run.issued.Some? && !storeFails
    ensures id.Some? && id.value != "" ==> run.issued == Some(id.value)
    ensures run.ending == Thrown(DeleteFailed) <==> run.issued.Some? && storeFails
  {
    if id.None? || id.value == "" then DeleteRun(None, Thrown(IdRequired))
    else if storeFails then DeleteRun(Some(id.value), Thrown(DeleteFailed))
    else DeleteRun(Some(id.value), Revalidated)
  }
}
