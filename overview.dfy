/** The dashboard page: header totals over all entries, the difference and
    status of each history row, and how signs are displayed. */
module Overview {
  import opened Store
  import opened Actions

  /** `Number(v) || 0`: a value that is not a number counts as 0. */
  function NumberOrZero(v: Option<real>): real
  {
    if v.Some? then v.value else 0.0
  }

  /** `totalTarget`, a left fold over the listed entries. */
  function TotalTarget(entries: seq<TimeEntry>): real
  {
    if entries == [] then 0.0
    else TotalTarget(entries[..|entries| - 1]) + NumberOrZero(entries[|entries| - 1].targetHours)
  }

  /** `totalActual`, a left fold over the listed entries. */
  function TotalActual(entries: seq<TimeEntry>): real
  {
    if entries == [] then 0.0
    else TotalActual(entries[..|entries| - 1]) + NumberOrZero(entries[|entries| - 1].actualHours)
  }

  function TotalBalance(entries: seq<TimeEntry>): real
  {
    TotalActual(entries) - TotalTarget(entries)
  }

  /** The sum of the per-entry differences, non-numbers counted as 0. */
  function DifferenceSum(entries: seq<TimeEntry>): real
  {
    if entries == [] then 0.0
    else
      var e := entries[|entries| - 1];
      DifferenceSum(entries[..|entries| - 1]) + (NumberOrZero(e.actualHours) - NumberOrZero(e.targetHours))
  }

  /** The header balance is the sum of every entry's own difference. */
  lemma {:induction false} TotalBalanceIsDifferenceSum(entries: seq<TimeEntry>)
    ensures TotalBalance(entries) == DifferenceSum(entries)
  {
    if entries != [] {
      TotalBalanceIsDifferenceSum(entries[..|entries| - 1]);
    }
  }

  /** With non-negative hours, as the entry form asks for, both header
      totals are non-negative. */
  lemma {:induction false} TotalsNonNegative(entries: seq<TimeEntry>)
    requires forall k :: 0 <= k < |entries| ==> NumberOrZero(entries[k].targetHours) >= 0.0
    requires forall k :: 0 <= k < |entries| ==> NumberOrZero(entries[k].actualHours) >= 0.0
    ensures TotalTarget(entries) >= 0.0 && TotalActual(entries) >= 0.0
  {
    if entries != [] {
      var init := entries[..|entries| - 1];
      assert forall k :: 0 <= k < |init| ==> init[k] == entries[k];
      TotalsNonNegative(init);
    }
  }

  predicate AllNumeric(entries: seq<TimeEntry>)
  {
    forall k :: 0 <= k < |entries| ==> entries[k].targetHours.Some? && entries[k].actualHours.Some?
  }

  /** The same rows as the leaderboard query selects them. */
  function ToEntries(entries: seq<TimeEntry>): (data: seq<Entry>)
    requires AllNumeric(entries)
    ensures |data| == |entries|
    ensures forall k :: 0 <= k < |entries| ==>
              data[k] == Entry(entries[k].driverName, entries[k].targetHours.value, entries[k].actualHours.value)
  {
    seq(|entries|, k requires 0 <= k < |entries| =>
      Entry(entries[k].driverName, entries[k].targetHours.value, entries[k].actualHours.value))
  }

  lemma {:induction false} TotalBalanceIsTotalDiff(entries: seq<TimeEntry>)
    requires AllNumeric(entries)
    ensures TotalBalance(entries) == TotalDiff(ToEntries(entries))
  {
    if entries != [] {
      var init := entries[..|entries| - 1];
      assert ToEntries(entries)[..|entries| - 1] == ToEntries(init);
      TotalBalanceIsTotalDiff(init);
    }
  }

  /** For all-numeric rows the header balance equals the sum of the
      leaderboard's per-driver balances, whatever order the leaderboard's
      own query returned the same rows in. */
  lemma TotalBalanceMatchesLeaderboard(entries: seq<TimeEntry>, data: seq<Entry>)
    requires AllNumeric(entries)
    requires multiset(data) == multiset(ToEntries(entries))
    ensures TotalBalance(entries) == SumBalances(Ranking(data))
  {
    TotalBalanceIsTotalDiff(entries);
    TotalDiffPermutation(data, ToEntries(entries));
    RankingBalanceTotal(data);
  }

  // ------------------------------------------------------------------
  // History rows
  // ------------------------------------------------------------------

  /** The three flags of a history row; a difference that is not a number
      (`NaN`) sets none of them. */
  datatype RowStatus = RowStatus(isPositive: bool, isNegative: bool, isExact: bool)

  /** `Number(actual) - Number(target)`; `None` stands for `NaN`. */
  function RowDiff(e: TimeEntry): Option<real>
  {
    if e.targetHours.Some? && e.actualHours.Some? then Some(e.actualHours.value - e.targetHours.value)
    else None
  }

  function RowStatusOf(e: TimeEntry): (st: RowStatus)
    ensures st.isPositive <==> e.targetHours.Some? && e.actualHours.Some? && e.actualHours.value > e.targetHours.value
    ensures st.isNegative <==> e.targetHours.Some? && e.actualHours.Some? && e.actualHours.value < e.targetHours.value
    ensures st.isExact <==> e.targetHours.Some? && e.actualHours.Some? && e.actualHours.value == e.targetHours.value
    ensures !(st.isPositive && st.isNegative) && !(st.isPositive && st.isExact) && !(st.isNegative && st.isExact)
    ensures (st.isPositive || st.isNegative || st.isExact) <==> e.targetHours.Some? && e.actualHours.Some?
  {
    var diff := RowDiff(e);
    RowStatus(diff.Some? && diff.value > 0.0, diff.Some? && diff.value < 0.0, diff.Some? && diff.value == 0.0)
  }

  /** The status badge text of a row. */
  function StatusLabel(st: RowStatus): string
  {
    (if st.isPositive then "Overperform" else "")
    + (if st.isNegative then "Underperform" else "")
    + (if st.isExact then "Exact" else "")
  }

  lemma StatusLabelOfRow(e: TimeEntry)
    ensures var text := StatusLabel(RowStatusOf(e));
            && (text == "Overperform" <==> RowDiff(e).Some? && RowDiff(e).value > 0.0)
            && (text == "Underperform" <==> RowDiff(e).Some? && RowDiff(e).value < 0.0)
            && (text == "Exact" <==> RowDiff(e).Some? && RowDiff(e).value == 0.0)
            && (text == "" <==> RowDiff(e).None?)
  {
  }

  // ------------------------------------------------------------------
  // Sign display
  // ------------------------------------------------------------------

  datatype Tone = Emerald | Rose | Zinc | Unstyled

  /** The header balance card: a '+' only for a strictly positive balance,
      emerald for a balance of at least zero, rose otherwise. */
  datatype BalanceStyle = BalanceStyle(plus: bool, tone: Tone)

  function HeaderStyle(balance: real): (style: BalanceStyle)
    ensures style.plus ==> style.tone == Emerald
    ensures style.tone == Emerald || style.tone == Rose
    ensures style.tone == Emerald && !style.plus <==> balance == 0.0
    ensures style.tone == Rose <==> balance < 0.0
  {
    BalanceStyle(balance > 0.0, if balance >= 0.0 then Emerald else Rose)
  }

  /** The difference cell of a history row: '+' only when positive; an exact
      row is zinc, not emerald, unlike a zero header balance. */
  function RowStyle(e: TimeEntry): (style: BalanceStyle)
    ensures style.plus <==> RowDiff(e).Some? && RowDiff(e).value > 0.0
    ensures style.tone == Emerald <==> style.plus
    ensures style.tone == Rose <==> RowDiff(e).Some? && RowDiff(e).value < 0.0
    ensures RowDiff(e) == Some(0.0) ==> style == BalanceStyle(false, Zinc)
    ensures RowDiff(e).None? ==> style == BalanceStyle(false, Unstyled)
  {
    var st := RowStatusOf(e);
    BalanceStyle(st.isPositive,
                 if st.isPositive then Emerald
                 else if st.isNegative then Rose
                 else if st.isExact then Zinc
                 else Unstyled)
  }
}
