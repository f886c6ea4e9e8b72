/** `update_amount` as written: ioulist.py:43 sums the KEYS of `owed_by` and
    `owes`, which are user names. Python's `sum` starts from the integer 0,
    so it returns 0 for an empty map and raises a TypeError (int + str) for
    any other. The rest of the model uses the corrected
    `IouList.IouList.UpdateAmount`, which sums the values. */
module KeySumFinding {
  import opened IouLog
  import opened IouList

  /** What `sum(...)` of a collection of strings yields. */
  datatype KeySum = Total(value: real) | TypeError

  function SumOfKeys(keys: set<string>): (r: KeySum)
    ensures r.Total? <==> keys == {}
    ensures r.Total? ==> r.value == 0.0
  {
    if keys == {} then Total(0.0) else TypeError
  }

  /** The right-hand side of ioulist.py:43: `owed_by` is summed first, then
      `owes`; the first failure is the one raised. */
  function BalanceAsWritten(l: Log): (r: KeySum)
    ensures r.Total? <==> l.owedBy == map[] && l.owes == map[]
    ensures r.Total? ==> r.value == Sum(l.owedBy) - Sum(l.owes)
  {
    match SumOfKeys(l.owedBy.Keys)
    case TypeError => TypeError
    case Total(lent) =>
      match SumOfKeys(l.owes.Keys)
      case TypeError => TypeError
      case Total(owed) => Total(lent - owed)
  }

  /** Every `create_iou` that passes validation raises at line 70: by then
      the lender's `owed_by` holds the borrower, so summing its keys fails.
      The ledger is left with the lender's `owed_by` already changed and the
      borrower's side not recorded, which breaks the symmetry of the two
      sides whenever it held before. */
  lemma CreateIouAsWrittenRaises(m: Ledger, lender: string, borrower: string, amount: real)
    requires lender in m && borrower in m && amount > 0.0
    requires Symmetric(m)
    ensures var l := m[lender].(owedBy := AddTo(m[lender].owedBy, borrower, amount));
      && BalanceAsWritten(l) == TypeError
      && m[lender := l] != m
      && !Symmetric(m[lender := l])
  {
    var l := m[lender].(owedBy := AddTo(m[lender].owedBy, borrower, amount));
    var m1 := m[lender := l];
    assert borrower in l.owedBy;
    assert Mirrored(m, lender, borrower);
    if lender == borrower {
      assert !Mirrored(m1, lender, borrower);
    } else {
      assert m1[borrower] == m[borrower];
      assert !Mirrored(m1, lender, borrower);
    }
  }
}
