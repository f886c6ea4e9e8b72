/** Model of ioulog.py: the record the ledger keeps for one user.

    Amounts are exact reals; the floating-point behaviour of the source's
    `float` fields is not modelled. */
module IouLog {

  /** One user's debts: `owes` maps each creditor to what this user owes
      them, `owedBy` maps each debtor to what they owe this user, and
      `balance` is the user's net position. */
  datatype Log = Log(owes: map<string, real>, owedBy: map<string, real>, balance: real)

  /** The log a new user starts with: the field defaults of the record. */
  function DefaultLog(): (l: Log)
    ensures l.owes == map[] && l.owedBy == map[]
    ensures l.balance == 0.0
    ensures Consistent(l)
  {
    Log(map[], map[], 0.0)
  }

  /** The sum of the values of a map, in no particular order. */
  ghost function Sum(m: map<string, real>): (r: real)
    decreases |m|
  {
    if m == map[] then 0.0
    else
      var k :| k in m;
      m[k] + Sum(m - {k})
  }

  /** Whichever key is taken out first, the sum is the same. */
  lemma {:induction false} SumRemove(m: map<string, real>, k: string)
    requires k in m
    ensures Sum(m) == m[k] + Sum(m - {k})
    decreases |m|
  {
    var j :| j in m && Sum(m) == m[j] + Sum(m - {j});
    if j != k {
      SumRemove(m - {j}, k);
      SumRemove(m - {k}, j);
      assert m - {j} - {k} == m - {k} - {j};
    }
  }

  /** A log whose balance agrees with its two maps:
      what others owe this user minus what this user owes others. */
  ghost predicate Consistent(l: Log)
  {
    l.balance == Sum(l.owedBy) - Sum(l.owes)
  }
}
