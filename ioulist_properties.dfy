/** Properties of recording IOUs in the ledger of ioulist.py. */
module IouListProperties {
  import opened IouLog
  import opened IouList

  /** Both sides of the debt gain exactly `amount`, starting from the old
      entry when there was one and from nothing otherwise. */
  lemma RecordIouAccumulates(m: Ledger, lender: string, borrower: string, amount: real)
    requires lender in m && borrower in m
    ensures var m' := RecordIou(m, lender, borrower, amount);
      && borrower in m'[lender].owedBy
      && m'[lender].owedBy[borrower]
           == (if borrower in m[lender].owedBy then m[lender].owedBy[borrower] + amount else amount)
      && lender in m'[borrower].owes
      && m'[borrower].owes[lender]
           == (if lender in m[borrower].owes then m[borrower].owes[lender] + amount else amount)
  {
    RecordIouFrame(m, lender, borrower, amount);
  }

  /** Two IOUs between the same pair add up. */
  lemma {:induction false} RepeatedIouAccumulates(m: Ledger, lender: string, borrower: string, x: real, y: real)
    requires lender in m && borrower in m && borrower !in m[lender].owedBy
    ensures var m'' := RecordIou(RecordIou(m, lender, borrower, x), lender, borrower, y);
      && lender in m'' && borrower in m''[lender].owedBy
      && m''[lender].owedBy[borrower] == x + y
  {
    var m' := RecordIou(m, lender, borrower, x);
    RecordIouAccumulates(m, lender, borrower, x);
    RecordIouFrame(m, lender, borrower, x);
    RecordIouAccumulates(m', lender, borrower, y);
  }

  /** Between two different users, the lender's balance rises by the amount
      and the borrower's falls by it. */
  lemma RecordIouMovesBalances(m: Ledger, lender: string, borrower: string, amount: real)
    requires lender in m && borrower in m && lender != borrower
    requires Consistent(m[lender]) && Consistent(m[borrower])
    ensures var m' := RecordIou(m, lender, borrower, amount);
      && m'[lender].balance == m[lender].balance + amount
      && m'[borrower].balance == m[borrower].balance - amount
  {
    RecordIouFrame(m, lender, borrower, amount);
    AddToSum(m[lender].owedBy, borrower, amount);
    AddToSum(m[borrower].owes, lender, amount);
  }

  /** An IOU of a user to themselves adds the amount to both of their maps
      and leaves their balance as it was. */
  lemma SelfIouKeepsBalance(m: Ledger, user: string, amount: real)
    requires user in m && Consistent(m[user])
    ensures var m' := RecordIou(m, user, user, amount);
      && m'[user].owedBy == AddTo(m[user].owedBy, user, amount)
      && m'[user].owes == AddTo(m[user].owes, user, amount)
      && m'[user].balance == m[user].balance
  {
    RecordIouFrame(m, user, user, amount);
    AddToSum(m[user].owedBy, user, amount);
    AddToSum(m[user].owes, user, amount);
  }

  /** The result of `create_iou`: two records, in ascending name order, one
      for the lender and one for the borrower, each describing that user's
      updated log; a self-IOU lists the same record twice. */
  lemma IouReportOrdered(m: Ledger, lender: string, borrower: string, amount: real)
    requires lender in m && borrower in m
    ensures var m' := RecordIou(m, lender, borrower, amount);
      var r := IouReport(m', lender, borrower);
      && |r| == 2
      && multiset{r[0].name, r[1].name} == multiset{lender, borrower}
      && LexLe(r[0].name, r[1].name)
      && (r[0].name != r[1].name ==> !LexLe(r[1].name, r[0].name))
      && (forall i | 0 <= i < 2 :: r[i] == Describe(r[i].name, m'[r[i].name]))
      && (lender == borrower ==> r[0] == r[1])
  {
    var m' := RecordIou(m, lender, borrower, amount);
    RecordIouFrame(m, lender, borrower, amount);
    var names := SortedPair(lender, borrower);
    assert multiset(names) == multiset{names[0], names[1]} by {
      assert names == [names[0]] + [names[1]];
    }
    if LexLe(names[1], names[0]) {
      LexLeAntisymmetric(names[0], names[1]);
    }
  }

  /** The ledger of the worked example, with alice and bob and no debts. */
  function AliceAndBob(): Ledger
  {
    map["alice" := DefaultLog(), "bob" := DefaultLog()]
  }

  /** The worked example, first step: alice lends bob 30. */
  lemma AliceLendsBob()
    ensures var m1 := RecordIou(AliceAndBob(), "alice", "bob", 30.0);
      && m1.Keys == {"alice", "bob"}
      && m1["alice"] == Log(map[], map["bob" := 30.0], 30.0)
      && m1["bob"] == Log(map["alice" := 30.0], map[], -30.0)
  {
    var m0 := AliceAndBob();
    RecordIouMovesBalances(m0, "alice", "bob", 30.0);
    RecordIouFrame(m0, "alice", "bob", 30.0);
  }

  /** The worked example, second step: bob lends alice 10. */
  lemma AliceBobScenario()
    ensures var m2 := RecordIou(RecordIou(AliceAndBob(), "alice", "bob", 30.0), "bob", "alice", 10.0);
      && m2["alice"] == Log(map["bob" := 10.0], map["bob" := 30.0], 20.0)
      && m2["bob"] == Log(map["alice" := 30.0], map["alice" := 10.0], -20.0)
  {
    var m1 := RecordIou(AliceAndBob(), "alice", "bob", 30.0);
    AliceLendsBob();
    RecordIouMovesBalances(m1, "bob", "alice", 10.0);
    RecordIouFrame(m1, "bob", "alice", 10.0);
  }
}
