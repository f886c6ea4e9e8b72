/** Model of ioulist.py: the ledger that maps each user name to that
    user's log and records IOUs between users. */
module IouList {
  import opened IouLog

  /** The errors the ledger signals. The source raises `ValueError` for the
      first two; `DuplicateUser` belongs to `AddUser`, which is an addition. */
  datatype Error = UnknownUser(name: string) | InvalidAmount | DuplicateUser(name: string)

  datatype Result<T> = Success(value: T) | Failure(error: Error)

  /** What `get_user` reports: the name followed by the fields of the log. */
  datatype UserInfo = UserInfo(name: string, owes: map<string, real>, owedBy: map<string, real>, balance: real)

  type Ledger = map<string, Log>

  /** `get_user`'s dict: the name, then the three fields of the log. */
  function Describe(name: string, l: Log): (r: UserInfo)
    ensures r.name == name && Log(r.owes, r.owedBy, r.balance) == l
  {
    UserInfo(name, l.owes, l.owedBy, l.balance)
  }

  /** The descriptions of `names`, in the order given. */
  function Report(m: Ledger, names: seq<string>): seq<UserInfo>
    requires forall i | 0 <= i < |names| :: names[i] in m
  {
    seq(|names|, i requires 0 <= i < |names| => Describe(names[i], m[names[i]]))
  }

  // ---------------------------------------------------------------------
  // Python's ordering of strings, used by `sorted`: lexicographic by code
  // point, a proper prefix coming first.

  predicate LexLe(a: string, b: string)
    decreases |a|
  {
    a == [] || (b != [] && (a[0] < b[0] || (a[0] == b[0] && LexLe(a[1..], b[1..]))))
  }

  lemma {:induction false} LexLeTotal(a: string, b: string)
    ensures LexLe(a, b) || LexLe(b, a)
    decreases |a|
  {
    if a != [] && b != [] && a[0] == b[0] {
      LexLeTotal(a[1..], b[1..]);
    }
  }

  lemma {:induction false} LexLeAntisymmetric(a: string, b: string)
    requires LexLe(a, b) && LexLe(b, a)
    ensures a == b
    decreases |a|
  {
    if a != [] && b != [] {
      LexLeAntisymmetric(a[1..], b[1..]);
      assert a == [a[0]] + a[1..] && b == [b[0]] + b[1..];
    }
  }

  /** `sorted([a, b])`: the two names in ascending order. */
  function SortedPair(a: string, b: string): (r: seq<string>)
    ensures |r| == 2 && multiset(r) == multiset{a, b}
    ensures LexLe(r[0], r[1])
  {
    LexLeTotal(a, b);
    if LexLe(a, b) then [a, b] else [b, a]
  }

  // ---------------------------------------------------------------------
  // The invariants of the ledger.

  /** Every name that appears in a log is a user of the ledger. */
  ghost predicate Closed(m: Ledger)
  {
    forall u | u in m :: m[u].owes.Keys <= m.Keys && m[u].owedBy.Keys <= m.Keys
  }

  /** The two sides of the debt of `b` to `a` agree: `a.owedBy[b] == b.owes[a]`,
      and one entry exists exactly when the other does. */
  ghost predicate Mirrored(m: Ledger, a: string, b: string)
    requires a in m && b in m
  {
    && (b in m[a].owedBy <==> a in m[b].owes)
    && (b in m[a].owedBy ==> m[a].owedBy[b] == m[b].owes[a])
  }

  ghost predicate Symmetric(m: Ledger)
  {
    forall a, b | a in m && b in m :: Mirrored(m, a, b)
  }

  /** Every user's balance agrees with that user's two maps. */
  ghost predicate Balanced(m: Ledger)
  {
    forall u | u in m :: Consistent(m[u])
  }

  ghost predicate ValidLedger(m: Ledger)
  {
    Closed(m) && Symmetric(m) && Balanced(m)
  }

  // ---------------------------------------------------------------------
  // The steps of `create_iou`, as functions of the old values.

  /** Adding `a` to the entry for `k`, creating it when it is missing. */
  function AddTo(m: map<string, real>, k: string, a: real): (r: map<string, real>)
    ensures r.Keys == m.Keys + {k}
    ensures forall j | j in m && j != k :: r[j] == m[j]
  {
    if k in m then m[k := m[k] + a] else m[k := a]
  }

  /** Adding to one entry raises the sum of the values by that amount. */
  lemma AddToSum(m: map<string, real>, k: string, a: real)
    ensures Sum(AddTo(m, k, a)) == Sum(m) + a
  {
    var r := AddTo(m, k, a);
    SumRemove(r, k);
    assert r - {k} == m - {k};
    if k in m {
      SumRemove(m, k);
    } else {
      assert m - {k} == m;
    }
  }

  /** `update_amount`: the log with its balance derived from its maps. */
  ghost function Recompute(l: Log): (r: Log)
    ensures r.owes == l.owes && r.owedBy == l.owedBy
    ensures Consistent(r)
    ensures Consistent(l) ==> r == l
  {
    l.(balance := Sum(l.owedBy) - Sum(l.owes))
  }

  /** The lender's side: `borrower` owes `amount` more. */
  ghost function Lend(l: Log, borrower: string, amount: real): (r: Log)
    ensures r.owes == l.owes && borrower in r.owedBy
    ensures r.owedBy.Keys == l.owedBy.Keys + {borrower}
    ensures Consistent(r)
  {
    Recompute(l.(owedBy := AddTo(l.owedBy, borrower, amount)))
  }

  /** The borrower's side: this user owes `lender` `amount` more. */
  ghost function Borrow(l: Log, lender: string, amount: real): (r: Log)
    ensures r.owedBy == l.owedBy && lender in r.owes
    ensures r.owes.Keys == l.owes.Keys + {lender}
    ensures Consistent(r)
  {
    Recompute(l.(owes := AddTo(l.owes, lender, amount)))
  }

  /** The ledger after a successful `create_iou`. The borrower's log is read
      after the lender's has been written, so when the two are the same user
      the second step sees the first. */
  ghost function RecordIou(m: Ledger, lender: string, borrower: string, amount: real): (r: Ledger)
    requires lender in m && borrower in m
  {
    var m1 := m[lender := Lend(m[lender], borrower, amount)];
    m1[borrower := Borrow(m1[borrower], lender, amount)]
  }

  /** What `create_iou` returns: the two updated users in ascending name order. */
  function IouReport(m: Ledger, lender: string, borrower: string): (r: seq<UserInfo>)
    requires lender in m && borrower in m
    ensures |r| == 2 && multiset{r[0].name, r[1].name} == multiset{lender, borrower}
    ensures LexLe(r[0].name, r[1].name)
  {
    Report(m, SortedPair(lender, borrower))
  }

  /** Python's built-in `sum` over the values of a map. */
  method SumValues(m: map<string, real>) returns (s: real)
    ensures s == Sum(m)
  {
    s := 0.0;
    var rest := m;
    while rest != map[]
      invariant s + Sum(rest) == Sum(m)
      decreases |rest|
    {
      var k :| k in rest;
      SumRemove(rest, k);
      s := s + rest[k];
      rest := rest - {k};
    }
  }

  // ---------------------------------------------------------------------

  /** The `IOUList` class. */
  class IouList {
    var iouList: Ledger

    ghost predicate Valid()
      reads this
    {
      ValidLedger(iouList)
    }

    /** A new ledger has no users. */
    constructor ()
      ensures iouList == map[]
      ensures Valid()
    {
      iouList := map[];
    }

    /** `get_user`: the name and the log of one user. */
    function GetUser(name: string): (r: Result<UserInfo>)
      reads this
      ensures r.Failure? <==> name !in iouList
      ensures r.Failure? ==> r.error == UnknownUser(name)
      ensures r.Success? ==> && r.value.name == name
                             && r.value.owes == iouList[name].owes
                             && r.value.owedBy == iouList[name].owedBy
                             && r.value.balance == iouList[name].balance
    {
      if name !in iouList then Failure(UnknownUser(name))
      else Success(Describe(name, iouList[name]))
    }

    /** The loop at the end of `create_iou`: `get_user` for each name in turn,
        collected into a list. */
    method DescribeUsers(names: seq<string>) returns (users: seq<UserInfo>)
      requires forall i | 0 <= i < |names| :: names[i] in iouList
      ensures users == Report(iouList, names)
    {
      users := [];
      for i := 0 to |names|
        invariant users == Report(iouList, names[..i])
      {
        var user := GetUser(names[i]);
        users := users + [user.value];
      }
      assert names[..|names|] == names;
    }

    /** `update_amount`: sets the user's balance to the sum of what others owe
        them minus the sum of what they owe. The source sums the KEYS of the
        two maps (user names), which raises a TypeError as soon as either map
        is non-empty; this models the evident intent, summing the values. */
    method UpdateAmount(name: string)
      requires name in iouList
      modifies this
      ensures iouList == old(iouList)[name := Recompute(old(iouList)[name])]
    {
      var log := iouList[name];
      var lent := SumValues(log.owedBy);
      var owed := SumValues(log.owes);
      iouList := iouList[name := log.(balance := lent - owed)];
    }

    /** Not in the source: `create_user` is called by the server but its body
        is not part of this model. This minimal stand-in inserts the default
        log for a new name and refuses a name that is already a user. */
    method AddUser(name: string) returns (r: Result<UserInfo>)
      requires Valid()
      modifies this
      ensures name in old(iouList) ==> r == Failure(DuplicateUser(name)) && iouList == old(iouList)
      ensures name !in old(iouList) ==> && iouList == old(iouList)[name := DefaultLog()]
                                        && r == Success(Describe(name, DefaultLog()))
      ensures Valid()
    {
      if name in iouList {
        return Failure(DuplicateUser(name));
      }
      AddUserKeepsValid(iouList, name);
      iouList := iouList[name := DefaultLog()];
      r := Success(Describe(name, DefaultLog()));
    }

    /** Lines 65-77 of `create_iou`: the lender's side and the lender's
        balance, then the borrower's side, read after the lender's was
        written, and the borrower's balance. */
    method RecordBothSides(lender: string, borrower: string, amount: real)
      requires lender in iouList && borrower in iouList
      modifies this
      ensures iouList == RecordIou(old(iouList), lender, borrower, amount)
    {
      ghost var before := iouList;
      var lenderLog := iouList[lender];
      iouList := iouList[lender := lenderLog.(owedBy := AddTo(lenderLog.owedBy, borrower, amount))];
      UpdateAmount(lender);
      ghost var afterLender := before[lender := Lend(before[lender], borrower, amount)];
      assert iouList == afterLender;

      var borrowerLog := iouList[borrower];
      iouList := iouList[borrower := borrowerLog.(owes := AddTo(borrowerLog.owes, lender, amount))];
      UpdateAmount(borrower);
      assert iouList == afterLender[borrower := Borrow(afterLender[borrower], lender, amount)];
    }

    /** `create_iou`: validates lender, then borrower, then the amount, before
        changing anything; then adds `amount` to both sides of the debt,
        recomputes both balances and reports both users sorted by name. */
    method CreateIou(lender: string, borrower: string, amount: real) returns (r: Result<seq<UserInfo>>)
      requires Valid()
      modifies this
      ensures lender !in old(iouList) ==> r == Failure(UnknownUser(lender))
      ensures lender in old(iouList) && borrower !in old(iouList) ==> r == Failure(UnknownUser(borrower))
      ensures lender in old(iouList) && borrower in old(iouList) && amount <= 0.0 ==> r == Failure(InvalidAmount)
      ensures r.Failure? ==> iouList == old(iouList)
      ensures lender in old(iouList) && borrower in old(iouList) && amount > 0.0 ==>
                && iouList == RecordIou(old(iouList), lender, borrower, amount)
                && r == Success(IouReport(iouList, lender, borrower))
      ensures Valid()
    {
      if lender !in iouList {
        return Failure(UnknownUser(lender));
      }
      if borrower !in iouList {
        return Failure(UnknownUser(borrower));
      }
      if amount <= 0.0 {
        return Failure(InvalidAmount);
      }
      ghost var before := iouList;
      RecordBothSides(lender, borrower, amount);
      assert Valid() by {
        RecordIouKeepsValid(before, lender, borrower, amount);
      }

      // lines 79-84: both users, looked up again, in ascending name order
      var users := DescribeUsers(SortedPair(lender, borrower));
      r := Success(users);
    }
  }

  // ---------------------------------------------------------------------
  // The invariants are kept by both mutating operations.

  lemma AddUserKeepsValid(m: Ledger, name: string)
    requires name !in m
    ensures ValidLedger(m) ==> ValidLedger(m[name := DefaultLog()])
  {
    var m' := m[name := DefaultLog()];
    if ValidLedger(m) {
      forall a, b | a in m' && b in m' ensures Mirrored(m', a, b) {
        if a != name && b != name {
          assert Mirrored(m, a, b);
        }
      }
    }
  }

  lemma RecordIouKeepsValid(m: Ledger, lender: string, borrower: string, amount: real)
    requires lender in m && borrower in m
    ensures ValidLedger(m) ==> ValidLedger(RecordIou(m, lender, borrower, amount))
  {
    if ValidLedger(m) {
      var m' := RecordIou(m, lender, borrower, amount);
      RecordIouFrame(m, lender, borrower, amount);
      RecordIouKeepsSymmetric(m, lender, borrower, amount);
      forall u | u in m'
        ensures Consistent(m'[u]) && m'[u].owes.Keys <= m'.Keys && m'[u].owedBy.Keys <= m'.Keys
      {
        if u != lender && u != borrower {
          assert m'[u] == m[u];
        }
      }
    }
  }

  /** What a recorded IOU changes: the lender's `owedBy` and the borrower's
      `owes` gain the amount at one entry each; the set of users, every other
      user's log and the other map of each touched user stay as they were. */
  lemma RecordIouFrame(m: Ledger, lender: string, borrower: string, amount: real)
    requires lender in m && borrower in m
    ensures var m' := RecordIou(m, lender, borrower, amount);
      && m'.Keys == m.Keys
      && m'[lender].owedBy == AddTo(m[lender].owedBy, borrower, amount)
      && m'[borrower].owes == AddTo(m[borrower].owes, lender, amount)
      && (lender != borrower ==> m'[lender].owes == m[lender].owes && m'[borrower].owedBy == m[borrower].owedBy)
      && (forall u | u in m && u != lender && u != borrower :: m'[u] == m[u])
  {
  }

  lemma RecordIouKeepsSymmetric(m: Ledger, lender: string, borrower: string, amount: real)
    requires lender in m && borrower in m
    requires Symmetric(m)
    ensures Symmetric(RecordIou(m, lender, borrower, amount))
  {
    var m' := RecordIou(m, lender, borrower, amount);
    RecordIouFrame(m, lender, borrower, amount);
    forall a, b | a in m' && b in m' ensures Mirrored(m', a, b) {
      assert Mirrored(m, a, b);
    }
  }
}
