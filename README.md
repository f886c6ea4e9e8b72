# IOU ledger

A Dafny model of the ledger of the IOU service: the `IOUList` class of
`ioulist.py`, which keeps, for every user name, an `IOULog` record
(`ioulog.py`) holding what the user owes (`owes`), what others owe the user
(`owedBy`) and the user's net `balance`.

- `ioulog.dfy` (module `IouLog`): the `Log` record and its defaults, the sum
  of a map's values, and `Consistent`, the meaning of `balance`
  (sum of `owedBy` minus sum of `owes`).
- `ioulist.dfy` (module `IouList`): the class `IouList` with its field
  `iouList: map<string, Log>`, modified in place by `UpdateAmount`,
  `CreateIou` and `AddUser`; `GetUser` is a read-only function. The ghost
  function `RecordIou` gives the ledger after a successful IOU as a function
  of the old ledger; `CreateIou` is proved to produce exactly it. The ledger
  invariant `ValidLedger` is: every name in a log is a user (`Closed`), the
  two sides of every debt agree, `A.owedBy[B] == B.owes[A]` (`Symmetric`),
  and every balance is consistent (`Balanced`).
- `ioulist_properties.dfy` (module `IouListProperties`): accumulation,
  balance movement, self-IOUs, the order of the returned records, and the
  alice/bob example.
- `keysum_finding.dfy` (module `KeySumFinding`): `update_amount` as written,
  see "## Findings".

Design decisions:

- Amounts are exact `real`s rather than Python floats.
- Python's `sum` is modelled by `SumValues`, a loop over the map's entries,
  proved equal to the ghost function `Sum`.
- `sorted` compares strings by code point, lexicographically; `LexLe` is
  that order.
- `create_iou` returns its two records sorted by name, as the code does
  (`sorted([lender, borrower])` at ioulist.py:81), not lender first.
- `AddUser` is NOT a transcription: the source's `create_user` is called by
  the server but its body is not part of this model. `AddUser` is the
  smallest operation that makes users exist: it inserts the default log for
  a new name and returns a `DuplicateUser` error, changing nothing, for a
  name that is already a user.
- Errors are the `Error` datatype: `UnknownUser(name)` for the source's
  `ValueError`s about unknown users, `InvalidAmount` for a non-positive
  amount. The message texts are not modelled.
- When lender and borrower are the same user, the borrower's log is read
  after the lender's side was written (`RecordIou`, `CreateIou`), as in the
  source.

## Model

| member | source | states |
|---|---|---|
| IouLog.DefaultLog | ioulog.py:13-19 | a new log has empty `owes` and `owedBy` and balance 0, and that balance agrees with the sums of its empty maps |
| IouLog.SumRemove | ioulist.py:43 | the sum of a map's values does not depend on the order in which the entries are added up |
| IouList.LexLeTotal | ioulist.py:81 | any two names are ordered one way or the other by string comparison |
| IouList.LexLeAntisymmetric | ioulist.py:81 | two names each ordered before the other are equal |
| IouList.SortedPair | ioulist.py:81 | `sorted([a, b])` holds exactly the two names, in ascending order |
| IouLog.Sum | ioulist.py:43 | defines Python's `sum` over a map's values: 0 for an empty map, otherwise one entry's value plus the sum of the rest (no contract of its own; `SumRemove` shows the result does not depend on which entry is taken) |
| IouList.Describe | ioulist.py:31-34 | the dict `get_user` builds holds the name and exactly the log's three fields, so the log can be read back from it |
| IouList.AddTo | ioulist.py:65-68 | adding to an entry (creating it if missing) adds that key and leaves every other entry as it was |
| IouList.AddToSum | ioulist.py:65-68 | adding to an entry raises the sum of the map's values by exactly the amount |
| IouList.Recompute | ioulist.py:43 | the recomputed log keeps both maps and its balance is consistent with them; a log that is already consistent comes back unchanged |
| IouList.Lend | ioulist.py:65-70 | the lender's log after lines 65-70: `owes` untouched, the borrower now among the keys of `owedBy` and no other key added, balance consistent |
| IouList.Borrow | ioulist.py:72-77 | the borrower's log after lines 72-77: `owedBy` untouched, the lender now among the keys of `owes` and no other key added, balance consistent |
| IouList.RecordIou | ioulist.py:65-77 | defines the ledger after a successful IOU: the lender's log replaced by `Lend`, then, in that new ledger, the borrower's log replaced by `Borrow` (no contract of its own; its properties are `RecordIouFrame`, `RecordIouKeepsValid` and the lemmas of `IouListProperties`) |
| IouList.IouReport | ioulist.py:79-84 | the result of `create_iou` has two records, whose names are the lender and the borrower, in ascending order |
| IouList.SumValues | ioulist.py:43 | the loop that sums the values returns the sum of all of them |
| IouList.IouList.constructor | ioulist.py:18-19 | a new ledger is empty and satisfies the ledger invariant |
| IouList.IouList.GetUser | ioulist.py:22-34 | an unknown name is an `UnknownUser` error; a user yields that name with exactly that user's `owes`, `owedBy` and `balance`; nothing is modified |
| IouList.IouList.DescribeUsers | ioulist.py:81-82 | looking up each name in turn with `get_user` yields the records of those names in that order |
| IouList.IouList.UpdateAmount | ioulist.py:38-43 | only that user's balance changes, and it becomes sum of `owedBy` minus sum of `owes` |
| IouList.IouList.RecordBothSides | ioulist.py:65-77 | the two in-place updates and the two balance recomputations leave the ledger equal to `RecordIou` of the old one |
| IouList.IouList.AddUser | ioulog.py:17-19 | a new name gets the default log and its record is returned; an existing name is a `DuplicateUser` error that changes nothing; the ledger invariant is kept |
| IouList.IouList.CreateIou | ioulist.py:46-84 | unknown lender, then unknown borrower, then non-positive amount are reported in that order with nothing changed; otherwise the ledger becomes `RecordIou` of the old one, the result is both updated records sorted by name, and the ledger invariant is kept |
| IouList.AddUserKeepsValid | ioulog.py:17-19 | adding a default log for a new name keeps closure, symmetry and balance consistency |
| IouList.RecordIouFrame | ioulist.py:46-77 | an IOU keeps the set of users and every other user's log, changes only one entry of the lender's `owedBy` and one of the borrower's `owes`, and leaves the lender's `owes` and the borrower's `owedBy` alone when they differ |
| IouList.RecordIouKeepsSymmetric | ioulist.py:65-75 | if `A.owedBy[B] == B.owes[A]` held for all pairs of users before an IOU, it holds after |
| IouList.RecordIouKeepsValid | ioulist.py:65-77 | an IOU keeps closure, symmetry and balance consistency of the whole ledger |
| IouListProperties.RecordIouAccumulates | ioulist.py:65-75 | after an IOU, `lender.owedBy[borrower]` and `borrower.owes[lender]` are the old value plus the amount, or the amount when there was no entry |
| IouListProperties.RepeatedIouAccumulates | ioulist.py:65-68 | two IOUs of `x` and `y` between the same fresh pair leave `x + y` owed |
| IouListProperties.RecordIouMovesBalances | ioulist.py:65-77 | between two different consistent users, the lender's balance rises and the borrower's falls by exactly the amount |
| IouListProperties.SelfIouKeepsBalance | ioulist.py:65-77 | an IOU of a user to themselves adds the amount to both of their maps and leaves their balance unchanged |
| IouListProperties.IouReportOrdered | ioulist.py:79-84 | the result has two records for the lender and the borrower, strictly ascending by name when they differ, each the user's updated record; a self-IOU lists the same record twice |
| IouListProperties.AliceLendsBob | ioulist.py:46-77 | in a ledger of alice and bob with no debts, alice lending bob 30 gives alice `owedBy = {bob: 30}` and balance 30, bob `owes = {alice: 30}` and balance -30, and no other change |
| IouListProperties.AliceBobScenario | ioulist.py:46-77 | then bob lending alice 10 gives alice `owes = {bob: 10}` and balance 20, bob `owedBy = {alice: 10}` and balance -20, the first debt still recorded |
| KeySumFinding.SumOfKeys | ioulist.py:43 | Python's `sum` over str keys: 0 when there are none, a TypeError otherwise |
| KeySumFinding.BalanceAsWritten | ioulist.py:43 | summing the keys succeeds only when both maps are empty, and then gives the same balance as summing the values |
| KeySumFinding.CreateIouAsWrittenRaises | ioulist.py:65-70 | as written, every IOU that passes validation raises at the lender's balance update, after the lender's `owed_by` was changed, leaving the two sides of the debt out of step |

## Findings

| source | as written | input that shows it | evidently intended | confidence | as-written member | corrected member |
|---|---|---|---|---|---|---|
| ioulist.py:43 | `sum(owed_by.keys()) - sum(owes.keys())` sums the user names, so `sum` raises a TypeError for any non-empty map; in `create_iou` this happens at line 70, after line 66 or 68 already changed the lender's `owed_by` | users alice and bob, `create_iou("alice", "bob", 30)`: alice's `owed_by` becomes `{bob: 30}`, then the balance update raises, bob's `owes` is never updated | sum the values of the two maps | high; not executed | KeySumFinding.CreateIouAsWrittenRaises | IouList.IouList.UpdateAmount |

## Left out

- `get_users` and the body of `create_user`: they are called from `server.py` and `main.py` but are not part of this model; `AddUser` stands in for the latter.
- `server.py` and `main.py`: HTTP routing, query parsing, the mapping of `ValueError` to status 404 and the process-wide ledger instance; the model works on an explicit `IouList` object.
- Floating-point semantics of amounts (rounding, NaN passing `amount <= 0`, infinities): amounts are exact reals.
- Pydantic's `model_dump`, default-value copying and JSON serialisation: a user's record is the `UserInfo` datatype and the result of `create_iou` a sequence of them.
- The text of the error messages: errors are the kinds in `Error`, with the offending name.
- Concurrency: the source has no locking and the model is sequential.
- IouList.IouList.UpdateAmount: requires its user to exist; the source would raise a KeyError for a missing name, but it is only called with names already validated by `create_iou`.
