# Budget manager: recurring rules, queries, snapshot merge and reports

This project models the core of a household budget manager (`budget1.py`) in
Dafny and proves properties of the model. The program keeps two SQLite tables:
`transactions` (a dated, typed, categorised amount charged to a person) and
`recurring_transactions` (a template with a frequency, a start date, an
optional end date, a `last_processed` marker and an `active` flag). The model
covers:

- the next-due-date calculation of `_calculate_next_due_date` on proleptic
  Gregorian `YYYY-MM-DD` dates, where `datetime.replace` refuses a day the
  target month lacks;
- `process_recurring_transactions`: one pass over the active rules in id
  order, firing each due rule once, with the first date error aborting the
  pass and keeping the work done before it;
- `get_transactions`: the conjunctive filter and the `date DESC, id DESC`
  order;
- `export_data`/`import_data` of a snapshot, in merge and replace mode;
- the arithmetic of the balance chart, the summary panel and the monthly,
  category and person reports.

Modules, one per file:

- `Wrappers` (`wrappers.dfy`): `Option` and `Result`.
- `Dates` (`dates.dfy`): dates as `(year, month, day)` triples. A triple
  `strptime` would reject stands for a malformed stored string. `DayNumber`
  is the proleptic ordinal (`date.toordinal`) and is the reference for day
  arithmetic.
- `Ledger` (`ledger.dfy`): the two tables as one value, with AUTOINCREMENT
  counters, the filter and the query.
- `Recurring` (`recurring.dfy`): `NextDue`, when a rule fires, and a whole
  run as a function of the ledger it starts from.
- `Reconcile` (`reconcile.dfy`): snapshot export and import as functions.
- `Budget` (`budget.dfy`): `DatabaseManager` as the class `Store` with
  sequence fields, and `SaveLoadManager` as the class `SaveLoad`. Their
  methods are proved equal to the functions above.
- `Reports` (`reports.dfy`): the `defaultdict` tallies, the stable sorts and
  the five report computations.

Amounts are integers (cents). The clock (`datetime.now()`) is a `today`
parameter. The export timestamp is an `exportDate` parameter. The JSON file is
an `Option<Snapshot>`: `None` stands for a file that cannot be read or parsed.

The model follows the code at points where it is easy to misread:

- monthly and yearly steps are errors, not clamped dates, when the day does
  not exist (`NoClamping`);
- the merge key for transactions is date, description and amount, not
  category (`IsTwin`);
- imported rules start with `last_processed` unset and active, so the
  export/replace round trip resets every marker (`ExportThenReplaceRoundTrip`);
- `end_date` is compared with today, not with the due date;
- a same-day second run is not always a no-op: a rule more than one period
  behind fires again (`OnePeriodPerRun`).

## Model

| member | source | states |
|---|---|---|
| Dates.NextDay | budget1.py:184 | `+ timedelta(days=1)`: fails (OverflowError) exactly at 9999-12-31; otherwise a valid, later date whose day number is one more |
| Dates.PrevDay | budget1.py:149 | `start_dt - timedelta(days=1)`: fails exactly at 0001-01-01; otherwise a valid, earlier date whose day number is one less |
| Dates.AddDays | budget1.py:184-188 | adding n days succeeds iff the day number stays within 9999-12-31, and then the result is valid with day number raised by exactly n |
| Dates.AddDaysIsLater | budget1.py:184-188 | a positive day step lands strictly later |
| Dates.Replace | budget1.py:192-196 | `datetime.replace(year, month)` succeeds iff the same day exists in the target month, keeps the day, and otherwise fails with NoSuchDate (no clamping) |
| Dates.OrderIsDayOrder | budget1.py:155-156 | comparing two valid dates is comparing their day numbers, and equal day numbers mean equal dates |
| Ledger.InsertTransaction | budget1.py:76-85 | `add_transaction` appends one row with the next id and leaves the other rows and the rules as they were |
| Ledger.InsertTransactionKeepsIds | budget1.py:35 | AUTOINCREMENT: ids stay strictly increasing and below the counter after an insert |
| Ledger.InsertRule | budget1.py:120-130 | `add_recurring_transaction` appends an active rule with `last_processed` unset and the next id, leaving all else |
| Ledger.InsertRuleKeepsIds | budget1.py:49 | rule ids stay strictly increasing and below the counter after an insert |
| Ledger.ActiveRulesMembers | budget1.py:132-137 | `WHERE active = 1`: a rule is returned iff it is stored and active |
| Ledger.ActiveRules | budget1.py:132-137 | `WHERE active = 1 ORDER BY id`: never longer than the table; its meaning is `ActiveRulesMembers` and `ActiveRulesById` |
| Ledger.ActiveRulesById | budget1.py:136 | `ORDER BY id`: on a table whose ids increase in storage order, the active rules come back in strictly increasing id order |
| Ledger.Matches | budget1.py:92-111 | the WHERE clause: every present, non-empty filter holds (start and end inclusive); its meaning is `Select` and `SelectAll` |
| Ledger.SelectCounts | budget1.py:92-111 | each matching row is selected exactly as often as it is stored, and no other row is selected |
| Ledger.Select | budget1.py:92-111 | a row is selected iff it is stored and meets every present, non-empty filter; no row more often than stored |
| Ledger.SortNewestFirst | budget1.py:113 | the result is ordered date descending then id descending, and is a permutation of the input |
| Ledger.QueryIsFilteredAndOrdered | budget1.py:87-118 | `get_transactions` returns exactly the matching rows, each matching row exactly as often as it is stored and no other row, newest first |
| Ledger.Query | budget1.py:87-118 | `get_transactions`: the selected rows in `date DESC, id DESC` order; its meaning is `QueryIsFilteredAndOrdered` and `QueryIsStrict` |
| Ledger.QueryAllIsPermutation | budget1.py:87-92 | with no filter every stored row comes back exactly once |
| Ledger.SelectAll | budget1.py:92-111 | an empty filter imposes no condition |
| Ledger.QueryIsStrict | budget1.py:113 | with distinct ids the result is strictly ordered: a later date first, on the same date a higher id first |
| Recurring.NextDue | budget1.py:181-198 | the next due date is a valid date strictly after the anchor; a failure is NoSuchDate for monthly/yearly and Overflow otherwise |
| Recurring.NextDueCountsDays | budget1.py:183-188 | daily, weekly, bi-weekly and any other non-calendar frequency add exactly 1, 7, 14 and 1 days, failing only past 9999-12-31 |
| Recurring.MonthlyKeepsDay | budget1.py:189-194 | monthly keeps the day, rolls December into January of the next year, fails iff that day is missing from the target month, and steps by the anchor month's length |
| Recurring.YearlyKeepsMonthAndDay | budget1.py:195-196 | yearly keeps month and day and fails exactly for February 29 into a common year or past 9999 |
| Recurring.NoClamping | budget1.py:189-196 | Jan 31 and Mar 31 monthly and Feb 29 yearly fail with NoSuchDate; Dec 31 monthly gives Jan 31 of the next year |
| Recurring.DayStepLandsOn | budget1.py:183-198 | a day-counting frequency (anything but monthly and yearly) lands on the valid date whose day number is the step further on |
| Recurring.WeeklyCrossesYear | budget1.py:185-186 | one week after 2023-12-31 is 2024-01-07 |
| Recurring.UnknownFrequencyStepsOneDay | budget1.py:197-198 | an unrecognised frequency ("fortnightly") steps one day, from 2024-02-28 onto the leap day |
| Recurring.Anchor | budget1.py:148-149 | the anchor is `last_processed`, or the day before `start_date`; `start_date` is always parsed; it fails exactly on a malformed date or when the start is 0001-01-01 |
| Recurring.EvaluateMeaning | budget1.py:148-156 | a due date is valid, not after today, after the previous firing (or on/after the start) and within the end date; a rule not due has its next date after today or has ended |
| Recurring.FiresExactlyWhen | budget1.py:148-156 | a rule fires iff anchor and next date compute, the next date is not after today, and any end date is a valid date not before today; it fires on that next date |
| Recurring.Evaluate | budget1.py:148-156 | one loop pass on an active rule: fault, due on a date, or not due; its meaning is `EvaluateMeaning`, `FiresExactlyWhen` and `FaultsExactlyWhen` |
| Recurring.FaultsExactlyWhen | budget1.py:148-156 | a rule faults iff its start or marker is malformed, the day before the start is missing, the step fails, or its next date has come and its end date is malformed; an anchor fault carries the anchor's error |
| Recurring.MalformedEndDateUnread | budget1.py:155-156 | a weekly rule with end date 2024-02-30 is simply not due on 2023-12-01: the end date is not parsed before the next date has come |
| Recurring.AdvancedMovesForward | budget1.py:167-175 | only an active due rule changes, only in its marker, which moves strictly forward to a date not after today |
| Recurring.Materialize | budget1.py:158-165 | the row a firing rule inserts: its template with `" (Auto)"` appended to the description, dated on the due date; its meaning is `RunAppendsMaterialized` |
| Recurring.Fire | budget1.py:158-175 | insert the rule's row, then set that rule's marker; its meaning is `FireKeepsIds` and `RunAdvancesDueRules` |
| Recurring.Run | budget1.py:139-179 | the loop over the first n rules keeps the number of rules; its meaning is `RunShape`, `RunStep`, `RunAppendsMaterialized`, `RunAdvancesDueRules` and the fault lemmas |
| Recurring.ProcessAll | budget1.py:139-179 | `process_recurring_transactions` on `today` keeps the number of rules; its meaning is that of `Run` over every rule |
| Recurring.EvaluationsAt | budget1.py:141-156 | the evaluation list holds, at each rule's position, that rule's evaluation on `today` |
| Recurring.RunNextRule | budget1.py:144-177 | one rule after an unstopped run: fires it if active and due, stops with its error if active and faulty, and otherwise changes nothing |
| Recurring.FireKeepsIds | budget1.py:158-175 | firing a rule keeps transaction and rule ids strictly increasing and below their counters |
| Recurring.RunKeepsIds | budget1.py:139-179 | a whole run, aborted or not, keeps transaction and rule ids strictly increasing and below their counters |
| Recurring.RunShape | budget1.py:139-179 | a run only appends transactions, leaves later rules untouched, keeps the rule counter, and its count equals the number of rows appended |
| Recurring.RunCountBound | budget1.py:141-177 | the count is at most the number of active rules |
| Recurring.RunStep | budget1.py:155-177 | one faultless step fires the rule iff it is active and due, and otherwise changes nothing |
| Recurring.RunAdvancesDueRules | budget1.py:144-175 | without a fault each rule ends advanced to its due date if active and due, and unchanged otherwise (inactive rules included) |
| Recurring.RunAppendsMaterialized | budget1.py:158-165 | without a fault the rows appended are exactly one `"<desc> (Auto)"` copy per due active rule, in rule order, with consecutive ids |
| Recurring.FaultIffFaultyRule | budget1.py:144-156 | a run aborts iff some active rule evaluates to a fault (when that happens is `FaultsExactlyWhen`) |
| Recurring.FaultKeepsEarlierWork | budget1.py:144-179 | an abort at the first faulty rule keeps exactly the inserts and marker updates made before it |
| Recurring.WeeklyScenarioFirstRun | budget1.py:144-177 | a weekly rule starting 2024-01-01 run on 2024-01-10 creates one row dated 2024-01-07 and sets the marker to 2024-01-07 |
| Recurring.WeeklyScenarioSecondRun | budget1.py:144-177 | running again on 2024-01-10 creates nothing and changes nothing |
| Recurring.OnePeriodPerRun | budget1.py:144-177 | no catch-up: run again on 2024-01-20, the same rule fires once more, for 2024-01-14 |
| Reconcile.Export | budget1.py:206-214 | the snapshot holds every transaction once, newest first, exactly the active rules in id order, and version "1.0" |
| Reconcile.IsTwin | budget1.py:246 | the transaction merge key: same date, description and amount; its meaning is `DayQueryFindsTwins` and `MergeAddsNoTwins` |
| Reconcile.IsRuleTwin | budget1.py:258 | the rule merge key: same description, type and frequency; its meaning is `ActiveQueryFindsTwins` and `ImportCoversRules` |
| Reconcile.ImportSnapshot | budget1.py:224-263 | `import_data` on a parsed file: clear both tables unless merging, then the transaction loop, then the rule loop; its meaning is the merge and replace lemmas below |
| Reconcile.DayQueryFindsTwins | budget1.py:241-247 | searching the same-day query for a twin is the same as searching the whole table |
| Reconcile.ActiveQueryFindsTwins | budget1.py:255-258 | searching the active-rule query for a twin is the same as searching the active rules |
| Reconcile.ImportTransaction | budget1.py:239-251 | one incoming row is skipped iff merging and a stored row has its date, description and amount; otherwise a copy with the next id is appended and the counter moves on by one; the rules are untouched |
| Reconcile.ImportRule | budget1.py:254-263 | one incoming rule is skipped iff merging and an active rule has its description, type and frequency; otherwise it is appended with the next id, active and with no marker, and the counter moves on by one; the transactions are untouched |
| Reconcile.ImportTransactions | budget1.py:238-251 | the transaction loop leaves the rules and the rule counter as they were |
| Reconcile.ImportRules | budget1.py:253-263 | the rule loop leaves the transactions and their counter as they were |
| Reconcile.MergeTransactionsAppend | budget1.py:238-251 | the transaction loop only appends |
| Reconcile.MergeRulesAppend | budget1.py:253-263 | the rule loop only appends |
| Reconcile.ImportCoversTransactions | budget1.py:238-251 | afterwards every incoming row has a twin (same date, description, amount) in the table |
| Reconcile.ImportCoversRules | budget1.py:253-263 | afterwards every incoming rule has an active twin (same description, type, frequency) |
| Reconcile.MergeAddsNoTwins | budget1.py:241-251 | a merge appends no row with a twin before it, stored or appended by the same import |
| Reconcile.ImportAppendsCopies | budget1.py:249-251 | every appended row is an incoming row with a fresh id |
| Reconcile.ImportAppendsReloadedRules | budget1.py:261-263 | every appended rule is an incoming rule with a fresh id, active and with `last_processed` unset |
| Reconcile.MergeOfKnownRowsIsNoOp | budget1.py:241-247 | merging rows that all have twins changes nothing |
| Reconcile.MergeOfKnownRulesIsNoOp | budget1.py:255-259 | merging rules that all have active twins changes nothing |
| Reconcile.MergeIsIdempotent | budget1.py:224-263 | merging the same snapshot twice equals merging it once |
| Reconcile.MergeNeverShrinks | budget1.py:238-263 | a merge keeps every stored row and rule unchanged, in place |
| Reconcile.ReplaceLoadsTransactions | budget1.py:239-251 | without merge each incoming row is appended, in order, with consecutive fresh ids |
| Reconcile.ReplaceLoadsRules | budget1.py:254-263 | without merge each incoming rule is appended, in order, reloaded with consecutive fresh ids |
| Reconcile.ReplaceLoadsSnapshot | budget1.py:230-263 | replace mode leaves exactly the snapshot's rows and rules, in order, with fresh ids |
| Reconcile.ExportThenReplaceRoundTrip | budget1.py:206-263 | export then replace-import reloads every transaction once (ids aside) and every active rule in order, with its marker reset |
| Budget.Store.constructor | budget1.py:23-74 | a new store has empty tables and satisfies the id invariant |
| Budget.Store.AddTransaction | budget1.py:76-85 | appends the row with a fresh id larger than every stored id, returns that id, keeps the id invariant |
| Budget.Store.AddRecurringRule | budget1.py:120-130 | appends an active rule with no marker and a fresh id, returns that id, keeps the id invariant |
| Budget.Store.GetTransactions | budget1.py:87-118 | returns exactly the matching rows, each as often as stored, strictly newest first |
| Budget.Store.GetRecurringRules | budget1.py:132-137 | returns exactly the active rules, in increasing id order |
| Budget.Store.ClearAll | budget1.py:232-236 | empties both tables and keeps the AUTOINCREMENT counters |
| Budget.Store.SetLastProcessed | budget1.py:168-175 | sets the marker of the rule with that id and changes nothing else |
| Budget.Store.FireRule | budget1.py:158-175 | inserts the rule's `(Auto)` row, then sets that rule's marker to the due date |
| Budget.Store.ProcessRule | budget1.py:145-177 | skips an inactive rule, fires a due one, reports a date error without changing anything |
| Budget.Store.ProcessDue | budget1.py:139-179 | the new state, and the count or the error, are exactly those of a whole run on `today`, and the id invariant holds afterwards |
| Budget.Store.RunRules | budget1.py:144-179 | the loop over the rules ends in the state of the whole run, returning its count, or its error when it aborted |
| Budget.Store.Advance | budget1.py:145-177 | one pass of the loop: without an error the state and count are those of the run one rule further; on an error the state is the whole run's final state and the error is the run's fault |
| Budget.SaveLoad.constructor | budget1.py:203-204 | the manager works on the given store |
| Budget.SaveLoad.Export | budget1.py:206-214 | the snapshot holds every stored row once, newest first, exactly the active rules in id order, and version "1.0" |
| Budget.SaveLoad.Import | budget1.py:224-268 | succeeds iff the file could be read, and then leaves the store as the import function says; otherwise changes nothing |
| Budget.SaveLoad.ImportTransactionRow | budget1.py:239-251 | the same-day query and the insert do what the one-row import function says, keeping the id invariant |
| Budget.SaveLoad.ImportRuleRow | budget1.py:254-263 | the active-rule query and the insert do what the one-rule import function says, keeping the id invariant |
| Budget.SaveLoad.ImportTransactionRows | budget1.py:238-251 | the transaction loop does what the import function says |
| Budget.SaveLoad.ImportRuleRows | budget1.py:253-263 | the rule loop does what the import function says |
| Reports.Find | budget1.py:731 | the dictionary lookup finds an entry with that key, or reports that there is none |
| Reports.Tally | budget1.py:728-740 | the `defaultdict` loop builds the dictionary of the tally function |
| Reports.TallyOf | budget1.py:728-740 | the `defaultdict` after the loop: one entry per key in first-seen order; its meaning is `TallyKeys`, `TallyKeysDistinct` and `TallyTotals` |
| Reports.TallyKeysDistinct | budget1.py:728-731 | each key has at most one entry |
| Reports.TallyKeys | budget1.py:728-740 | the keys are exactly the grouping values of the selected rows |
| Reports.TallyTotals | budget1.py:728-740 | each entry holds its key's count, Income sum and other sum over all rows, and counts at least one row |
| Reports.SortDescSorts | budget1.py:752 | `sorted(..., reverse=True)` is largest first and a permutation |
| Reports.SortDescIsStable | budget1.py:752 | the sort is stable: for every amount, the entries with that amount keep the order in which they came, so ties for the last top places go to the category seen first |
| Reports.TopN | budget1.py:752 | `sorted(..., reverse=True)[:n]`; its meaning is `TopNMeaning` and `SortDescIsStable` |
| Reports.TopNMeaning | budget1.py:752 | the top list has min(n, size) entries taken from the input, largest first, and nothing left out is larger than anything kept |
| Reports.SortByDateSorts | budget1.py:682 | the chart's sort is oldest first and a permutation |
| Reports.SortByDate | budget1.py:682 | `transactions.sort(key=date)` as a stable insertion sort; its meaning is `SortByDateSorts`, `SortByDateIsStable` and `SortByDateKeepsSum` |
| Reports.SortByDateIsStable | budget1.py:682 | same-day rows that arrive highest id first stay highest id first |
| Reports.SortByDateKeepsSum | budget1.py:682-688 | sorting does not change the signed sum |
| Reports.NetIsSignedSum | budget1.py:723-725 | when every row is Income or Expense, the chart's signed sum (Income added, anything else subtracted) is total income minus total expenses |
| Reports.SignedSum | budget1.py:684-691 | the running balance after every row: Income added, any other type subtracted; its meaning is `RunningBalance`, `SortByDateKeepsSum` and `NetIsSignedSum` |
| Reports.KindTotal | budget1.py:723-724 | `sum(amount for rows of one type)`; its meaning is `NetIsSignedSum`, `Summarize` and `Monthly` |
| Reports.RunningBalance | budget1.py:684-691 | one point per row; point i is the row's date and the signed sum of rows 0..i; no points when a date does not parse |
| Reports.BalanceChart | budget1.py:665-691 | the chart of the period's rows after the stable date sort; absent iff a row's date does not parse |
| Reports.ChartEndsAtNet | budget1.py:684-691 | the last balance equals the net balance when all rows are Income or Expense |
| Reports.ChartOrder | budget1.py:674-682 | the chart shows the period's rows once each, oldest first, same-day rows highest id first |
| Reports.RunningBalanceExample | budget1.py:682-691 | Income 100 on 2024-01-01 and Expense 40 on 2024-01-02 give balances 100 then 60 |
| Reports.PickedAmounts | budget1.py:752 | an item picked from a tally's amounts is the total of its key |
| Reports.Summarize | budget1.py:713-752 | income and expense totals and their difference; the top list is `TopN` of the expense categories: five of them (all when fewer), largest first, each with its expense total, and no category left out larger than one kept; per person the Income and other sums |
| Reports.MonthRows | budget1.py:766-771 | the monthly report reads exactly the rows dated in today's month up to today |
| Reports.Mean | budget1.py:798 | the average times the count is the total (the same division gives the category averages) |
| Reports.Monthly | budget1.py:764-798 | totals, net, row count, every expense category largest first, and an average (present iff there is a row) times the count equal to income plus expenses |
| Reports.Averages | budget1.py:815-816 | each category line keeps its count and total and gets their average |
| Reports.CategoryReport | budget1.py:803-816 | one line per category of the rows, each with its count (at least one) and total over all types, and the average |
| Reports.TallyKeySet | budget1.py:809-813 | a tally over all rows has exactly the grouping values of the rows as keys |
| Reports.PersonReport | budget1.py:833-870 | one block per person of the rows: row count, Income sum, other sum, and three of the person's non-Income categories (all when fewer), largest first, with their totals, none left out larger than one kept |
| Reports.TopCategories | budget1.py:868-870 | a person's top three are at most three non-Income categories, largest first, each with its total |

## Left out

- The Tk GUI (widgets, dialogs, message boxes, tree refreshes), matplotlib plotting and all text formatting (`:.2f`, `.upper()`, percentages, description truncation in `update_info`).
- SQLite mechanics (connections, SQL text, `lastrowid`, the unused `budget_categories` table) and the `created_at` timestamps: the store is in memory.
- JSON reading and writing, `default=str`, and the `try/except` that turns any exception into `False`: the file is `Option<Snapshot>`, and exceptions other than an unreadable file are not modelled.
- `datetime.now()`: passed in as `today` or `exportDate`.
- Floating-point amounts: amounts are integers (cents), so sums carry no rounding; averages are exact reals.
- `strptime` leniency about digit counts and whitespace: a date is a `(year, month, day)` triple, and string order is taken to be date order, which holds for zero-padded `YYYY-MM-DD` text.
- An empty-string `last_processed` or `end_date` (falsy in Python) is not distinguished from an absent one: both are `None`.
- `datetime.now()` inside the loop of `process_recurring_transactions` (budget1.py:152) is read once per rule; the model reads the clock once per run (`today`), so a run that crosses midnight, where later rules would see the next day, is not modelled.
- `main()` runs the engine once more at startup (budget1.py:283, 967); a second run is modelled by calling `ProcessDue` again.
- The display order of the category report (sorted by total) and of the monthly report's percentages is not modelled; the monthly categories are sorted by amount.
- Budget.Store.ProcessDue: the Python list is re-read from the database only once, before the loop; rows are modelled as `seq` values, so aliasing between the fetched list and the table is not a question the model asks.
- Reports.PersonReport: the person's category sub-dictionary is built by a second pass over the rows restricted to that person, not inside the single loop of the source; the entries and their order are the same.
- Reports.Summarize, Reports.Monthly: `sum(...)` over a generator is modelled by the function `KindTotal`, not by a loop.
- Reports.BalanceChart: the in-place `list.sort` is modelled as a pure stable sort of the rows.
