/** The database manager and the save/load manager of the budget application,
    over an in-memory store: tables become sequence fields, AUTOINCREMENT ids
    become two counters, and each method states its effect on the ledger. */
module Budget {
  import opened Wrappers
  import opened Dates
  import opened Ledger
  import opened Recurring
  import opened Reconcile

  /** What `process_recurring_transactions` ends with: the number of
      transactions it created, or the exception that stopped it. */
  datatype RunOutcome = Processed(count: nat) | Aborted(error: DateError)

  /** `DatabaseManager`. */
  class Store {
    var transactions: seq<Transaction>
    var rules: seq<Rule>
    var nextTransactionId: nat
    var nextRuleId: nat

    function State(): Ledger
      reads this
    {
      Ledger(transactions, rules, nextTransactionId, nextRuleId)
    }

    ghost predicate Valid()
      reads this
    {
      WellFormed(State())
    }

    /** `init_database` on a new file: both tables empty. */
    constructor ()
      ensures Valid() && transactions == [] && rules == []
    {
      transactions, rules := [], [];
      nextTransactionId, nextRuleId := 1, 1;
    }

    /** `add_transaction`: appends a row and returns its new id. */
    method AddTransaction(date: Date, description: string, category: string,
                          amount: int, kind: string, person: string) returns (id: nat)
      requires Valid()
      modifies this
      ensures Valid()
      ensures id == old(nextTransactionId)
      ensures State() == InsertTransaction(old(State()), date, description, category, amount, kind, person)
      ensures transactions == old(transactions) + [Transaction(id, date, description, category, amount, kind, person)]
      ensures forall t :: t in old(transactions) ==> t.id < id
    {
      InsertTransactionKeepsIds(State(), date, description, category, amount, kind, person);
      id := nextTransactionId;
      transactions := transactions + [Transaction(id, date, description, category, amount, kind, person)];
      nextTransactionId := nextTransactionId + 1;
    }

    /** `add_recurring_transaction`: a new active rule with no marker. */
    method AddRecurringRule(description: string, category: string, amount: int, kind: string, person: string,
                            frequency: string, startDate: Date, endDate: Option<Date>) returns (id: nat)
      requires Valid()
      modifies this
      ensures Valid()
      ensures id == old(nextRuleId)
      ensures State() == InsertRule(old(State()), description, category, amount, kind, person,
                                    frequency, startDate, endDate)
      ensures rules == old(rules) + [Rule(id, description, category, amount, kind, person,
                                          frequency, startDate, endDate, None, true)]
    {
      InsertRuleKeepsIds(State(), description, category, amount, kind, person, frequency, startDate, endDate);
      id := nextRuleId;
      rules := rules + [Rule(id, description, category, amount, kind, person,
                             frequency, startDate, endDate, None, true)];
      nextRuleId := nextRuleId + 1;
    }

    /** `get_transactions`: the rows matching every given filter, newest
        first (date, then id, descending), each stored row exactly once. */
    method GetTransactions(f: Filter) returns (rows: seq<Transaction>)
      requires Valid()
      ensures forall t :: t in rows <==> t in transactions && Matches(f, t)
      ensures multiset(rows) == multiset(Select(transactions, f))
      ensures forall i, j :: 0 <= i < j < |rows| ==>
                Before(rows[j].date, rows[i].date) || (rows[i].date == rows[j].date && rows[i].id > rows[j].id)
    {
      rows := Query(transactions, f);
      QueryIsFilteredAndOrdered(transactions, f);
      QueryIsStrict(transactions, f);
    }

    /** `get_recurring_transactions`: the active rules in id order. */
    method GetRecurringRules() returns (active: seq<Rule>)
      requires Valid()
      ensures forall r :: r in active <==> r in rules && r.active
      ensures forall i, j :: 0 <= i < j < |active| ==> active[i].id < active[j].id
    {
      active := ActiveRules(rules);
      ActiveRulesMembers(rules);
      ActiveRulesById(rules);
    }

    /** `DELETE FROM transactions` and `DELETE FROM recurring_transactions`. */
    method ClearAll()
      requires Valid()
      modifies this
      ensures Valid()
      ensures State() == Cleared(old(State()))
    {
      transactions, rules := [], [];
    }

    /** `UPDATE recurring_transactions SET last_processed = ? WHERE id = ?`. */
    method SetLastProcessed(id: nat, date: Date)
      requires Valid()
      modifies this
      ensures Valid()
      ensures transactions == old(transactions) && nextTransactionId == old(nextTransactionId)
      ensures nextRuleId == old(nextRuleId) && |rules| == |old(rules)|
      ensures forall k :: 0 <= k < |rules| ==>
                rules[k] == if old(rules)[k].id == id then old(rules)[k].(lastProcessed := Some(date)) else old(rules)[k]
    {
      rules := seq(|rules|, k requires 0 <= k < |rules| reads this =>
                 if rules[k].id == id then rules[k].(lastProcessed := Some(date)) else rules[k]);
    }

    /** One firing inside `process_recurring_transactions`: the rule's
        transaction is inserted, then the rule's marker is set to `due`. */
    method FireRule(k: nat, due: Date)
      requires Valid() && k < |rules|
      modifies this
      ensures Valid()
      ensures State() == Fire(old(State()), k, old(rules)[k], due)
    {
      var rule := rules[k];
      ghost var before := State();
      var _ := AddTransaction(due, rule.description + " (Auto)", rule.category, rule.amount, rule.kind, rule.person);
      SetLastProcessed(rule.id, due);
      assert rules == before.rules[k := rule.(lastProcessed := Some(due))] by {
        assert forall j :: 0 <= j < |rules| && j != k ==> before.rules[j].id != rule.id;
      }
    }

    /** The body of the loop of `process_recurring_transactions` for rule
        number `k`: an inactive rule is skipped, a due one fires, and a
        date error is reported instead of changing anything. */
    method ProcessRule(k: nat, today: Date) returns (fired: bool, fault: Option<DateError>)
      requires Valid() && k < |rules|
      modifies this
      ensures Valid()
      ensures var r := old(rules)[k];
              var e := Evaluate(r, today);
              && fired == (r.active && e.Due?)
              && fault == (if r.active && e.Fault? then Some(e.error) else None)
              && State() == if fired then Fire(old(State()), k, r, e.date) else old(State())
    {
      fired, fault := false, None;
      var rule := rules[k];
      if rule.active {
        match Evaluate(rule, today)
        case NotDue =>
        case Fault(err) =>
          fault := Some(err);
        case Due(d) =>
          FireRule(k, d);
          fired := true;
      }
    }

    /** `process_recurring_transactions` with the clock reading as `today`:
        every active rule, in id order, that is due gets one transaction and
        its marker advanced; the first date error stops the loop and keeps
        the work already done. */
    method ProcessDue(today: Date) returns (outcome: RunOutcome)
      requires Valid()
      modifies this
      ensures Valid()
      ensures var p := ProcessAll(old(State()), today);
              && State() == p.ledger
              && outcome == if p.fault.None? then Processed(p.count) else Aborted(p.fault.value)
    {
      ghost var l0 := State();
      ghost var es := Evaluations(l0.rules, today);
      assert ProcessAll(l0, today) == Run(l0, es, |l0.rules|);
      outcome := RunRules(today, l0, es, Run(l0, es, |l0.rules|));
      RunKeepsIds(l0, es, |l0.rules|);
    }

    /** The loop of `process_recurring_transactions` over the rules of `l0`,
        rule `k` evaluating to `es[k]`, ending where `whole` says. */
    method RunRules(today: Date, ghost l0: Ledger, ghost es: seq<Evaluation>, ghost whole: Progress)
      returns (outcome: RunOutcome)
      requires WellFormed(l0) && State() == l0
      requires es == Evaluations(l0.rules, today) && whole == Run(l0, es, |l0.rules|)
      modifies this
      ensures State() == whole.ledger
      ensures outcome == if whole.fault.None? then Processed(whole.count) else Aborted(whole.fault.value)
    {
      var count := 0;
      var i, n := 0, |rules|;
      while i < n
        invariant 0 <= i <= n == |rules| == |l0.rules|
        invariant Run(l0, es, i) == Progress(State(), count, None)
      {
        var next, stop := Advance(i, today, l0, es, whole, count);
        if stop.Some? {
          return Aborted(stop.value);
        }
        count, i := next, i + 1;
      }
      assert i == |l0.rules|;
      outcome := Processed(count);
    }

    /** One pass of the loop in `process_recurring_transactions`, on rule `i`
        of a run that started from `l0`. */
    method Advance(i: nat, today: Date, ghost l0: Ledger, ghost es: seq<Evaluation>, ghost whole: Progress, count: nat)
      returns (count': nat, stop: Option<DateError>)
      requires WellFormed(l0) && i < |rules| == |l0.rules|
      requires es == Evaluations(l0.rules, today) && whole == Run(l0, es, |l0.rules|)
      requires Run(l0, es, i) == Progress(State(), count, None)
      modifies this
      ensures |rules| == |l0.rules|
      ensures stop.None? ==> Run(l0, es, i + 1) == Progress(State(), count', None)
      ensures stop.Some? ==> whole.ledger == State() && whole.fault == stop
    {
      ghost var before := State();
      RunKeepsIds(l0, es, i);
      assert rules[i] == l0.rules[i] && es[i] == Evaluate(rules[i], today) by {
        RunShape(l0, es, i);
        EvaluationsAt(l0.rules, today, i);
      }
      RunNextRule(l0, es, i, before, count);
      var fired, fault := ProcessRule(i, today);
      count', stop := if fired then count + 1 else count, fault;
      if fault.Some? {
        assert whole == Progress(before, count, fault) by {
          FaultIffFaultyRule(l0, es, i);
          FaultKeepsEarlierWork(l0, es, |l0.rules|, i);
        }
      }
    }
  }

  /** `SaveLoadManager`: exports and imports snapshots of one store. */
  class SaveLoad {
    const db: Store

    constructor (db: Store)
      ensures this.db == db
    {
      this.db := db;
    }

    /** `export_data`, with the clock reading as `exportDate`: every
        transaction, each once, newest first, and every active rule. */
    method Export(exportDate: string) returns (s: Snapshot)
      ensures multiset(s.transactions) == multiset(db.transactions)
      ensures NewestFirst(s.transactions)
      ensures forall r :: r in s.rules <==> r in db.rules && r.active
      ensures db.Valid() ==> forall i, j :: 0 <= i < j < |s.rules| ==> s.rules[i].id < s.rules[j].id
      ensures s.exportDate == exportDate && s.version == FormatVersion
    {
      s := Reconcile.Export(db.State(), exportDate);
    }

    /** `import_data`: `file` is the parsed document, `None` when it could
        not be read or parsed (nothing changes and the result is false). */
    method Import(file: Option<Snapshot>, merge: bool) returns (ok: bool)
      requires db.Valid()
      modifies db
      ensures db.Valid()
      ensures ok == file.Some?
      ensures db.State() == if ok then ImportSnapshot(old(db.State()), file.value, merge) else old(db.State())
    {
      if file.None? {
        return false;
      }
      if !merge {
        db.ClearAll();
      }
      ImportTransactionRows(file.value.transactions, merge);
      ImportRuleRows(file.value.rules, merge);
      return true;
    }

    /** One pass of the transaction loop of `import_data`: when merging, the
        stored rows of the same day are fetched and searched for a twin. */
    method ImportTransactionRow(x: Transaction, merge: bool)
      requires db.Valid()
      modifies db
      ensures db.Valid()
      ensures db.State() == ImportTransaction(old(db.State()), x, merge)
    {
      var skip := false;
      if merge {
        var existing := db.GetTransactions(DayFilter(x.date));
        DayQueryFindsTwins(db.transactions, x);
        QueryIsFilteredAndOrdered(db.transactions, DayFilter(x.date));
        skip := exists t :: t in existing && IsTwin(t, x);
      }
      if !skip {
        var _ := db.AddTransaction(x.date, x.description, x.category, x.amount, x.kind, x.person);
      }
    }

    /** One pass of the rule loop of `import_data`: when merging, the active
        rules are fetched and searched for a twin. */
    method ImportRuleRow(x: Rule, merge: bool)
      requires db.Valid()
      modifies db
      ensures db.Valid()
      ensures db.State() == ImportRule(old(db.State()), x, merge)
    {
      var skip := false;
      if merge {
        var existing := db.GetRecurringRules();
        skip := exists r :: r in existing && IsRuleTwin(r, x);
      }
      if !skip {
        var _ := db.AddRecurringRule(x.description, x.category, x.amount, x.kind, x.person,
                                     x.frequency, x.startDate, x.endDate);
      }
    }

    /** The transaction loop of `import_data`: each row is added unless, when
        merging, a stored row on its date has its description and amount. */
    method ImportTransactionRows(incoming: seq<Transaction>, merge: bool)
      requires db.Valid()
      modifies db
      ensures db.Valid()
      ensures db.State() == ImportTransactions(old(db.State()), incoming, merge)
    {
      ghost var base := db.State();
      var i := 0;
      while i < |incoming|
        invariant db.Valid()
        invariant 0 <= i <= |incoming|
        invariant db.State() == ImportTransactions(base, incoming[..i], merge)
      {
        ImportTransactionsStep(base, incoming, i, merge);
        ImportTransactionRow(incoming[i], merge);
        i := i + 1;
      }
      assert incoming[..i] == incoming;
    }

    /** The rule loop of `import_data`: each rule is added as a new active
        rule unless, when merging, an active rule has its description, type
        and frequency. */
    method ImportRuleRows(incoming: seq<Rule>, merge: bool)
      requires db.Valid()
      modifies db
      ensures db.Valid()
      ensures db.State() == ImportRules(old(db.State()), incoming, merge)
    {
      ghost var base := db.State();
      var j := 0;
      while j < |incoming|
        invariant db.Valid()
        invariant 0 <= j <= |incoming|
        invariant db.State() == ImportRules(base, incoming[..j], merge)
      {
        ImportRulesStep(base, incoming, j, merge);
        ImportRuleRow(incoming[j], merge);
        j := j + 1;
      }
      assert incoming[..j] == incoming;
    }
  }
}
