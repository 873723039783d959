/** The recurring-rule engine: the next due date of a rule, whether a rule
    fires on a given day, and what one run of `process_recurring_transactions`
    does to the ledger, stated as a function of the ledger it starts from. */
module Recurring {
  import opened Wrappers
  import opened Dates
  import opened Ledger

  /** The frequencies advanced by calendar fields rather than by a day count. */
  predicate IsCalendarFrequency(frequency: string)
  {
    frequency == "monthly" || frequency == "yearly"
  }

  /** The day count of the other frequencies; an unknown one counts as daily. */
  function DayStep(frequency: string): nat
  {
    if frequency == "weekly" then 7 else if frequency == "bi-weekly" then 14 else 1
  }

  /** `_calculate_next_due_date`. */
  function NextDue(anchor: Date, frequency: string): (r: Result<Date, DateError>)
    requires IsValid(anchor)
    ensures r.Ok? ==> IsValid(r.value) && Before(anchor, r.value)
    ensures r.Err? ==> r.error == (if IsCalendarFrequency(frequency) then NoSuchDate else Overflow)
  {
    if frequency == "monthly" then
      var r := if anchor.month == 12 then Replace(anchor, anchor.year + 1, 1)
               else Replace(anchor, anchor.year, anchor.month + 1);
      r
    else if frequency == "yearly" then
      Replace(anchor, anchor.year + 1, anchor.month)
    else
      var step := if frequency == "daily" then 1
                  else if frequency == "weekly" then 7
                  else if frequency == "bi-weekly" then 14
                  else 1;
      var r := AddDays(anchor, step);
      if r.Ok? then AddDaysIsLater(anchor, step); r else r
  }

  /** daily, weekly, bi-weekly and any unknown frequency move the date by a
      fixed number of days, failing only past 9999-12-31. */
  lemma NextDueCountsDays(anchor: Date, frequency: string)
    requires IsValid(anchor) && !IsCalendarFrequency(frequency)
    ensures NextDue(anchor, frequency).Ok? <==> DayNumber(anchor) + DayStep(frequency) <= DayNumber(LastDate)
    ensures NextDue(anchor, frequency).Ok? ==>
              DayNumber(NextDue(anchor, frequency).value) == DayNumber(anchor) + DayStep(frequency)
    ensures frequency == "daily" ==> DayStep(frequency) == 1
  {
  }

  /** The month and year a monthly rule moves to. */
  function NextMonth(d: Date): (int, int)
  {
    if d.month == 12 then (d.year + 1, 1) else (d.year, d.month + 1)
  }

  /** monthly keeps the day of the month, rolls December into January, and is
      an error (not a clamped date) when the target month is too short; the
      step is exactly the length of the anchor's month. */
  lemma MonthlyKeepsDay(anchor: Date)
    requires IsValid(anchor)
    ensures var (y, m) := NextMonth(anchor);
            NextDue(anchor, "monthly").Ok? <==> y <= MaxYear && anchor.day <= DaysInMonth(y, m)
    ensures NextDue(anchor, "monthly").Ok? ==>
              var (y, m) := NextMonth(anchor);
              && NextDue(anchor, "monthly").value == Date(y, m, anchor.day)
              && DayNumber(NextDue(anchor, "monthly").value)
                 == DayNumber(anchor) + DaysInMonth(anchor.year, anchor.month)
  {
    if anchor.month == 12 {
      YearStep(anchor.year);
    } else {
      MonthStep(anchor.year, anchor.month);
    }
  }

  /** yearly keeps month and day; it is an error exactly for February 29 into a
      common year (or past year 9999). */
  lemma YearlyKeepsMonthAndDay(anchor: Date)
    requires IsValid(anchor)
    ensures NextDue(anchor, "yearly").Ok? <==>
              anchor.year < MaxYear && !(anchor.month == 2 && anchor.day == 29 && !IsLeapYear(anchor.year + 1))
    ensures NextDue(anchor, "yearly").Ok? ==>
              NextDue(anchor, "yearly").value == Date(anchor.year + 1, anchor.month, anchor.day)
  {
  }

  /** Dates a Python `datetime.replace` refuses are errors, never clamped. */
  lemma NoClamping()
    ensures NextDue(Date(2024, 1, 31), "monthly") == Err(NoSuchDate)
    ensures NextDue(Date(2023, 3, 31), "monthly") == Err(NoSuchDate)
    ensures NextDue(Date(2024, 2, 29), "yearly") == Err(NoSuchDate)
    ensures NextDue(Date(2024, 12, 31), "monthly") == Ok(Date(2025, 1, 31))
  {
    MonthlyKeepsDay(Date(2024, 1, 31));
    MonthlyKeepsDay(Date(2023, 3, 31));
    MonthlyKeepsDay(Date(2024, 12, 31));
    YearlyKeepsMonthAndDay(Date(2024, 2, 29));
  }

  /** A week after New Year's Eve is in the next year. */
  lemma WeeklyCrossesYear()
    ensures NextDue(Date(2023, 12, 31), "weekly") == Ok(Date(2024, 1, 7))
  {
    DayStepLandsOn(Date(2023, 12, 31), "weekly", Date(2024, 1, 7));
  }

  /** A day-counting frequency lands on the valid date its step away. */
  lemma DayStepLandsOn(anchor: Date, frequency: string, target: Date)
    requires IsValid(anchor) && IsValid(target) && !IsCalendarFrequency(frequency)
    requires DayNumber(target) == DayNumber(anchor) + DayStep(frequency)
    ensures NextDue(anchor, frequency) == Ok(target)
  {
    NextDueCountsDays(anchor, frequency);
    NotAfterLast(target);
    OrderIsDayOrder(NextDue(anchor, frequency).value, target);
  }

  /** A frequency the code does not know steps one day, here onto a leap day. */
  lemma UnknownFrequencyStepsOneDay()
    ensures NextDue(Date(2024, 2, 28), "fortnightly") == Ok(Date(2024, 2, 29))
  {
  }

  /** The date the next occurrence is counted from: `last_processed`, or the
      day before `start_date` when the rule has never fired. `start_date` is
      parsed first in every case. */
  function Anchor(r: Rule): (a: Result<Date, DateError>)
    ensures a.Ok? ==> IsValid(r.startDate) && IsValid(a.value)
    ensures a.Ok? && r.lastProcessed.Some? ==> a.value == r.lastProcessed.value
    ensures a.Ok? && r.lastProcessed.None? ==> DayNumber(a.value) + 1 == DayNumber(r.startDate)
    ensures a.Err? <==> || !IsValid(r.startDate)
                        || (r.lastProcessed.Some? && !IsValid(r.lastProcessed.value))
                        || (r.lastProcessed.None? && r.startDate == FirstDate)
  {
    if !IsValid(r.startDate) then Err(Malformed)
    else if r.lastProcessed.Some? then
      if IsValid(r.lastProcessed.value) then Ok(r.lastProcessed.value) else Err(Malformed)
    else PrevDay(r.startDate)
  }

  /** What the loop body does with one active rule. */
  datatype Evaluation = NotDue | Due(date: Date) | Fault(error: DateError)

  /** One iteration of the loop of `process_recurring_transactions`: the rule
      is due when its next date is not after today and it has no end date or
      its end date is not before today (today, not the due date). */
  function Evaluate(r: Rule, today: Date): Evaluation
  {
    match Anchor(r)
    case Err(err) => Fault(err)
    case Ok(a) =>
      match NextDue(a, r.frequency)
      case Err(err) => Fault(err)
      case Ok(d) =>
        if !NotAfter(d, today) then NotDue
        else if r.endDate.None? then Due(d)
        else if !IsValid(r.endDate.value) then Fault(Malformed)
        else if NotAfter(today, r.endDate.value) then Due(d)
        else NotDue
  }

  /** A due rule fires on a valid date not after today, strictly after its
      previous firing (or on or after its start), and within its end date;
      a rule that is not due has a next date after today or has ended. */
  lemma EvaluateMeaning(r: Rule, today: Date)
    ensures var e := Evaluate(r, today);
            e.Due? ==> && IsValid(e.date) && NotAfter(e.date, today)
                       && (r.lastProcessed.Some? ==> Before(r.lastProcessed.value, e.date))
                       && (r.lastProcessed.None? ==> NotAfter(r.startDate, e.date))
                       && (r.endDate.Some? ==> NotAfter(today, r.endDate.value))
    ensures var e := Evaluate(r, today);
            e.NotDue? ==> && Anchor(r).Ok? && NextDue(Anchor(r).value, r.frequency).Ok?
                          && (|| Before(today, NextDue(Anchor(r).value, r.frequency).value)
                              || (r.endDate.Some? && Before(r.endDate.value, today)))
  {
    if Evaluate(r, today).Due? {
      var a := Anchor(r).value;
      AnchorPrecedesStart(r, a, NextDue(a, r.frequency).value);
    }
  }

  lemma AnchorPrecedesStart(r: Rule, a: Date, d: Date)
    requires Anchor(r) == Ok(a) && IsValid(d) && Before(a, d)
    ensures r.lastProcessed.None? ==> NotAfter(r.startDate, d)
  {
    OrderIsDayOrder(a, d);
    OrderIsDayOrder(r.startDate, d);
  }

  /** A rule fires exactly when its anchor and next due date can be computed,
      the next due date is not after today, and an end date, if any, is a
      valid date not before today. */
  lemma FiresExactlyWhen(r: Rule, today: Date)
    ensures Evaluate(r, today).Due? <==>
              && Anchor(r).Ok?
              && NextDue(Anchor(r).value, r.frequency).Ok?
              && NotAfter(NextDue(Anchor(r).value, r.frequency).value, today)
              && (r.endDate.None? || (IsValid(r.endDate.value) && NotAfter(today, r.endDate.value)))
    ensures Evaluate(r, today).Due? ==> Evaluate(r, today).date == NextDue(Anchor(r).value, r.frequency).value
  {
  }

  /** A rule faults exactly when its start date or marker is malformed, the
      day before the start does not exist, the step from its anchor fails, or
      its next date is not after today and its end date is malformed. An end
      date is read only for a rule whose next date has come, so a malformed
      one is harmless until then. */
  lemma FaultsExactlyWhen(r: Rule, today: Date)
    ensures Evaluate(r, today).Fault? <==>
              || Anchor(r).Err?
              || (Anchor(r).Ok? && NextDue(Anchor(r).value, r.frequency).Err?)
              || (&& Anchor(r).Ok? && NextDue(Anchor(r).value, r.frequency).Ok?
                  && NotAfter(NextDue(Anchor(r).value, r.frequency).value, today)
                  && r.endDate.Some? && !IsValid(r.endDate.value))
    ensures Evaluate(r, today).Fault? && Anchor(r).Err? ==> Evaluate(r, today).error == Anchor(r).error
  {
  }

  /** A weekly rule with the impossible end date 2024-02-30 is not yet due
      on 2023-12-01, so its end date is never parsed and it does not fault. */
  lemma MalformedEndDateUnread()
    ensures var r := WeeklyRent().(endDate := Some(Date(2024, 2, 30)));
            Evaluate(r, Date(2023, 12, 1)) == NotDue
  {
    WeeklyRentFirstDue();
    OrderIsDayOrder(Date(2024, 1, 7), Date(2023, 12, 1));
  }

  /** The transaction a firing rule materializes. */
  function Materialize(r: Rule, due: Date, id: nat): Transaction
  {
    Transaction(id, due, r.description + " (Auto)", r.category, r.amount, r.kind, r.person)
  }

  /** The evaluation of every rule against today, in table order. */
  function Evaluations(rs: seq<Rule>, today: Date): (es: seq<Evaluation>)
    ensures |es| == |rs|
  {
    if rs == [] then [] else Evaluations(rs[..|rs| - 1], today) + [Evaluate(rs[|rs| - 1], today)]
  }

  /** Rule `k` is evaluated on its own. */
  lemma {:induction false} EvaluationsAt(rs: seq<Rule>, today: Date, k: nat)
    requires k < |rs|
    ensures Evaluations(rs, today)[k] == Evaluate(rs[k], today)
  {
    var n := |rs| - 1;
    var prefix := Evaluations(rs[..n], today);
    assert Evaluations(rs, today) == prefix + [Evaluate(rs[n], today)];
    if k < n {
      EvaluationsAt(rs[..n], today, k);
      assert rs[..n][k] == rs[k];
      assert Evaluations(rs, today)[k] == prefix[k];
    }
  }

  /** A rule after a run that did not stop before it: advanced to its due date
      if it is active and due, otherwise unchanged. */
  function Advanced(r: Rule, e: Evaluation): Rule
  {
    if r.active && e.Due? then r.(lastProcessed := Some(e.date)) else r
  }

  /** Only an active due rule changes, and only its marker, which moves
      strictly forward to a date not after today. */
  lemma AdvancedMovesForward(r: Rule, today: Date)
    ensures var r' := Advanced(r, Evaluate(r, today));
            && (!r.active ==> r' == r)
            && (r' != r ==> && r' == r.(lastProcessed := r'.lastProcessed)
                            && r'.lastProcessed.Some? && NotAfter(r'.lastProcessed.value, today)
                            && (r.lastProcessed.Some? ==> Before(r.lastProcessed.value, r'.lastProcessed.value)))
  {
    EvaluateMeaning(r, today);
  }

  /** The transactions a faultless run over `rs` appends, in rule order, with
      consecutive ids from `nextId`. */
  function Materialized(rs: seq<Rule>, es: seq<Evaluation>, nextId: nat): (ts: seq<Transaction>)
    requires |es| == |rs|
  {
    if rs == [] then []
    else
      var n := |rs| - 1;
      var prev := Materialized(rs[..n], es[..n], nextId);
      if rs[n].active && es[n].Due? then prev + [Materialize(rs[n], es[n].date, nextId + |prev|)]
      else prev
  }

  lemma ActiveRulesOfSnoc(rs: seq<Rule>)
    requires rs != []
    ensures |ActiveRules(rs)| == |ActiveRules(rs[..|rs| - 1])| + (if rs[|rs| - 1].active then 1 else 0)
  {
    var n := |rs| - 1;
    var init, last := rs[..n], [rs[n]];
    assert init + last == rs;
    ActiveRulesAppend(init, last);
    assert ActiveRules(last) == if rs[n].active then last else [] by {
      assert last[1..] == [];
    }
  }

  lemma {:induction false} ActiveRulesAppend(a: seq<Rule>, b: seq<Rule>)
    ensures ActiveRules(a + b) == ActiveRules(a) + ActiveRules(b)
  {
    if a != [] {
      var ab := a + b;
      assert ab != [] && ab[0] == a[0] && ab[1..] == a[1..] + b;
      ActiveRulesAppend(a[1..], b);
      var head := if a[0].active then [a[0]] else [];
      assert ActiveRules(ab) == head + (ActiveRules(a[1..]) + ActiveRules(b));
      assert ActiveRules(a) == head + ActiveRules(a[1..]);
    } else {
      assert a + b == b;
    }
  }

  /** The state of a run after the first `n` rules. */
  datatype Progress = Progress(ledger: Ledger, count: nat, fault: Option<DateError>)

  /** Firing rule number `k`: insert its transaction, then set its marker. */
  function Fire(l: Ledger, k: nat, r: Rule, due: Date): Ledger
    requires k < |l.rules|
  {
    var l' := InsertTransaction(l, due, r.description + " (Auto)", r.category, r.amount, r.kind, r.person);
    l'.(rules := l'.rules[k := r.(lastProcessed := Some(due))])
  }

  /** The loop of `process_recurring_transactions` over the first `n` rules,
      rule `k` evaluating to `es[k]` (inactive rules are not read). The first
      fault stops the run with everything done before it kept. */
  function Run(l: Ledger, es: seq<Evaluation>, n: nat): (p: Progress)
    requires |es| == |l.rules| && n <= |l.rules|
    ensures |p.ledger.rules| == |l.rules|
  {
    if n == 0 then Progress(l, 0, None)
    else
      var p := Run(l, es, n - 1);
      var r := l.rules[n - 1];
      if p.fault.Some? || !r.active then p
      else
        match es[n - 1]
        case NotDue => p
        case Fault(e) => p.(fault := Some(e))
        case Due(d) => Progress(Fire(p.ledger, n - 1, r, d), p.count + 1, None)
  }

  /** One more rule after a run that has not stopped. */
  lemma RunNextRule(l: Ledger, es: seq<Evaluation>, i: nat, before: Ledger, count: nat)
    requires |es| == |l.rules| && i < |l.rules|
    requires Run(l, es, i) == Progress(before, count, None)
    ensures var r := l.rules[i];
            Run(l, es, i + 1)
            == if r.active && es[i].Due? then Progress(Fire(before, i, r, es[i].date), count + 1, None)
               else if r.active && es[i].Fault? then Progress(before, count, Some(es[i].error))
               else Progress(before, count, None)
  {
  }

  /** A whole run of `process_recurring_transactions` on day `today`. */
  function ProcessAll(l: Ledger, today: Date): (p: Progress)
    ensures |p.ledger.rules| == |l.rules|
  {
    Run(l, Evaluations(l.rules, today), |l.rules|)
  }

  /** Firing a rule keeps ids unique and in insertion order. */
  lemma FireKeepsIds(l: Ledger, k: nat, r: Rule, due: Date)
    requires WellFormed(l) && k < |l.rules| && r.id == l.rules[k].id
    ensures WellFormed(Fire(l, k, r, due))
  {
    InsertTransactionKeepsIds(l, due, r.description + " (Auto)", r.category, r.amount, r.kind, r.person);
  }

  /** A run keeps ids unique and in insertion order. */
  lemma {:induction false} RunKeepsIds(l: Ledger, es: seq<Evaluation>, n: nat)
    requires |es| == |l.rules| && n <= |l.rules| && WellFormed(l)
    ensures WellFormed(Run(l, es, n).ledger)
  {
    if n > 0 {
      RunKeepsIds(l, es, n - 1);
      assert Run(l, es, n - 1).ledger.rules[n - 1] == l.rules[n - 1] by {
        RunShape(l, es, n - 1);
      }
      StepKeepsIds(Run(l, es, n - 1), l.rules[n - 1], es[n - 1], n - 1);
    }
  }

  /** One step of a run, on ledger `p`, keeps ids unique and in order. */
  lemma StepKeepsIds(p: Progress, r: Rule, e: Evaluation, k: nat)
    requires WellFormed(p.ledger) && k < |p.ledger.rules| && p.ledger.rules[k] == r
    ensures WellFormed(if p.fault.Some? || !r.active then p.ledger
                       else match e
                            case NotDue => p.ledger
                            case Fault(_) => p.ledger
                            case Due(d) => Fire(p.ledger, k, r, d))
  {
    if p.fault.None? && r.active && e.Due? {
      FireKeepsIds(p.ledger, k, r, e.date);
    }
  }

  /** A run only appends transactions, only touches the rules it has passed,
      counts exactly what it appends, and counts at most one per active rule. */
  lemma {:induction false} RunShape(l: Ledger, es: seq<Evaluation>, n: nat)
    requires |es| == |l.rules| && n <= |l.rules|
    ensures var p := Run(l, es, n);
            && (forall k :: n <= k < |l.rules| ==> p.ledger.rules[k] == l.rules[k])
            && p.ledger.nextRuleId == l.nextRuleId
            && |p.ledger.transactions| == |l.transactions| + p.count
            && p.ledger.transactions[..|l.transactions|] == l.transactions
            && p.ledger.nextTransactionId == l.nextTransactionId + p.count
  {
    if n > 0 {
      RunShape(l, es, n - 1);
      var p := Run(l, es, n - 1);
      if p.fault.None? && l.rules[n - 1].active && es[n - 1].Due? {
        var q := Run(l, es, n);
        assert q.ledger.transactions[..|l.transactions|]
            == p.ledger.transactions[..|p.ledger.transactions|][..|l.transactions|];
      }
    }
  }

  /** A run counts at most one firing per active rule. */
  lemma {:induction false} RunCountBound(l: Ledger, es: seq<Evaluation>, n: nat)
    requires |es| == |l.rules| && n <= |l.rules|
    ensures Run(l, es, n).count <= |ActiveRules(l.rules[..n])|
  {
    if n > 0 {
      RunCountBound(l, es, n - 1);
      assert l.rules[..n - 1] == l.rules[..n][..n - 1];
      ActiveRulesOfSnoc(l.rules[..n]);
    }
  }

  /** One step of a run that has not faulted and does not fault on rule `n - 1`. */
  lemma RunStep(l: Ledger, es: seq<Evaluation>, n: nat)
    requires |es| == |l.rules| && 0 < n <= |l.rules|
    requires Run(l, es, n).fault.None?
    ensures Run(l, es, n - 1).fault.None?
    ensures var p := Run(l, es, n - 1);
            var r := l.rules[n - 1];
            Run(l, es, n) == if r.active && es[n - 1].Due? then Progress(Fire(p.ledger, n - 1, r, es[n - 1].date), p.count + 1, None)
                             else p
  {
  }

  /** A run without a fault advances exactly the rules that are active and
      due and leaves every other rule (inactive ones included) as it was. */
  lemma {:induction false} RunAdvancesDueRules(l: Ledger, es: seq<Evaluation>, n: nat)
    requires |es| == |l.rules| && n <= |l.rules|
    requires Run(l, es, n).fault.None?
    ensures forall k :: 0 <= k < n ==> Run(l, es, n).ledger.rules[k] == Advanced(l.rules[k], es[k])
  {
    if n > 0 {
      RunStep(l, es, n);
      RunShape(l, es, n - 1);
      RunAdvancesDueRules(l, es, n - 1);
      var p := Run(l, es, n - 1);
      var q := Run(l, es, n);
      forall k | 0 <= k < n ensures q.ledger.rules[k] == Advanced(l.rules[k], es[k]) {
        if k < n - 1 {
          assert q.ledger.rules[k] == p.ledger.rules[k];
        } else {
          assert p.ledger.rules[k] == l.rules[k];
        }
      }
    }
  }

  /** A run without a fault appends exactly the transactions the due rules
      materialize, and its count is their number. */
  lemma {:induction false} RunAppendsMaterialized(l: Ledger, es: seq<Evaluation>, n: nat)
    requires |es| == |l.rules| && n <= |l.rules|
    requires Run(l, es, n).fault.None?
    ensures Run(l, es, n).ledger.transactions == l.transactions + Materialized(l.rules[..n], es[..n], l.nextTransactionId)
    ensures Run(l, es, n).count == |Materialized(l.rules[..n], es[..n], l.nextTransactionId)|
  {
    if n == 0 {
      assert l.rules[..0] == [] && es[..0] == [];
    } else {
      var p := Run(l, es, n - 1);
      RunAppendsStep(l, es, n);
      RunShape(l, es, n - 1);
      RunAppendsMaterialized(l, es, n - 1);
      MaterializedSnoc(l.rules, es, n, l.nextTransactionId);
      var prev := Materialized(l.rules[..n - 1], es[..n - 1], l.nextTransactionId);
      var r := l.rules[n - 1];
      var step := if r.active && es[n - 1].Due?
                  then [Materialize(r, es[n - 1].date, l.nextTransactionId + |prev|)] else [];
      assert p.ledger.nextTransactionId == l.nextTransactionId + |prev|;
      AppendStep(l.transactions, prev, step, p.ledger.transactions, Run(l, es, n).ledger.transactions,
                 Materialized(l.rules[..n], es[..n], l.nextTransactionId), p.count, Run(l, es, n).count);
    }
  }

  /** Appending the same step to a ledger and to what it materialized keeps them in step. */
  lemma AppendStep(base: seq<Transaction>, prev: seq<Transaction>, step: seq<Transaction>,
                   before: seq<Transaction>, after: seq<Transaction>, made: seq<Transaction>, c0: nat, c: nat)
    requires before == base + prev && c0 == |prev|
    requires after == before + step && made == prev + step && c == c0 + |step|
    ensures after == base + made && c == |made|
  {
  }

  /** One faultless step appends at most the rule's own transaction. */
  lemma RunAppendsStep(l: Ledger, es: seq<Evaluation>, n: nat)
    requires |es| == |l.rules| && 0 < n <= |l.rules|
    requires Run(l, es, n).fault.None?
    ensures var p := Run(l, es, n - 1);
            var r := l.rules[n - 1];
            var fires := r.active && es[n - 1].Due?;
            && p.fault.None?
            && Run(l, es, n).ledger.transactions
               == p.ledger.transactions + (if fires then [Materialize(r, es[n - 1].date, p.ledger.nextTransactionId)] else [])
            && Run(l, es, n).count == p.count + (if fires then 1 else 0)
  {
    RunStep(l, es, n);
    var p := Run(l, es, n - 1);
    var r := l.rules[n - 1];
    if r.active && es[n - 1].Due? {
      FireAppends(p.ledger, n - 1, r, es[n - 1].date);
    }
  }

  /** Materializing one more rule adds at most its own transaction. */
  lemma MaterializedSnoc(rs: seq<Rule>, es: seq<Evaluation>, n: nat, nextId: nat)
    requires |es| == |rs| && 0 < n <= |rs|
    ensures var prev := Materialized(rs[..n - 1], es[..n - 1], nextId);
            Materialized(rs[..n], es[..n], nextId)
            == prev + if rs[n - 1].active && es[n - 1].Due?
                      then [Materialize(rs[n - 1], es[n - 1].date, nextId + |prev|)] else []
  {
    assert rs[..n][..n - 1] == rs[..n - 1] && es[..n][..n - 1] == es[..n - 1];
  }

  /** Firing appends the rule's transaction with the next id. */
  lemma FireAppends(l: Ledger, k: nat, r: Rule, due: Date)
    requires k < |l.rules|
    ensures Fire(l, k, r, due).transactions == l.transactions + [Materialize(r, due, l.nextTransactionId)]
  {
  }

  /** A run faults exactly when some active rule before `n` evaluates to a fault. */
  lemma {:induction false} FaultIffFaultyRule(l: Ledger, es: seq<Evaluation>, n: nat)
    requires |es| == |l.rules| && n <= |l.rules|
    ensures Run(l, es, n).fault.Some? <==> exists k :: 0 <= k < n && l.rules[k].active && es[k].Fault?
  {
    if n > 0 {
      FaultIffFaultyRule(l, es, n - 1);
    }
  }

  /** A fault at the first faulty active rule `f` leaves the ledger exactly as
      a run over the rules before `f` leaves it. */
  lemma {:induction false} FaultKeepsEarlierWork(l: Ledger, es: seq<Evaluation>, n: nat, f: nat)
    requires |es| == |l.rules| && f < n <= |l.rules|
    requires l.rules[f].active && es[f].Fault?
    requires forall k :: 0 <= k < f ==> !(l.rules[k].active && es[k].Fault?)
    ensures Run(l, es, n).ledger == Run(l, es, f).ledger
    ensures Run(l, es, n).count == Run(l, es, f).count
    ensures Run(l, es, n).fault == Some(es[f].error)
  {
    FaultIffFaultyRule(l, es, f);
    if n > f + 1 {
      FaultKeepsEarlierWork(l, es, n - 1, f);
    }
  }

  /** The rule of the weekly scenario below. */
  function WeeklyRent(): Rule
  {
    Rule(1, "Rent", "Housing", 500, "Expense", "Ann", "weekly", Date(2024, 1, 1), None, None, true)
  }

  /** A weekly rule starting 2024-01-01 (anchor 2023-12-31), run on
      2024-01-10, fires once, on 2024-01-07. */
  lemma WeeklyScenarioFirstRun()
    ensures var first := ProcessAll(Ledger([], [WeeklyRent()], 1, 2), Date(2024, 1, 10));
            && first.fault.None? && first.count == 1
            && first.ledger.transactions
               == [Transaction(1, Date(2024, 1, 7), "Rent (Auto)", "Housing", 500, "Expense", "Ann")]
            && first.ledger.rules == [WeeklyRent().(lastProcessed := Some(Date(2024, 1, 7)))]
            && first.ledger.nextTransactionId == 2 && first.ledger.nextRuleId == 2
  {
    var rule := WeeklyRent();
    var due := Date(2024, 1, 7);
    WeeklyRentFirstDue();
    var l := Ledger([], [rule], 1, 2);
    var es := Evaluations(l.rules, Date(2024, 1, 10));
    assert es == [Due(due)];
    assert Run(l, es, 0) == Progress(l, 0, None);
    assert Run(l, es, 1) == Progress(Fire(l, 0, rule, due), 1, None);
    WeeklyRentFired();
  }

  /** Firing the never-fired rule on 2024-01-07 in an empty ledger. */
  lemma WeeklyRentFired()
    ensures Fire(Ledger([], [WeeklyRent()], 1, 2), 0, WeeklyRent(), Date(2024, 1, 7))
            == Ledger([Transaction(1, Date(2024, 1, 7), "Rent (Auto)", "Housing", 500, "Expense", "Ann")],
                      [WeeklyRent().(lastProcessed := Some(Date(2024, 1, 7)))], 2, 2)
  {
    assert "Rent" + " (Auto)" == "Rent (Auto)";
  }

  /** Never fired, the rule anchors on 2023-12-31 and is first due 2024-01-07. */
  lemma WeeklyRentFirstDue()
    ensures Evaluate(WeeklyRent(), Date(2024, 1, 10)) == Due(Date(2024, 1, 7))
  {
    assert Anchor(WeeklyRent()) == Ok(Date(2023, 12, 31));
    WeeklyCrossesYear();
  }

  /** Fired on 2024-01-07, the rule is next due a week later. */
  lemma WeeklyRentAfterSeventh()
    ensures NextDue(Date(2024, 1, 7), "weekly") == Ok(Date(2024, 1, 14))
  {
    DayStepLandsOn(Date(2024, 1, 7), "weekly", Date(2024, 1, 14));
  }

  /** Run again on the same day, the advanced rule is not due: nothing is
      created and nothing changes. */
  lemma WeeklyScenarioSecondRun(l: Ledger)
    requires l.rules == [WeeklyRent().(lastProcessed := Some(Date(2024, 1, 7)))]
    ensures ProcessAll(l, Date(2024, 1, 10)) == Progress(l, 0, None)
  {
    var today := Date(2024, 1, 10);
    var fired := l.rules[0];
    WeeklyRentAfterSeventh();
    assert Evaluate(fired, today) == NotDue;
    var es := Evaluations(l.rules, today);
    assert es == [NotDue];
    assert Run(l, es, 0) == Progress(l, 0, None);
  }

  /** No catch-up: a rule more than one period behind fires once per run, so
      a second run on the same day fires again. Started 2024-01-01 and run
      twice on 2024-01-20, the weekly rule fires 2024-01-07, then 2024-01-14. */
  lemma OnePeriodPerRun(l: Ledger)
    requires l.rules == [WeeklyRent().(lastProcessed := Some(Date(2024, 1, 7)))]
    ensures var second := ProcessAll(l, Date(2024, 1, 20));
            && second.count == 1
            && second.ledger.rules == [WeeklyRent().(lastProcessed := Some(Date(2024, 1, 14)))]
  {
    var today := Date(2024, 1, 20);
    WeeklyRentAfterSeventh();
    assert Evaluate(l.rules[0], today) == Due(Date(2024, 1, 14));
    var es := Evaluations(l.rules, today);
    assert es == [Due(Date(2024, 1, 14))];
    assert Run(l, es, 0) == Progress(l, 0, None);
  }
}
