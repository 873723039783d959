/** The two tables of the budget database, the filtered and ordered read of
    the transactions table, and the read of the active recurring rules. */
module Ledger {
  import opened Wrappers
  import opened Dates

  /** A row of `transactions`. `kind` is the `type` column; amounts are cents. */
  datatype Transaction = Transaction(
    id: nat,
    date: Date,
    description: string,
    category: string,
    amount: int,
    kind: string,
    person: string)

  /** A row of `recurring_transactions`. */
  datatype Rule = Rule(
    id: nat,
    description: string,
    category: string,
    amount: int,
    kind: string,
    person: string,
    frequency: string,
    startDate: Date,
    endDate: Option<Date>,
    lastProcessed: Option<Date>,
    active: bool)

  /** The whole database: both tables in id order and the next id each
      AUTOINCREMENT column will hand out (never reused, even after a DELETE). */
  datatype Ledger = Ledger(
    transactions: seq<Transaction>,
    rules: seq<Rule>,
    nextTransactionId: nat,
    nextRuleId: nat)

  ghost predicate TransactionIdsIncrease(ts: seq<Transaction>, next: nat)
  {
    && (forall i, j :: 0 <= i < j < |ts| ==> ts[i].id < ts[j].id)
    && (forall i :: 0 <= i < |ts| ==> ts[i].id < next)
  }

  ghost predicate RuleIdsIncrease(rs: seq<Rule>, next: nat)
  {
    && (forall i, j :: 0 <= i < j < |rs| ==> rs[i].id < rs[j].id)
    && (forall i :: 0 <= i < |rs| ==> rs[i].id < next)
  }

  /** Ids are unique and assigned in insertion order. */
  ghost predicate WellFormed(l: Ledger)
  {
    TransactionIdsIncrease(l.transactions, l.nextTransactionId) && RuleIdsIncrease(l.rules, l.nextRuleId)
  }

  /** `add_transaction`: a new row with the next id, appended. */
  function InsertTransaction(l: Ledger, date: Date, description: string, category: string,
                             amount: int, kind: string, person: string): (r: Ledger)
    ensures r.rules == l.rules && r.nextRuleId == l.nextRuleId
    ensures |r.transactions| == |l.transactions| + 1 && r.transactions[..|l.transactions|] == l.transactions
    ensures r.transactions[|l.transactions|]
         == Transaction(l.nextTransactionId, date, description, category, amount, kind, person)
    ensures r.nextTransactionId > l.nextTransactionId
  {
    var t := Transaction(l.nextTransactionId, date, description, category, amount, kind, person);
    assert (l.transactions + [t])[..|l.transactions|] == l.transactions;
    l.(transactions := l.transactions + [t], nextTransactionId := l.nextTransactionId + 1)
  }

  /** `add_recurring_transaction`: a new active rule that has never fired. */
  function InsertRule(l: Ledger, description: string, category: string, amount: int, kind: string,
                      person: string, frequency: string, startDate: Date, endDate: Option<Date>): (r: Ledger)
    ensures r.transactions == l.transactions && r.nextTransactionId == l.nextTransactionId
    ensures |r.rules| == |l.rules| + 1 && r.rules[..|l.rules|] == l.rules
    ensures r.rules[|l.rules|] == Rule(l.nextRuleId, description, category, amount, kind, person,
                                       frequency, startDate, endDate, None, true)
    ensures r.nextRuleId > l.nextRuleId
  {
    var rule := Rule(l.nextRuleId, description, category, amount, kind, person,
                     frequency, startDate, endDate, None, true);
    assert (l.rules + [rule])[..|l.rules|] == l.rules;
    l.(rules := l.rules + [rule], nextRuleId := l.nextRuleId + 1)
  }

  /** Inserting keeps ids unique and in insertion order. */
  lemma InsertTransactionKeepsIds(l: Ledger, date: Date, description: string, category: string,
                                  amount: int, kind: string, person: string)
    requires WellFormed(l)
    ensures WellFormed(InsertTransaction(l, date, description, category, amount, kind, person))
  {
  }

  lemma InsertRuleKeepsIds(l: Ledger, description: string, category: string, amount: int, kind: string,
                           person: string, frequency: string, startDate: Date, endDate: Option<Date>)
    requires WellFormed(l)
    ensures WellFormed(InsertRule(l, description, category, amount, kind, person, frequency, startDate, endDate))
  {
  }

  /** `get_recurring_transactions`: the active rules, in id order. */
  function ActiveRules(rs: seq<Rule>): (r: seq<Rule>)
    ensures |r| <= |rs|
  {
    if rs == [] then []
    else if rs[0].active then [rs[0]] + ActiveRules(rs[1..])
    else ActiveRules(rs[1..])
  }

  /** A rule is returned exactly when it is stored and active. */
  lemma {:induction false} ActiveRulesMembers(rs: seq<Rule>)
    ensures forall x :: x in ActiveRules(rs) <==> x in rs && x.active
  {
    if rs != [] {
      ActiveRulesMembers(rs[1..]);
      assert rs == [rs[0]] + rs[1..];
    }
  }

  /** `ORDER BY id`: on a table whose ids increase in storage order, the
      active rules come back in increasing id order. */
  lemma {:induction false} ActiveRulesById(rs: seq<Rule>)
    requires forall i, j :: 0 <= i < j < |rs| ==> rs[i].id < rs[j].id
    ensures forall i, j :: 0 <= i < j < |ActiveRules(rs)| ==> ActiveRules(rs)[i].id < ActiveRules(rs)[j].id
  {
    if rs != [] {
      var tail := rs[1..];
      ActiveRulesById(tail);
      if rs[0].active {
        var r, rt := ActiveRules(rs), ActiveRules(tail);
        ActiveRulesAbove(tail, rs[0].id);
        assert r == [rs[0]] + rt;
        forall i, j | 0 <= i < j < |r| ensures r[i].id < r[j].id {
          assert r[j] == rt[j - 1];
          if i > 0 {
            assert r[i] == rt[i - 1];
          }
        }
      }
    }
  }

  lemma {:induction false} ActiveRulesAbove(rs: seq<Rule>, low: int)
    requires forall k :: 0 <= k < |rs| ==> rs[k].id > low
    ensures forall k :: 0 <= k < |ActiveRules(rs)| ==> ActiveRules(rs)[k].id > low
  {
    if rs != [] {
      ActiveRulesAbove(rs[1..], low);
      if rs[0].active {
        var r, rt := ActiveRules(rs), ActiveRules(rs[1..]);
        assert r == [rs[0]] + rt;
        forall k | 0 < k < |r| ensures r[k].id > low {
          assert r[k] == rt[k - 1];
        }
      }
    }
  }

  /** The optional filters of `get_transactions`. A missing or empty text
      (Python's falsy `''`) imposes no constraint. */
  datatype Filter = Filter(
    start: Option<Date>,
    end: Option<Date>,
    category: Option<string>,
    person: Option<string>,
    kind: Option<string>)

  const NoFilter: Filter := Filter(None, None, None, None, None)

  predicate TextMatches(want: Option<string>, have: string)
  {
    want.None? || want.value == "" || want.value == have
  }

  /** The WHERE clause: a conjunction of the filters that are present. */
  predicate Matches(f: Filter, t: Transaction)
  {
    && (f.start.None? || NotAfter(f.start.value, t.date))
    && (f.end.None? || NotAfter(t.date, f.end.value))
    && TextMatches(f.category, t.category)
    && TextMatches(f.person, t.person)
    && TextMatches(f.kind, t.kind)
  }

  function Select(ts: seq<Transaction>, f: Filter): (r: seq<Transaction>)
    ensures forall t :: t in r <==> t in ts && Matches(f, t)
    ensures multiset(r) <= multiset(ts)
  {
    if ts == [] then []
    else
      assert ts == [ts[0]] + ts[1..];
      if Matches(f, ts[0]) then [ts[0]] + Select(ts[1..], f)
      else Select(ts[1..], f)
  }

  /** Each matching row is selected exactly as often as it is stored, and no
      other row is selected. */
  lemma {:induction false} SelectCounts(ts: seq<Transaction>, f: Filter)
    ensures forall t :: multiset(Select(ts, f))[t] == if Matches(f, t) then multiset(ts)[t] else 0
  {
    if ts != [] {
      SelectCounts(ts[1..], f);
      assert ts == [ts[0]] + ts[1..];
    }
  }

  /** `ORDER BY date DESC, id DESC`: `a` may come before `b`. */
  predicate NewerOrSame(a: Transaction, b: Transaction)
  {
    Before(b.date, a.date) || (a.date == b.date && a.id >= b.id)
  }

  ghost predicate NewestFirst(s: seq<Transaction>)
  {
    forall i, j :: 0 <= i < j < |s| ==> NewerOrSame(s[i], s[j])
  }

  lemma NewerIsTotalPreorder(a: Transaction, b: Transaction, c: Transaction)
    ensures NewerOrSame(a, b) || NewerOrSame(b, a)
    ensures NewerOrSame(a, b) && NewerOrSame(b, c) ==> NewerOrSame(a, c)
  {
  }

  function InsertNewest(x: Transaction, s: seq<Transaction>): (r: seq<Transaction>)
    requires NewestFirst(s)
    ensures NewestFirst(r)
    ensures multiset(r) == multiset(s) + multiset{x}
  {
    if s == [] then [x]
    else if NewerOrSame(x, s[0]) then
      LeadsAll(x, s);
      [x] + s
    else
      var rest := InsertNewest(x, s[1..]);
      assert s == [s[0]] + s[1..];
      NewerIsTotalPreorder(x, s[0], x);
      assert rest[0] in multiset(rest);
      assert rest[0] == x || rest[0] in s[1..];
      LeadsAll(s[0], rest);
      [s[0]] + rest
  }

  /** Prepending a row at least as new as the head keeps a list newest first. */
  lemma LeadsAll(x: Transaction, s: seq<Transaction>)
    requires NewestFirst(s)
    requires s != [] ==> NewerOrSame(x, s[0])
    ensures NewestFirst([x] + s)
  {
    var r := [x] + s;
    forall i, j | 0 <= i < j < |r| ensures NewerOrSame(r[i], r[j]) {
      if i == 0 {
        NewerIsTotalPreorder(x, s[0], s[j - 1]);
      }
    }
  }

  /** The sort the database performs for `ORDER BY date DESC, id DESC`. */
  function SortNewestFirst(s: seq<Transaction>): (r: seq<Transaction>)
    ensures NewestFirst(r)
    ensures multiset(r) == multiset(s)
  {
    if s == [] then []
    else
      assert s == [s[0]] + s[1..];
      InsertNewest(s[0], SortNewestFirst(s[1..]))
  }

  /** `get_transactions(filters)`. */
  function Query(ts: seq<Transaction>, f: Filter): seq<Transaction>
  {
    SortNewestFirst(Select(ts, f))
  }

  /** The query returns exactly the matching rows, each as often as it is
      stored, newest first. */
  lemma QueryIsFilteredAndOrdered(ts: seq<Transaction>, f: Filter)
    ensures forall t :: t in Query(ts, f) <==> t in ts && Matches(f, t)
    ensures multiset(Query(ts, f)) == multiset(Select(ts, f)) <= multiset(ts)
    ensures forall t :: multiset(Query(ts, f))[t] == if Matches(f, t) then multiset(ts)[t] else 0
    ensures NewestFirst(Query(ts, f))
  {
    var r := Query(ts, f);
    SelectCounts(ts, f);
    forall t ensures t in r <==> t in ts && Matches(f, t) {
      assert t in r <==> t in multiset(r);
      assert t in Select(ts, f) <==> t in multiset(Select(ts, f));
    }
  }

  /** Without a filter the query is a reordering of the whole table. */
  lemma QueryAllIsPermutation(ts: seq<Transaction>)
    ensures multiset(Query(ts, NoFilter)) == multiset(ts)
  {
    SelectAll(ts);
  }

  lemma {:induction false} SelectAll(ts: seq<Transaction>)
    ensures Select(ts, NoFilter) == ts
  {
    if ts != [] {
      SelectAll(ts[1..]);
      assert ts == [ts[0]] + ts[1..];
    }
  }

  /** With unique ids the order is strict, so the result holds no row twice. */
  lemma QueryIsStrict(ts: seq<Transaction>, f: Filter)
    requires forall i, j :: 0 <= i < j < |ts| ==> ts[i].id != ts[j].id
    ensures forall i, j :: 0 <= i < j < |Query(ts, f)| ==>
              Before(Query(ts, f)[j].date, Query(ts, f)[i].date)
              || (Query(ts, f)[i].date == Query(ts, f)[j].date && Query(ts, f)[i].id > Query(ts, f)[j].id)
  {
    var r := Query(ts, f);
    QueryIsFilteredAndOrdered(ts, f);
    forall i, j | 0 <= i < j < |r|
      ensures Before(r[j].date, r[i].date) || (r[i].date == r[j].date && r[i].id > r[j].id)
    {
      assert NewerOrSame(r[i], r[j]);
      if r[i].id == r[j].id {
        assert r[i] in ts && r[j] in ts;
        UniqueIdsSameRow(ts, r[i], r[j]);
        DistinctPositions(r, ts, i, j);
      }
    }
  }

  lemma UniqueIdsSameRow(ts: seq<Transaction>, a: Transaction, b: Transaction)
    requires forall i, j :: 0 <= i < j < |ts| ==> ts[i].id != ts[j].id
    requires a in ts && b in ts && a.id == b.id
    ensures a == b
  {
  }

  /** A row stored once cannot sit at two positions of a sub-multiset. */
  lemma DistinctPositions(r: seq<Transaction>, ts: seq<Transaction>, i: int, j: int)
    requires forall a, b :: 0 <= a < b < |ts| ==> ts[a].id != ts[b].id
    requires multiset(r) <= multiset(ts)
    requires 0 <= i < j < |r|
    ensures r[i] != r[j]
  {
    if r[i] == r[j] {
      var x := r[i];
      assert multiset(r)[x] >= 2 by {
        assert r == r[..i] + [x] + r[i+1..j] + [x] + r[j+1..];
      }
      OnceInUnique(ts, x);
      assert false;
    }
  }

  lemma {:induction false} OnceInUnique(ts: seq<Transaction>, x: Transaction)
    requires forall a, b :: 0 <= a < b < |ts| ==> ts[a].id != ts[b].id
    ensures multiset(ts)[x] <= 1
  {
    if ts != [] {
      OnceInUnique(ts[1..], x);
      assert ts == [ts[0]] + ts[1..];
      if ts[0] == x {
        assert x !in ts[1..];
      }
    }
  }
}
