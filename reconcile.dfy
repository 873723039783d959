/** Snapshots of the database and how importing one changes it: replace mode
    clears both tables and loads the snapshot, merge mode skips records that
    look like ones already stored. */
module Reconcile {
  import opened Wrappers
  import opened Dates
  import opened Ledger

  /** The exported document: the transactions newest first, the active rules
      in id order, the export time and the format version. */
  datatype Snapshot = Snapshot(
    transactions: seq<Transaction>,
    rules: seq<Rule>,
    exportDate: string,
    version: string)

  const FormatVersion: string := "1.0"

  /** `export_data`: every transaction (unfiltered) and every active rule. */
  function Export(l: Ledger, exportDate: string): (s: Snapshot)
    ensures multiset(s.transactions) == multiset(l.transactions)
    ensures NewestFirst(s.transactions)
    ensures forall r :: r in s.rules <==> r in l.rules && r.active
    ensures WellFormed(l) ==> forall i, j :: 0 <= i < j < |s.rules| ==> s.rules[i].id < s.rules[j].id
    ensures s.version == FormatVersion
  {
    assert WellFormed(l) ==> forall i, j :: 0 <= i < j < |ActiveRules(l.rules)| ==>
                               ActiveRules(l.rules)[i].id < ActiveRules(l.rules)[j].id by {
      if WellFormed(l) {
        ActiveRulesById(l.rules);
      }
    }
    QueryAllIsPermutation(l.transactions);
    QueryIsFilteredAndOrdered(l.transactions, NoFilter);
    ActiveRulesMembers(l.rules);
    Snapshot(Query(l.transactions, NoFilter), ActiveRules(l.rules), exportDate, FormatVersion)
  }

  /** The merge key for transactions: same date, description and amount
      (the category is not compared). */
  predicate IsTwin(t: Transaction, x: Transaction)
  {
    t.date == x.date && t.description == x.description && t.amount == x.amount
  }

  predicate HasTwin(ts: seq<Transaction>, x: Transaction)
  {
    exists t :: t in ts && IsTwin(t, x)
  }

  /** The merge key for rules: same description, type and frequency. */
  predicate IsRuleTwin(r: Rule, x: Rule)
  {
    r.description == x.description && r.kind == x.kind && r.frequency == x.frequency
  }

  /** Some active stored rule has the same merge key. */
  predicate HasActiveTwin(rs: seq<Rule>, x: Rule)
  {
    exists r :: r in rs && r.active && IsRuleTwin(r, x)
  }

  /** The filter the merge uses to fetch the rows of one day. */
  function DayFilter(d: Date): Filter
  {
    Filter(Some(d), Some(d), None, None, None)
  }

  /** Looking for a twin among the rows the day query returns is the same as
      looking for it in the whole table. */
  lemma DayQueryFindsTwins(ts: seq<Transaction>, x: Transaction)
    ensures (exists t :: t in Query(ts, DayFilter(x.date)) && IsTwin(t, x)) <==> HasTwin(ts, x)
  {
    QueryIsFilteredAndOrdered(ts, DayFilter(x.date));
    if HasTwin(ts, x) {
      var t :| t in ts && IsTwin(t, x);
      assert Matches(DayFilter(x.date), t);
    }
  }

  /** Looking among the active rules is the same as looking among the rows
      with the active flag set. */
  lemma ActiveQueryFindsTwins(rs: seq<Rule>, x: Rule)
    ensures (exists r :: r in ActiveRules(rs) && IsRuleTwin(r, x)) <==> HasActiveTwin(rs, x)
  {
    ActiveRulesMembers(rs);
  }

  /** The transactions loop of `import_data` over `incoming`. */
  function ImportTransactions(l: Ledger, incoming: seq<Transaction>, merge: bool): (r: Ledger)
    ensures r.rules == l.rules && r.nextRuleId == l.nextRuleId
  {
    if incoming == [] then l
    else
      var n := |incoming| - 1;
      ImportTransaction(ImportTransactions(l, incoming[..n], merge), incoming[n], merge)
  }

  /** One pass of the transactions loop of `import_data`. */
  function ImportTransaction(p: Ledger, x: Transaction, merge: bool): (r: Ledger)
    ensures r.rules == p.rules && r.nextRuleId == p.nextRuleId
    ensures r == p <==> merge && HasTwin(p.transactions, x)
    ensures r != p ==> r.transactions == p.transactions + [Renumbered(x, p.nextTransactionId)]
                       && r.nextTransactionId == p.nextTransactionId + 1
  {
    if merge && HasTwin(p.transactions, x) then p
    else InsertTransaction(p, x.date, x.description, x.category, x.amount, x.kind, x.person)
  }

  /** Importing one more row extends the import of the rows before it. */
  lemma ImportTransactionsStep(l: Ledger, incoming: seq<Transaction>, i: nat, merge: bool)
    requires i < |incoming|
    ensures ImportTransactions(l, incoming[..i + 1], merge)
            == ImportTransaction(ImportTransactions(l, incoming[..i], merge), incoming[i], merge)
  {
    assert incoming[..i + 1][..i] == incoming[..i];
  }

  /** The recurring-rules loop of `import_data` over `incoming`. Only the
      template, frequency and dates are carried; the new rule is active and
      has never fired. */
  function ImportRules(l: Ledger, incoming: seq<Rule>, merge: bool): (r: Ledger)
    ensures r.transactions == l.transactions && r.nextTransactionId == l.nextTransactionId
  {
    if incoming == [] then l
    else
      var n := |incoming| - 1;
      ImportRule(ImportRules(l, incoming[..n], merge), incoming[n], merge)
  }

  /** One pass of the recurring-rules loop of `import_data`. */
  function ImportRule(p: Ledger, x: Rule, merge: bool): (r: Ledger)
    ensures r.transactions == p.transactions && r.nextTransactionId == p.nextTransactionId
    ensures r == p <==> merge && HasActiveTwin(p.rules, x)
    ensures r != p ==> r.rules == p.rules + [Reloaded(x, p.nextRuleId)] && r.nextRuleId == p.nextRuleId + 1
  {
    if merge && HasActiveTwin(p.rules, x) then p
    else InsertRule(p, x.description, x.category, x.amount, x.kind, x.person, x.frequency, x.startDate, x.endDate)
  }

  /** Importing one more rule extends the import of the rules before it. */
  lemma ImportRulesStep(l: Ledger, incoming: seq<Rule>, j: nat, merge: bool)
    requires j < |incoming|
    ensures ImportRules(l, incoming[..j + 1], merge) == ImportRule(ImportRules(l, incoming[..j], merge), incoming[j], merge)
  {
    assert incoming[..j + 1][..j] == incoming[..j];
  }

  /** `DELETE FROM` both tables; AUTOINCREMENT counters are kept. */
  function Cleared(l: Ledger): Ledger
  {
    l.(transactions := [], rules := [])
  }

  /** A successful `import_data`. */
  function ImportSnapshot(l: Ledger, s: Snapshot, merge: bool): Ledger
  {
    var base := if merge then l else Cleared(l);
    ImportRules(ImportTransactions(base, s.transactions, merge), s.rules, merge)
  }

  /** The incoming row with a fresh id. */
  function Renumbered(x: Transaction, id: nat): Transaction
  {
    x.(id := id)
  }

  /** The incoming rule as `add_recurring_transaction` stores it. */
  function Reloaded(x: Rule, id: nat): Rule
  {
    x.(id := id, lastProcessed := None, active := true)
  }

  // ---------------------------------------------------------------------
  // Merge mode

  /** Merging only appends. */
  lemma {:induction false} MergeTransactionsAppend(l: Ledger, incoming: seq<Transaction>, merge: bool)
    ensures var r := ImportTransactions(l, incoming, merge);
            |l.transactions| <= |r.transactions| && r.transactions[..|l.transactions|] == l.transactions
            && r.nextTransactionId >= l.nextTransactionId
  {
    if incoming != [] {
      var n := |incoming| - 1;
      MergeTransactionsAppend(l, incoming[..n], merge);
    }
  }

  lemma {:induction false} MergeRulesAppend(l: Ledger, incoming: seq<Rule>, merge: bool)
    ensures var r := ImportRules(l, incoming, merge);
            |l.rules| <= |r.rules| && r.rules[..|l.rules|] == l.rules && r.nextRuleId >= l.nextRuleId
  {
    if incoming != [] {
      var n := |incoming| - 1;
      MergeRulesAppend(l, incoming[..n], merge);
    }
  }

  /** After the transactions loop every incoming row has a twin in the table,
      in either mode. */
  lemma {:induction false} ImportCoversTransactions(l: Ledger, incoming: seq<Transaction>, merge: bool)
    ensures forall x :: x in incoming ==> HasTwin(ImportTransactions(l, incoming, merge).transactions, x)
  {
    if incoming != [] {
      var n := |incoming| - 1;
      var p := ImportTransactions(l, incoming[..n], merge);
      var r := ImportTransactions(l, incoming, merge);
      ImportCoversTransactions(l, incoming[..n], merge);
      MergeTransactionsAppend(p, [incoming[n]], merge);
      assert [incoming[n]][..0] == [];
      assert ImportTransactions(p, [incoming[n]], merge) == r;
      forall x | x in incoming ensures HasTwin(r.transactions, x) {
        if x in incoming[..n] {
          var t :| t in p.transactions && IsTwin(t, x);
          assert t in r.transactions[..|p.transactions|];
        } else {
          assert x == incoming[n];
          if !(merge && HasTwin(p.transactions, x)) {
            assert r.transactions[|p.transactions|] in r.transactions;
          }
        }
      }
    }
  }

  /** After the rules loop every incoming rule has an active twin, in either mode. */
  lemma {:induction false} ImportCoversRules(l: Ledger, incoming: seq<Rule>, merge: bool)
    ensures forall x :: x in incoming ==> HasActiveTwin(ImportRules(l, incoming, merge).rules, x)
  {
    if incoming != [] {
      var n := |incoming| - 1;
      var p := ImportRules(l, incoming[..n], merge);
      var r := ImportRules(l, incoming, merge);
      ImportCoversRules(l, incoming[..n], merge);
      MergeRulesAppend(p, [incoming[n]], merge);
      assert [incoming[n]][..0] == [];
      assert ImportRules(p, [incoming[n]], merge) == r;
      forall x | x in incoming ensures HasActiveTwin(r.rules, x) {
        if x in incoming[..n] {
          var t :| t in p.rules && t.active && IsRuleTwin(t, x);
          assert t in r.rules[..|p.rules|];
        } else {
          assert x == incoming[n];
          if !(merge && HasActiveTwin(p.rules, x)) {
            assert r.rules[|p.rules|] in r.rules;
          }
        }
      }
    }
  }

  /** A merge appends no row that has a twin anywhere before it: neither the
      stored rows nor rows appended earlier by the same import. */
  lemma {:induction false} MergeAddsNoTwins(l: Ledger, incoming: seq<Transaction>)
    ensures var r := ImportTransactions(l, incoming, true).transactions;
            forall i, j :: 0 <= i < j < |r| && |l.transactions| <= j ==> !IsTwin(r[i], r[j])
  {
    if incoming != [] {
      var n := |incoming| - 1;
      var p := ImportTransactions(l, incoming[..n], true);
      var r := ImportTransactions(l, incoming, true);
      MergeAddsNoTwins(l, incoming[..n]);
      MergeTransactionsAppend(l, incoming[..n], true);
      if !HasTwin(p.transactions, incoming[n]) {
        var x := incoming[n];
        forall i, j | 0 <= i < j < |r.transactions| && |l.transactions| <= j
          ensures !IsTwin(r.transactions[i], r.transactions[j])
        {
          if j == |p.transactions| {
            assert r.transactions[i] in p.transactions;
          } else {
            assert r.transactions[i] == p.transactions[i] && r.transactions[j] == p.transactions[j];
          }
        }
      }
    }
  }

  /** Every row a merge or a replace appends is an incoming row with a fresh
      id; every rule it appends is an incoming rule, active and never fired. */
  lemma {:induction false} ImportAppendsCopies(l: Ledger, incoming: seq<Transaction>, merge: bool)
    ensures var r := ImportTransactions(l, incoming, merge);
            forall j :: |l.transactions| <= j < |r.transactions| ==>
              exists x :: x in incoming && r.transactions[j] == Renumbered(x, r.transactions[j].id)
  {
    if incoming != [] {
      var n := |incoming| - 1;
      var p := ImportTransactions(l, incoming[..n], merge);
      var r := ImportTransactions(l, incoming, merge);
      ImportAppendsCopies(l, incoming[..n], merge);
      MergeTransactionsAppend(l, incoming[..n], merge);
      forall j | |l.transactions| <= j < |r.transactions|
        ensures exists x :: x in incoming && r.transactions[j] == Renumbered(x, r.transactions[j].id)
      {
        if j < |p.transactions| {
          assert r.transactions[j] == p.transactions[j];
          var x :| x in incoming[..n] && p.transactions[j] == Renumbered(x, p.transactions[j].id);
        } else {
          assert r.transactions[j] == Renumbered(incoming[n], r.transactions[j].id);
        }
      }
    }
  }

  lemma {:induction false} ImportAppendsReloadedRules(l: Ledger, incoming: seq<Rule>, merge: bool)
    ensures var r := ImportRules(l, incoming, merge);
            forall j :: |l.rules| <= j < |r.rules| ==>
              exists x :: x in incoming && r.rules[j] == Reloaded(x, r.rules[j].id)
  {
    if incoming != [] {
      var n := |incoming| - 1;
      var p := ImportRules(l, incoming[..n], merge);
      var r := ImportRules(l, incoming, merge);
      ImportAppendsReloadedRules(l, incoming[..n], merge);
      MergeRulesAppend(l, incoming[..n], merge);
      forall j | |l.rules| <= j < |r.rules|
        ensures exists x :: x in incoming && r.rules[j] == Reloaded(x, r.rules[j].id)
      {
        if j < |p.rules| {
          assert r.rules[j] == p.rules[j];
          var x :| x in incoming[..n] && p.rules[j] == Reloaded(x, p.rules[j].id);
        } else {
          assert r.rules[j] == Reloaded(incoming[n], r.rules[j].id);
        }
      }
    }
  }

  /** Merging rows that all have twins already changes nothing. */
  lemma {:induction false} MergeOfKnownRowsIsNoOp(l: Ledger, incoming: seq<Transaction>)
    requires forall x :: x in incoming ==> HasTwin(l.transactions, x)
    ensures ImportTransactions(l, incoming, true) == l
  {
    if incoming != [] {
      var n := |incoming| - 1;
      MergeOfKnownRowsIsNoOp(l, incoming[..n]);
    }
  }

  lemma {:induction false} MergeOfKnownRulesIsNoOp(l: Ledger, incoming: seq<Rule>)
    requires forall x :: x in incoming ==> HasActiveTwin(l.rules, x)
    ensures ImportRules(l, incoming, true) == l
  {
    if incoming != [] {
      var n := |incoming| - 1;
      MergeOfKnownRulesIsNoOp(l, incoming[..n]);
    }
  }

  /** Merge-importing the same snapshot a second time changes nothing. */
  lemma MergeIsIdempotent(l: Ledger, s: Snapshot)
    ensures ImportSnapshot(ImportSnapshot(l, s, true), s, true) == ImportSnapshot(l, s, true)
  {
    var t := ImportTransactions(l, s.transactions, true);
    var m := ImportRules(t, s.rules, true);
    ImportCoversTransactions(l, s.transactions, true);
    ImportCoversRules(t, s.rules, true);
    MergeOfKnownRowsIsNoOp(m, s.transactions);
    MergeOfKnownRulesIsNoOp(m, s.rules);
  }

  /** Merging never removes or alters a stored row or rule. */
  lemma MergeNeverShrinks(l: Ledger, s: Snapshot)
    ensures var r := ImportSnapshot(l, s, true);
            && |l.transactions| <= |r.transactions| && |l.rules| <= |r.rules|
            && r.transactions[..|l.transactions|] == l.transactions
            && r.rules[..|l.rules|] == l.rules
  {
    MergeTransactionsAppend(l, s.transactions, true);
    MergeRulesAppend(ImportTransactions(l, s.transactions, true), s.rules, true);
  }

  // ---------------------------------------------------------------------
  // Replace mode

  /** Appending does not change a prefix. */
  lemma PrefixOfAppend<T>(a: seq<T>, b: seq<T>, m: nat)
    requires m <= |a|
    ensures (a + b)[..m] == a[..m]
  {
  }

  lemma {:induction false} ReplaceLoadsTransactions(l: Ledger, incoming: seq<Transaction>)
    ensures var r := ImportTransactions(l, incoming, false);
            && |r.transactions| == |l.transactions| + |incoming|
            && r.transactions[..|l.transactions|] == l.transactions
            && r.nextTransactionId == l.nextTransactionId + |incoming|
            && forall k :: 0 <= k < |incoming| ==>
                 r.transactions[|l.transactions| + k] == Renumbered(incoming[k], l.nextTransactionId + k)
  {
    if incoming != [] {
      var n := |incoming| - 1;
      var p := ImportTransactions(l, incoming[..n], false);
      var r := ImportTransactions(l, incoming, false);
      ReplaceLoadsTransactions(l, incoming[..n]);
      assert r.transactions == p.transactions + [Renumbered(incoming[n], p.nextTransactionId)];
      forall k | 0 <= k < |incoming| ensures r.transactions[|l.transactions| + k] == Renumbered(incoming[k], l.nextTransactionId + k) {
        if k < n {
          assert incoming[..n][k] == incoming[k];
          assert r.transactions[|l.transactions| + k] == p.transactions[|l.transactions| + k];
        }
      }
      PrefixOfAppend(p.transactions, [Renumbered(incoming[n], p.nextTransactionId)], |l.transactions|);
    }
  }

  lemma {:induction false} ReplaceLoadsRules(l: Ledger, incoming: seq<Rule>)
    ensures var r := ImportRules(l, incoming, false);
            && |r.rules| == |l.rules| + |incoming|
            && r.rules[..|l.rules|] == l.rules
            && r.nextRuleId == l.nextRuleId + |incoming|
            && forall k :: 0 <= k < |incoming| ==>
                 r.rules[|l.rules| + k] == Reloaded(incoming[k], l.nextRuleId + k)
  {
    if incoming != [] {
      var n := |incoming| - 1;
      var p := ImportRules(l, incoming[..n], false);
      var r := ImportRules(l, incoming, false);
      ReplaceLoadsRules(l, incoming[..n]);
      assert r.rules == p.rules + [Reloaded(incoming[n], p.nextRuleId)];
      forall k | 0 <= k < |incoming| ensures r.rules[|l.rules| + k] == Reloaded(incoming[k], l.nextRuleId + k) {
        if k < n {
          assert incoming[..n][k] == incoming[k];
          assert r.rules[|l.rules| + k] == p.rules[|l.rules| + k];
        }
      }
      PrefixOfAppend(p.rules, [Reloaded(incoming[n], p.nextRuleId)], |l.rules|);
    }
  }

  /** Replace mode leaves exactly the snapshot's rows, in snapshot order with
      fresh ids, and its rules, active and never fired. */
  lemma ReplaceLoadsSnapshot(l: Ledger, s: Snapshot)
    ensures var r := ImportSnapshot(l, s, false);
            && |r.transactions| == |s.transactions|
            && (forall k :: 0 <= k < |s.transactions| ==>
                  r.transactions[k] == Renumbered(s.transactions[k], l.nextTransactionId + k))
            && |r.rules| == |s.rules|
            && (forall k :: 0 <= k < |s.rules| ==> r.rules[k] == Reloaded(s.rules[k], l.nextRuleId + k))
  {
    var t := ImportTransactions(Cleared(l), s.transactions, false);
    ReplaceLoadsTransactionsOnly(l, s.transactions);
    ReplaceLoadsRulesOnly(t, s.rules);
  }

  /** The transactions of a cleared ledger after a replace import. */
  lemma ReplaceLoadsTransactionsOnly(l: Ledger, incoming: seq<Transaction>)
    ensures var t := ImportTransactions(Cleared(l), incoming, false);
            && t.rules == [] && t.nextRuleId == l.nextRuleId
            && |t.transactions| == |incoming|
            && forall k :: 0 <= k < |incoming| ==>
                 t.transactions[k] == Renumbered(incoming[k], l.nextTransactionId + k)
  {
    var c := Cleared(l);
    var t := ImportTransactions(c, incoming, false);
    ReplaceLoadsTransactions(c, incoming);
    forall k | 0 <= k < |incoming| ensures t.transactions[k] == Renumbered(incoming[k], l.nextTransactionId + k) {
      assert t.transactions[|c.transactions| + k] == Renumbered(incoming[k], c.nextTransactionId + k);
    }
  }

  /** The rules of a ledger without rules after a replace import. */
  lemma ReplaceLoadsRulesOnly(t: Ledger, incoming: seq<Rule>)
    requires t.rules == []
    ensures var r := ImportRules(t, incoming, false);
            && r.transactions == t.transactions
            && |r.rules| == |incoming|
            && forall k :: 0 <= k < |incoming| ==> r.rules[k] == Reloaded(incoming[k], t.nextRuleId + k)
  {
    var r := ImportRules(t, incoming, false);
    ReplaceLoadsRules(t, incoming);
    forall k | 0 <= k < |incoming| ensures r.rules[k] == Reloaded(incoming[k], t.nextRuleId + k) {
      assert r.rules[|t.rules| + k] == Reloaded(incoming[k], t.nextRuleId + k);
    }
  }

  // ---------------------------------------------------------------------
  // Export followed by a replace import

  /** A row with its id blanked: what survives an export and reload. */
  function Content(t: Transaction): Transaction
  {
    t.(id := 0)
  }

  function MapSeq<T, U>(s: seq<T>, f: T -> U): seq<U>
  {
    seq(|s|, k requires 0 <= k < |s| => f(s[k]))
  }

  lemma MapAppend<T, U>(a: seq<T>, b: seq<T>, f: T -> U)
    ensures MapSeq(a + b, f) == MapSeq(a, f) + MapSeq(b, f)
  {
    assert forall k :: 0 <= k < |a + b| ==> MapSeq(a + b, f)[k] == (MapSeq(a, f) + MapSeq(b, f))[k];
  }

  lemma Cancel<T>(m1: multiset<T>, m2: multiset<T>, x: T)
    requires m1 + multiset{x} == m2 + multiset{x}
    ensures m1 == m2
  {
    forall y ensures m1[y] == m2[y] {
      assert (m1 + multiset{x})[y] == (m2 + multiset{x})[y];
    }
  }

  /** Taking one element out of a sequence takes it out of its multiset. */
  lemma RemoveAt<T>(b: seq<T>, i: nat)
    requires i < |b|
    ensures multiset(b) == multiset(b[..i] + b[i + 1..]) + multiset{b[i]}
  {
    assert b == b[..i] + [b[i]] + b[i + 1..];
  }

  lemma MapRemoveAt<T, U>(b: seq<T>, i: nat, f: T -> U)
    requires i < |b|
    ensures multiset(MapSeq(b, f)) == multiset(MapSeq(b[..i] + b[i + 1..], f)) + multiset{f(b[i])}
  {
    var cs := MapSeq(b, f);
    RemoveAt(cs, i);
    MapAppend(b[..i], b[i + 1..], f);
    assert cs[..i] == MapSeq(b[..i], f);
    assert cs[i + 1..] == MapSeq(b[i + 1..], f);
  }

  lemma PermutationRest<T>(a: seq<T>, b: seq<T>, i: nat)
    requires multiset(a) == multiset(b) && a != [] && i < |b| && b[i] == a[0]
    ensures multiset(a[1..]) == multiset(b[..i] + b[i + 1..])
  {
    var m1, m2 := multiset(a[1..]), multiset(b[..i] + b[i + 1..]);
    assert a == [a[0]] + a[1..];
    assert multiset(a) == m1 + multiset{a[0]};
    RemoveAt(b, i);
    Cancel(m1, m2, a[0]);
  }

  /** Reordering a sequence reorders its image the same way. */
  lemma {:induction false} MapOfPermutation<T, U>(a: seq<T>, b: seq<T>, f: T -> U)
    requires multiset(a) == multiset(b)
    ensures multiset(MapSeq(a, f)) == multiset(MapSeq(b, f))
    decreases |a|
  {
    if a == [] {
      assert |b| == |multiset(b)| == 0;
    } else {
      var x := a[0];
      assert x in b by {
        assert x in multiset(a);
      }
      var i :| 0 <= i < |b| && b[i] == x;
      var rest := b[..i] + b[i + 1..];
      var ma, mr := multiset(MapSeq(a[1..], f)), multiset(MapSeq(rest, f));
      assert ma == mr by {
        PermutationRest(a, b, i);
        MapOfPermutation(a[1..], rest, f);
      }
      assert multiset(MapSeq(a, f)) == ma + multiset{f(x)} by {
        MapRemoveAt(a, 0, f);
        assert a[..0] + a[1..] == a[1..];
      }
      assert multiset(MapSeq(b, f)) == mr + multiset{f(x)} by {
        MapRemoveAt(b, i, f);
      }
    }
  }

  /** Rows that agree apart from their ids have the same contents. */
  lemma SameContents(a: seq<Transaction>, b: seq<Transaction>)
    requires |a| == |b|
    requires forall k :: 0 <= k < |a| ==> Content(a[k]) == Content(b[k])
    ensures MapSeq(a, Content) == MapSeq(b, Content)
  {
    assert forall k :: 0 <= k < |a| ==> MapSeq(a, Content)[k] == MapSeq(b, Content)[k];
  }

  /** Exporting and then importing in replace mode reloads every transaction
      (each once, ids aside) and every active rule, with its marker reset:
      the rule will materialize again from its start date. */
  lemma ExportThenReplaceRoundTrip(l: Ledger, exportDate: string)
    ensures var r := ImportSnapshot(l, Export(l, exportDate), false);
            && multiset(MapSeq(r.transactions, Content)) == multiset(MapSeq(l.transactions, Content))
            && |r.rules| == |ActiveRules(l.rules)|
            && forall k :: 0 <= k < |r.rules| ==>
                 r.rules[k] == ActiveRules(l.rules)[k].(id := r.rules[k].id, lastProcessed := None)
  {
    var s := Export(l, exportDate);
    var r := ImportSnapshot(l, s, false);
    ReplaceLoadsSnapshot(l, s);
    assert MapSeq(r.transactions, Content) == MapSeq(s.transactions, Content) by {
      forall k | 0 <= k < |s.transactions| ensures Content(r.transactions[k]) == Content(s.transactions[k]) {
        assert r.transactions[k] == Renumbered(s.transactions[k], l.nextTransactionId + k);
      }
      SameContents(r.transactions, s.transactions);
    }
    MapOfPermutation(s.transactions, l.transactions, Content);
    ActiveRulesMembers(l.rules);
    forall k | 0 <= k < |r.rules|
      ensures r.rules[k] == ActiveRules(l.rules)[k].(id := r.rules[k].id, lastProcessed := None)
    {
      assert s.rules[k] in ActiveRules(l.rules);
    }
  }
}
