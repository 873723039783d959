/** The arithmetic of the chart, the summary panel and the three reports of
    the budget application, separated from the widgets that display it. Each
    works on the rows `get_transactions` returns for its filter. */
module Reports {
  import opened Wrappers
  import opened Dates
  import opened Ledger

  // ---------------------------------------------------------------------
  // Tallies: the `defaultdict` accumulations, kept as association lists in
  // the order their keys were first inserted
  // ---------------------------------------------------------------------

  /** The column a tally groups by. */
  datatype Field = ByCategory | ByPerson

  function KeyOf(f: Field, t: Transaction): string
  {
    match f
    case ByCategory => t.category
    case ByPerson => t.person
  }

  /** Which rows a tally reads. */
  datatype Selector = AllRows | KindIs(kind: string) | NonIncomeOf(person: string)

  predicate Selects(sel: Selector, t: Transaction)
  {
    match sel
    case AllRows => true
    case KindIs(k) => t.kind == k
    case NonIncomeOf(p) => t.person == p && t.kind != "Income"
  }

  /** One dictionary entry: how many rows, and the sums of their amounts
      split into Income rows and all other rows. */
  datatype Bucket = Bucket(key: string, count: nat, income: int, spent: int)

  function Total(b: Bucket): int
  {
    b.income + b.spent
  }

  /** The entry after one more row: Income amounts go to `income`, any other
      type to `spent`. */
  function Counted(b: Bucket, t: Transaction): Bucket
  {
    if t.kind == "Income" then b.(count := b.count + 1, income := b.income + t.amount)
    else b.(count := b.count + 1, spent := b.spent + t.amount)
  }

  function Empty(key: string): Bucket
  {
    Bucket(key, 0, 0, 0)
  }

  /** Reference: the entry for `key` summed over every selected row whose
      grouping column is `key`. */
  function Totals(ts: seq<Transaction>, sel: Selector, f: Field, key: string): (b: Bucket)
    ensures b.key == key
  {
    if ts == [] then Empty(key)
    else
      var n := |ts| - 1;
      var prev := Totals(ts[..n], sel, f, key);
      if Selects(sel, ts[n]) && KeyOf(f, ts[n]) == key then Counted(prev, ts[n]) else prev
  }

  /** Dictionary lookup: the position of `key`, if present. */
  function Find(tally: seq<Bucket>, key: string): (r: Option<nat>)
    ensures r.Some? ==> r.value < |tally| && tally[r.value].key == key
    ensures r.None? ==> forall b :: b in tally ==> b.key != key
  {
    if tally == [] then None
    else if tally[0].key == key then Some(0)
    else
      match Find(tally[1..], key)
      case None => None
      case Some(j) => Some(j + 1)
  }

  /** `d[key] += ...` on a `defaultdict`: update the entry, or append a new
      one at the end. */
  function Add(tally: seq<Bucket>, key: string, t: Transaction): seq<Bucket>
  {
    match Find(tally, key)
    case Some(j) => tally[j := Counted(tally[j], t)]
    case None => tally + [Counted(Empty(key), t)]
  }

  /** The dictionary a loop over `ts` builds. */
  function TallyOf(ts: seq<Transaction>, sel: Selector, f: Field): seq<Bucket>
  {
    if ts == [] then []
    else
      var n := |ts| - 1;
      var prev := TallyOf(ts[..n], sel, f);
      if Selects(sel, ts[n]) then Add(prev, KeyOf(f, ts[n]), ts[n]) else prev
  }

  /** One more row extends the tally of the rows before it. */
  lemma TallyOfStep(ts: seq<Transaction>, sel: Selector, f: Field, i: nat)
    requires i < |ts|
    ensures var prev := TallyOf(ts[..i], sel, f);
            TallyOf(ts[..i + 1], sel, f) == if Selects(sel, ts[i]) then Add(prev, KeyOf(f, ts[i]), ts[i]) else prev
  {
    assert ts[..i + 1][..i] == ts[..i];
  }

  predicate DistinctKeys(tally: seq<Bucket>)
  {
    forall i, j :: 0 <= i < j < |tally| ==> tally[i].key != tally[j].key
  }

  predicate Occurs(ts: seq<Transaction>, sel: Selector, f: Field, key: string)
  {
    exists t :: t in ts && Selects(sel, t) && KeyOf(f, t) == key
  }

  /** A key no selected row carries has an empty entry. */
  lemma {:induction false} AbsentIsEmpty(ts: seq<Transaction>, sel: Selector, f: Field, key: string)
    requires !Occurs(ts, sel, f, key)
    ensures Totals(ts, sel, f, key) == Empty(key)
  {
    if ts != [] {
      var n := |ts| - 1;
      assert forall t :: t in ts[..n] ==> t in ts;
      AbsentIsEmpty(ts[..n], sel, f, key);
    }
  }

  /** Each key has at most one entry. */
  lemma {:induction false} TallyKeysDistinct(ts: seq<Transaction>, sel: Selector, f: Field)
    ensures DistinctKeys(TallyOf(ts, sel, f))
  {
    if ts != [] {
      var n := |ts| - 1;
      TallyKeysDistinct(ts[..n], sel, f);
      var prev := TallyOf(ts[..n], sel, f);
      var r := TallyOf(ts, sel, f);
      if Selects(sel, ts[n]) && Find(prev, KeyOf(f, ts[n])).Some? {
        forall i, i' | 0 <= i < i' < |r| ensures r[i].key != r[i'].key {
          assert r[i].key == prev[i].key && r[i'].key == prev[i'].key;
        }
      }
    }
  }

  /** The keys of the dictionary are exactly the keys of the selected rows. */
  lemma {:induction false} TallyKeys(ts: seq<Transaction>, sel: Selector, f: Field)
    ensures forall k :: HasKey(TallyOf(ts, sel, f), k) <==> Occurs(ts, sel, f, k)
  {
    if ts != [] {
      var n := |ts| - 1;
      var prefix, t := ts[..n], ts[n];
      TallyKeys(prefix, sel, f);
      OccursSnoc(ts, sel, f);
      if Selects(sel, t) {
        AddKeys(TallyOf(prefix, sel, f), KeyOf(f, t), t);
      }
    }
  }

  predicate HasKey(tally: seq<Bucket>, k: string)
  {
    exists b :: b in tally && b.key == k
  }

  /** Adding a row to an entry leaves the keys as they were, plus its own. */
  lemma AddKeys(prev: seq<Bucket>, key: string, t: Transaction)
    ensures forall k :: HasKey(Add(prev, key, t), k) <==> HasKey(prev, k) || k == key
  {
    var r := Add(prev, key, t);
    match Find(prev, key)
    case Some(j) =>
      assert forall i :: 0 <= i < |r| ==> r[i].key == prev[i].key;
      forall k ensures HasKey(r, k) <==> HasKey(prev, k) || k == key {
        if exists b :: b in prev && b.key == k {
          var b :| b in prev && b.key == k;
          var i :| 0 <= i < |prev| && prev[i] == b;
          assert r[i] in r;
        }
        if k == key {
          assert r[j] in r;
        }
        if exists b :: b in r && b.key == k {
          var b :| b in r && b.key == k;
          var i :| 0 <= i < |r| && r[i] == b;
          assert prev[i] in prev;
        }
      }
    case None =>
      assert forall b :: b in r <==> b in prev || b == r[|prev|];
  }

  /** A key occurs among the rows when it occurs before the last row or on it. */
  lemma OccursSnoc(ts: seq<Transaction>, sel: Selector, f: Field)
    requires ts != []
    ensures var n := |ts| - 1;
            forall k :: Occurs(ts, sel, f, k) <==> Occurs(ts[..n], sel, f, k) || (Selects(sel, ts[n]) && KeyOf(f, ts[n]) == k)
  {
    var n := |ts| - 1;
    assert ts == ts[..n] + [ts[n]];
    assert forall x :: x in ts <==> x in ts[..n] || x == ts[n];
  }

  /** Each entry holds its key's totals over all the rows, and so counts at
      least one row. */
  lemma {:induction false} TallyTotals(ts: seq<Transaction>, sel: Selector, f: Field)
    ensures forall b :: b in TallyOf(ts, sel, f) ==> b == Totals(ts, sel, f, b.key) && b.count >= 1
  {
    if ts != [] {
      var n := |ts| - 1;
      var prefix, t := ts[..n], ts[n];
      TallyTotals(prefix, sel, f);
      var prev := TallyOf(prefix, sel, f);
      var r := TallyOf(ts, sel, f);
      assert ts == prefix + [t];
      if Selects(sel, t) {
        var k := KeyOf(f, t);
        match Find(prev, k)
        case Some(j) =>
          TallyKeysDistinct(prefix, sel, f);
          forall b | b in r ensures b == Totals(ts, sel, f, b.key) && b.count >= 1 {
            var i :| 0 <= i < |r| && r[i] == b;
            assert prev[i] in prev;
            if i != j {
              assert prev[i].key != k;
            }
          }
        case None =>
          TallyKeys(prefix, sel, f);
          AbsentIsEmpty(prefix, sel, f, k);
          forall b | b in r ensures b == Totals(ts, sel, f, b.key) && b.count >= 1 {
            if b in prev {
              assert b.key != k;
            }
          }
      }
    }
  }

  /** The accumulator loop shared by the summary panel and the reports:
      one pass over the rows, each selected row added to its key's entry. */
  method Tally(ts: seq<Transaction>, sel: Selector, f: Field) returns (tally: seq<Bucket>)
    ensures tally == TallyOf(ts, sel, f)
  {
    tally := [];
    var i := 0;
    while i < |ts|
      invariant 0 <= i <= |ts|
      invariant tally == TallyOf(ts[..i], sel, f)
    {
      var t := ts[i];
      TallyOfStep(ts, sel, f, i);
      if Selects(sel, t) {
        var key := KeyOf(f, t);
        match Find(tally, key)
        case Some(j) =>
          tally := tally[j := Counted(tally[j], t)];
        case None =>
          tally := tally + [Counted(Empty(key), t)];
      }
      i := i + 1;
    }
    assert ts[..i] == ts;
  }

  // ---------------------------------------------------------------------
  // `sorted(..., key=amount, reverse=True)`: a stable sort, largest first
  // ---------------------------------------------------------------------

  /** A name with an amount, as `dict.items()` yields them. */
  type Entry = (string, int)

  /** Insert after every entry at least as large, so equal amounts keep
      the order in which they arrived. */
  function InsertDesc(s: seq<Entry>, x: Entry): seq<Entry>
  {
    if s == [] then [x]
    else if s[0].1 < x.1 then [x] + s
    else [s[0]] + InsertDesc(s[1..], x)
  }

  function SortDesc(s: seq<Entry>): seq<Entry>
  {
    if s == [] then [] else InsertDesc(SortDesc(s[..|s| - 1]), s[|s| - 1])
  }

  predicate NonIncreasing(s: seq<Entry>)
  {
    forall i, j :: 0 <= i < j < |s| ==> s[i].1 >= s[j].1
  }

  lemma {:induction false} InsertDescPermutes(s: seq<Entry>, x: Entry)
    ensures multiset(InsertDesc(s, x)) == multiset(s) + multiset{x}
  {
    if s != [] && s[0].1 >= x.1 {
      InsertDescPermutes(s[1..], x);
      assert multiset(s) == multiset{s[0]} + multiset(s[1..]) by {
        assert s == [s[0]] + s[1..];
      }
    }
  }

  /** Inserting keeps an upper bound on the amounts. */
  lemma {:induction false} InsertDescBounded(s: seq<Entry>, x: Entry, bound: int)
    requires forall k :: 0 <= k < |s| ==> s[k].1 <= bound
    requires x.1 <= bound
    ensures forall k :: 0 <= k < |InsertDesc(s, x)| ==> InsertDesc(s, x)[k].1 <= bound
  {
    if s != [] && s[0].1 >= x.1 {
      InsertDescBounded(s[1..], x, bound);
    }
  }

  lemma {:induction false} InsertDescSorts(s: seq<Entry>, x: Entry)
    requires NonIncreasing(s)
    ensures NonIncreasing(InsertDesc(s, x))
    ensures multiset(InsertDesc(s, x)) == multiset(s) + multiset{x}
  {
    InsertDescPermutes(s, x);
    if s != [] && s[0].1 >= x.1 {
      var tail := s[1..];
      InsertDescSorts(tail, x);
      InsertDescBounded(tail, x, s[0].1);
      var rest := InsertDesc(tail, x);
      var r := [s[0]] + rest;
      forall i, j | 0 <= i < j < |r| ensures r[i].1 >= r[j].1 {
        if i > 0 {
          assert r[i] == rest[i - 1] && r[j] == rest[j - 1];
        }
      }
    }
  }

  /** The result is largest first and holds exactly the given entries. */
  lemma {:induction false} SortDescSorts(s: seq<Entry>)
    ensures NonIncreasing(SortDesc(s))
    ensures multiset(SortDesc(s)) == multiset(s)
  {
    if s != [] {
      var n := |s| - 1;
      SortDescSorts(s[..n]);
      InsertDescSorts(SortDesc(s[..n]), s[n]);
      assert s == s[..n] + [s[n]];
    }
  }

  /** The entries with amount `v`, in the order they appear. */
  function WithAmount(s: seq<Entry>, v: int): seq<Entry>
  {
    if s == [] then [] else (if s[0].1 == v then [s[0]] else []) + WithAmount(s[1..], v)
  }

  lemma {:induction false} WithAmountAppend(a: seq<Entry>, b: seq<Entry>, v: int)
    ensures WithAmount(a + b, v) == WithAmount(a, v) + WithAmount(b, v)
  {
    if a != [] {
      WithAmountAppend(a[1..], b, v);
      assert (a + b)[0] == a[0] && (a + b)[1..] == a[1..] + b;
    } else {
      assert a + b == b;
    }
  }

  lemma {:induction false} WithAmountBelow(s: seq<Entry>, v: int)
    requires forall k :: 0 <= k < |s| ==> s[k].1 < v
    ensures WithAmount(s, v) == []
  {
    if s != [] {
      WithAmountBelow(s[1..], v);
    }
  }

  /** Inserting into a largest-first list puts `x` after every entry of the
      same amount. */
  lemma {:induction false} InsertDescIsStable(s: seq<Entry>, x: Entry, v: int)
    requires NonIncreasing(s)
    ensures WithAmount(InsertDesc(s, x), v) == WithAmount(s, v) + (if x.1 == v then [x] else [])
  {
    if s != [] {
      if s[0].1 < x.1 {
        if x.1 == v {
          WithAmountBelow(s, v);
        }
        WithAmountAppend([x], s, v);
      } else {
        var rest := InsertDesc(s[1..], x);
        InsertDescIsStable(s[1..], x, v);
        assert ([s[0]] + rest)[0] == s[0] && ([s[0]] + rest)[1..] == rest;
      }
    }
  }

  /** The sort is stable: entries of equal amount keep the order in which
      they came, as Python's `sorted` guarantees. */
  lemma {:induction false} SortDescIsStable(s: seq<Entry>, v: int)
    ensures WithAmount(SortDesc(s), v) == WithAmount(s, v)
  {
    if s != [] {
      var n := |s| - 1;
      var prefix, last := s[..n], s[n];
      var sorted := SortDesc(prefix);
      SortDescIsStable(prefix, v);
      assert NonIncreasing(sorted) by {
        SortDescSorts(prefix);
      }
      InsertDescIsStable(sorted, last, v);
      assert WithAmount([last], v) == if last.1 == v then [last] else [];
      assert WithAmount(s, v) == WithAmount(prefix, v) + WithAmount([last], v) by {
        WithAmountAppend(prefix, [last], v);
        assert s == prefix + [last];
      }
    }
  }

  /** `sorted(items, key=amount, reverse=True)[:n]`. */
  function TopN(s: seq<Entry>, n: nat): seq<Entry>
  {
    var sorted := SortDesc(s);
    if |sorted| <= n then sorted else sorted[..n]
  }

  /** The top list has `n` entries (fewer only when there are fewer), taken
      from the given ones, largest first, and no entry left out is larger
      than one kept. */
  lemma TopNMeaning(s: seq<Entry>, n: nat)
    ensures |TopN(s, n)| == if |s| <= n then |s| else n
    ensures NonIncreasing(TopN(s, n))
    ensures multiset(TopN(s, n)) <= multiset(s)
    ensures forall e, x :: e in multiset(s) - multiset(TopN(s, n)) && x in TopN(s, n) ==> e.1 <= x.1
  {
    var sorted := SortDesc(s);
    SortDescSorts(s);
    assert |sorted| == |s| by {
      assert |multiset(sorted)| == |multiset(s)|;
    }
    var k := if |sorted| <= n then |sorted| else n;
    assert TopN(s, n) == sorted[..k];
    SplitSorted(sorted, k);
  }

  /** Cutting a largest-first list leaves nothing larger behind. */
  lemma SplitSorted(sorted: seq<Entry>, k: nat)
    requires NonIncreasing(sorted) && k <= |sorted|
    ensures NonIncreasing(sorted[..k])
    ensures multiset(sorted[..k]) <= multiset(sorted)
    ensures multiset(sorted) - multiset(sorted[..k]) == multiset(sorted[k..])
    ensures forall e, x :: e in multiset(sorted[k..]) && x in sorted[..k] ==> e.1 <= x.1
  {
    assert sorted == sorted[..k] + sorted[k..];
    forall e, x | e in multiset(sorted[k..]) && x in sorted[..k] ensures e.1 <= x.1 {
      var i :| 0 <= i < k && sorted[i] == x;
      var j :| 0 <= j < |sorted| - k && sorted[k..][j] == e;
      assert sorted[k + j] == e;
    }
  }

  // ---------------------------------------------------------------------
  // `transactions.sort(key=date)`: a stable sort, oldest first
  // ---------------------------------------------------------------------

  /** Insert after every row dated on or before `x`'s date. */
  function InsertByDate(s: seq<Transaction>, x: Transaction): seq<Transaction>
  {
    if s == [] then [x]
    else if Before(x.date, s[0].date) then [x] + s
    else [s[0]] + InsertByDate(s[1..], x)
  }

  function SortByDate(s: seq<Transaction>): seq<Transaction>
  {
    if s == [] then [] else InsertByDate(SortByDate(s[..|s| - 1]), s[|s| - 1])
  }

  predicate Chronological(s: seq<Transaction>)
  {
    forall i, j :: 0 <= i < j < |s| ==> NotAfter(s[i].date, s[j].date)
  }

  /** Rows of the same day appear highest id first. */
  predicate SameDayNewestFirst(s: seq<Transaction>)
  {
    forall i, j :: 0 <= i < j < |s| && s[i].date == s[j].date ==> s[i].id > s[j].id
  }

  lemma {:induction false} InsertByDatePermutes(s: seq<Transaction>, x: Transaction)
    ensures multiset(InsertByDate(s, x)) == multiset(s) + multiset{x}
  {
    if s != [] && !Before(x.date, s[0].date) {
      InsertByDatePermutes(s[1..], x);
      assert multiset(s) == multiset{s[0]} + multiset(s[1..]) by {
        assert s == [s[0]] + s[1..];
      }
    }
  }

  /** Inserting keeps a lower bound on the dates. */
  lemma {:induction false} InsertByDateBounded(s: seq<Transaction>, x: Transaction, bound: Date)
    requires forall k :: 0 <= k < |s| ==> NotAfter(bound, s[k].date)
    requires NotAfter(bound, x.date)
    ensures forall k :: 0 <= k < |InsertByDate(s, x)| ==> NotAfter(bound, InsertByDate(s, x)[k].date)
  {
    if s != [] && !Before(x.date, s[0].date) {
      InsertByDateBounded(s[1..], x, bound);
    }
  }

  lemma {:induction false} InsertByDateOrders(s: seq<Transaction>, x: Transaction)
    requires Chronological(s)
    ensures Chronological(InsertByDate(s, x))
  {
    if s != [] && !Before(x.date, s[0].date) {
      var tail := s[1..];
      assert Chronological(tail) by {
        forall i, j | 0 <= i < j < |tail| ensures NotAfter(tail[i].date, tail[j].date) {
          assert tail[i] == s[i + 1] && tail[j] == s[j + 1];
        }
      }
      InsertByDateOrders(tail, x);
      forall k | 0 <= k < |tail| ensures NotAfter(s[0].date, tail[k].date) {
        assert tail[k] == s[k + 1];
      }
      InsertByDateBounded(tail, x, s[0].date);
      var rest := InsertByDate(tail, x);
      var r := [s[0]] + rest;
      forall i, j | 0 <= i < j < |r| ensures NotAfter(r[i].date, r[j].date) {
        if i > 0 {
          assert r[i] == rest[i - 1] && r[j] == rest[j - 1];
        }
      }
      assert InsertByDate(s, x) == r;
    }
  }

  lemma InsertByDateSorts(s: seq<Transaction>, x: Transaction)
    requires Chronological(s)
    ensures Chronological(InsertByDate(s, x))
    ensures multiset(InsertByDate(s, x)) == multiset(s) + multiset{x}
  {
    InsertByDatePermutes(s, x);
    InsertByDateOrders(s, x);
  }

  /** A row inserted after the same-day rows it has a smaller id than keeps
      same-day rows highest id first. */
  /** Inserting keeps an upper bound on the ids of the rows of one day. */
  lemma {:induction false} InsertByDateIdBounded(s: seq<Transaction>, x: Transaction, day: Date, bound: int)
    requires forall k :: 0 <= k < |s| && s[k].date == day ==> s[k].id < bound
    requires x.date == day ==> x.id < bound
    ensures forall k :: 0 <= k < |InsertByDate(s, x)| && InsertByDate(s, x)[k].date == day ==>
              InsertByDate(s, x)[k].id < bound
  {
    if s != [] && !Before(x.date, s[0].date) {
      InsertByDateIdBounded(s[1..], x, day, bound);
    }
  }

  lemma {:induction false} InsertByDateIsStable(s: seq<Transaction>, x: Transaction)
    requires Chronological(s) && SameDayNewestFirst(s)
    requires forall y :: y in s && y.date == x.date ==> y.id > x.id
    ensures SameDayNewestFirst(InsertByDate(s, x))
  {
    if s != [] && !Before(x.date, s[0].date) {
      var tail := s[1..];
      OrderedTail(s);
      InsertByDateIsStable(tail, x);
      assert x.date == s[0].date ==> x.id < s[0].id by {
        assert s[0] in s;
      }
      InsertByDateIdBounded(tail, x, s[0].date, s[0].id);
      ConsNewestFirst(s[0], InsertByDate(tail, x));
    } else {
      forall k | 0 <= k < |s| ensures s[k].date != x.date {
        assert NotAfter(s[0].date, s[k].date);
      }
      ConsNewestFirst(x, s);
    }
  }

  /** The rows after the first of an ordered table are ordered, and come on
      or after its day with lower ids on that day. */
  lemma OrderedTail(s: seq<Transaction>)
    requires s != [] && Chronological(s) && SameDayNewestFirst(s)
    ensures Chronological(s[1..]) && SameDayNewestFirst(s[1..])
    ensures forall k :: 0 <= k < |s[1..]| && s[1..][k].date == s[0].date ==> s[1..][k].id < s[0].id
  {
    var tail := s[1..];
    forall i, j | 0 <= i < j < |tail| ensures NotAfter(tail[i].date, tail[j].date) {
      assert tail[i] == s[i + 1] && tail[j] == s[j + 1];
    }
    forall i, j | 0 <= i < j < |tail| && tail[i].date == tail[j].date ensures tail[i].id > tail[j].id {
      assert tail[i] == s[i + 1] && tail[j] == s[j + 1];
    }
    forall k | 0 <= k < |tail| && tail[k].date == s[0].date ensures tail[k].id < s[0].id {
      assert tail[k] == s[k + 1];
    }
  }

  /** A row put in front of a table keeps same-day rows newest first when
      it is newer than every row of its day. */
  lemma ConsNewestFirst(h: Transaction, rest: seq<Transaction>)
    requires SameDayNewestFirst(rest)
    requires forall k :: 0 <= k < |rest| && rest[k].date == h.date ==> rest[k].id < h.id
    ensures SameDayNewestFirst([h] + rest)
  {
    var r := [h] + rest;
    forall i, j | 0 <= i < j < |r| && r[i].date == r[j].date ensures r[i].id > r[j].id {
      assert r[j] == rest[j - 1];
      if i > 0 {
        assert r[i] == rest[i - 1];
      }
    }
  }

  lemma {:induction false} SortByDatePermutes(s: seq<Transaction>)
    ensures multiset(SortByDate(s)) == multiset(s)
  {
    if s != [] {
      var n := |s| - 1;
      SortByDatePermutes(s[..n]);
      InsertByDatePermutes(SortByDate(s[..n]), s[n]);
      assert multiset(s) == multiset(s[..n]) + multiset{s[n]} by {
        assert s == s[..n] + [s[n]];
      }
    }
  }

  lemma {:induction false} SortByDateOrders(s: seq<Transaction>)
    ensures Chronological(SortByDate(s))
  {
    if s != [] {
      var n := |s| - 1;
      SortByDateOrders(s[..n]);
      InsertByDateOrders(SortByDate(s[..n]), s[n]);
    }
  }

  /** The sort puts the rows in date order and holds exactly the given rows. */
  lemma SortByDateSorts(s: seq<Transaction>)
    ensures Chronological(SortByDate(s))
    ensures multiset(SortByDate(s)) == multiset(s)
  {
    SortByDatePermutes(s);
    SortByDateOrders(s);
  }

  /** Stability: rows that arrive same-day highest id first leave the sort
      in that order. */
  lemma {:induction false} SortByDateIsStable(s: seq<Transaction>)
    requires SameDayNewestFirst(s)
    ensures SameDayNewestFirst(SortByDate(s))
  {
    if s != [] {
      var n := |s| - 1;
      var init, x := s[..n], s[n];
      PrefixNewestFirst(s);
      SortByDateIsStable(init);
      var sorted := SortByDate(init);
      SortByDatePermutes(init);
      SortByDateOrders(init);
      NewerStaysNewer(init, sorted, x);
      InsertByDateIsStable(sorted, x);
      assert SortByDate(s) == InsertByDate(sorted, x);
    }
  }

  /** Dropping the last row keeps same-day rows newest first, and every
      earlier row of the last row's day is newer than it. */
  lemma PrefixNewestFirst(s: seq<Transaction>)
    requires s != [] && SameDayNewestFirst(s)
    ensures var n := |s| - 1;
            && SameDayNewestFirst(s[..n])
            && forall i :: 0 <= i < n && s[..n][i].date == s[n].date ==> s[..n][i].id > s[n].id
  {
    var n := |s| - 1;
    var init := s[..n];
    forall i, j | 0 <= i < j < n && init[i].date == init[j].date ensures init[i].id > init[j].id {
      assert init[i] == s[i] && init[j] == s[j];
    }
    forall i | 0 <= i < n && init[i].date == s[n].date ensures init[i].id > s[n].id {
      assert init[i] == s[i];
    }
  }

  /** Rows newer than `x` on its day are still newer after a reordering. */
  lemma NewerStaysNewer(before: seq<Transaction>, after: seq<Transaction>, x: Transaction)
    requires multiset(after) == multiset(before)
    requires forall i :: 0 <= i < |before| && before[i].date == x.date ==> before[i].id > x.id
    ensures forall y :: y in after && y.date == x.date ==> y.id > x.id
  {
    forall y | y in after && y.date == x.date ensures y.id > x.id {
      assert y in multiset(before);
      var i :| 0 <= i < |before| && before[i] == y;
    }
  }

  // ---------------------------------------------------------------------
  // Totals and the balance chart (`update_chart`)
  // ---------------------------------------------------------------------

  /** The chart's step: an Income row adds its amount, any other row
      subtracts it. */
  function Signed(t: Transaction): int
  {
    if t.kind == "Income" then t.amount else -t.amount
  }

  function SignedSum(ts: seq<Transaction>): int
  {
    if ts == [] then 0 else SignedSum(ts[..|ts| - 1]) + Signed(ts[|ts| - 1])
  }

  /** `sum(t.amount for t in ts if t.type == kind)`. */
  function KindTotal(ts: seq<Transaction>, kind: string): int
  {
    if ts == [] then 0
    else KindTotal(ts[..|ts| - 1], kind) + (if ts[|ts| - 1].kind == kind then ts[|ts| - 1].amount else 0)
  }

  lemma {:induction false} SignedSumAppend(a: seq<Transaction>, b: seq<Transaction>)
    ensures SignedSum(a + b) == SignedSum(a) + SignedSum(b)
  {
    if b != [] {
      var n := |b| - 1;
      SignedSumAppend(a, b[..n]);
      assert (a + b)[..|a + b| - 1] == a + b[..n];
    } else {
      assert a + b == a;
    }
  }

  lemma {:induction false} InsertByDateKeepsSum(s: seq<Transaction>, x: Transaction)
    ensures SignedSum(InsertByDate(s, x)) == SignedSum(s) + Signed(x)
  {
    if s == [] {
      assert SignedSum([x]) == SignedSum([]) + Signed(x);
    } else if Before(x.date, s[0].date) {
      SignedSumAppend([x], s);
      assert SignedSum([x]) == SignedSum([]) + Signed(x);
    } else {
      InsertByDateKeepsSum(s[1..], x);
      SignedSumAppend([s[0]], InsertByDate(s[1..], x));
      SignedSumAppend([s[0]], s[1..]);
      assert s == [s[0]] + s[1..];
      assert SignedSum([s[0]]) == SignedSum([]) + Signed(s[0]);
    }
  }

  /** Reordering the rows for the chart does not change their sum. */
  lemma {:induction false} SortByDateKeepsSum(s: seq<Transaction>)
    ensures SignedSum(SortByDate(s)) == SignedSum(s)
  {
    if s != [] {
      var n := |s| - 1;
      SortByDateKeepsSum(s[..n]);
      InsertByDateKeepsSum(SortByDate(s[..n]), s[n]);
    }
  }

  /** When every row is Income or Expense, the signed sum is total income
      minus total expenses. */
  lemma {:induction false} NetIsSignedSum(ts: seq<Transaction>)
    requires forall t :: t in ts ==> t.kind == "Income" || t.kind == "Expense"
    ensures SignedSum(ts) == KindTotal(ts, "Income") - KindTotal(ts, "Expense")
  {
    if ts != [] {
      var n := |ts| - 1;
      assert forall t :: t in ts[..n] ==> t in ts;
      assert ts[n] in ts;
      NetIsSignedSum(ts[..n]);
    }
  }

  /** The filter of the chart and the summary: the period fields only. */
  function PeriodFilter(start: Option<Date>, end: Option<Date>): Filter
  {
    Filter(start, end, None, None, None)
  }

  /** One point of the chart. */
  datatype Point = Point(date: Date, balance: int)

  /** `update_chart`: the period's rows, sorted oldest first, each with the
      running balance after it. `None` when a row's date does not parse. */
  method BalanceChart(transactions: seq<Transaction>, start: Option<Date>, end: Option<Date>)
    returns (points: Option<seq<Point>>)
    ensures var rows := Query(transactions, PeriodFilter(start, end));
            points.None? <==> exists t :: t in rows && !IsValid(t.date)
    ensures var sorted := SortByDate(Query(transactions, PeriodFilter(start, end)));
            points.Some? ==> && |points.value| == |sorted|
                             && forall i :: 0 <= i < |sorted| ==>
                                  points.value[i] == Point(sorted[i].date, SignedSum(sorted[..i + 1]))
  {
    var rows := Query(transactions, PeriodFilter(start, end));
    var sorted := SortByDate(rows);
    SortByDateSorts(rows);
    assert forall t :: t in rows <==> t in sorted by {
      assert forall t :: t in rows <==> t in multiset(rows);
    }
    points := RunningBalance(sorted);
  }

  /** The loop of `update_chart`: accumulate the signed amounts, parsing
      each row's date as it goes. */
  method RunningBalance(sorted: seq<Transaction>) returns (points: Option<seq<Point>>)
    ensures points.None? <==> exists t :: t in sorted && !IsValid(t.date)
    ensures points.Some? ==> && |points.value| == |sorted|
                             && forall i :: 0 <= i < |sorted| ==>
                                  points.value[i] == Point(sorted[i].date, SignedSum(sorted[..i + 1]))
  {
    var balance := 0;
    var chart: seq<Point> := [];
    var i := 0;
    while i < |sorted|
      invariant 0 <= i <= |sorted|
      invariant |chart| == i && balance == SignedSum(sorted[..i])
      invariant forall k :: 0 <= k < i ==> chart[k] == Point(sorted[k].date, SignedSum(sorted[..k + 1]))
      invariant forall k :: 0 <= k < i ==> IsValid(sorted[k].date)
    {
      var t := sorted[i];
      balance := balance + Signed(t);
      assert sorted[..i + 1][..i] == sorted[..i];
      if !IsValid(t.date) {
        return None;
      }
      chart := chart + [Point(t.date, balance)];
      i := i + 1;
    }
    return Some(chart);
  }

  /** The chart's last balance is the period's net balance when every row is
      Income or Expense. */
  lemma ChartEndsAtNet(rows: seq<Transaction>)
    requires rows != []
    requires forall t :: t in rows ==> t.kind == "Income" || t.kind == "Expense"
    ensures var sorted := SortByDate(rows);
            SignedSum(sorted[..|sorted|]) == KindTotal(rows, "Income") - KindTotal(rows, "Expense")
  {
    var sorted := SortByDate(rows);
    assert sorted[..|sorted|] == sorted;
    SortByDateKeepsSum(rows);
    NetIsSignedSum(rows);
  }

  /** The chart shows the rows of the period in date order, each once, and
      rows of the same day highest id first (the order the query gave them). */
  lemma ChartOrder(transactions: seq<Transaction>, start: Option<Date>, end: Option<Date>)
    requires forall i, j :: 0 <= i < j < |transactions| ==> transactions[i].id != transactions[j].id
    ensures var sorted := SortByDate(Query(transactions, PeriodFilter(start, end)));
            && multiset(sorted) == multiset(Select(transactions, PeriodFilter(start, end)))
            && Chronological(sorted)
            && SameDayNewestFirst(sorted)
  {
    var rows := Query(transactions, PeriodFilter(start, end));
    QueryIsFilteredAndOrdered(transactions, PeriodFilter(start, end));
    QueryIsStrict(transactions, PeriodFilter(start, end));
    SortByDateSorts(rows);
    SortByDateIsStable(rows);
  }

  // ---------------------------------------------------------------------
  // The summary panel and the three reports
  // ---------------------------------------------------------------------

  /** The expense amounts of a tally as `(key, amount)` items. */
  function Amounts(tally: seq<Bucket>): (r: seq<Entry>)
    ensures |r| == |tally|
  {
    seq(|tally|, i requires 0 <= i < |tally| => (tally[i].key, tally[i].spent))
  }

  /** Every item of a tally's amounts comes from one of its entries. */
  lemma AmountsComeFromEntries(tally: seq<Bucket>, e: Entry)
    requires e in multiset(Amounts(tally))
    ensures exists b :: b in tally && e == (b.key, b.spent)
  {
    var i :| 0 <= i < |tally| && Amounts(tally)[i] == e;
    assert tally[i] in tally;
  }

  /** Items picked from a tally's amounts carry the totals of their key. */
  lemma PickedAmounts(ts: seq<Transaction>, sel: Selector, f: Field, picked: seq<Entry>)
    requires multiset(picked) <= multiset(Amounts(TallyOf(ts, sel, f)))
    ensures forall e :: e in picked ==> e.1 == Totals(ts, sel, f, e.0).spent && Occurs(ts, sel, f, e.0)
  {
    TallyTotals(ts, sel, f);
    TallyKeys(ts, sel, f);
    forall e | e in picked ensures e.1 == Totals(ts, sel, f, e.0).spent && Occurs(ts, sel, f, e.0) {
      assert e in multiset(picked);
      AmountsComeFromEntries(TallyOf(ts, sel, f), e);
    }
  }

  /** What `update_summary` shows. */
  datatype Summary = Summary(income: int, expenses: int, net: int, topCategories: seq<Entry>, people: seq<Bucket>)

  /** `update_summary`: totals of the period, its five largest expense
      categories, and each person's income and other spending. */
  method Summarize(transactions: seq<Transaction>, start: Option<Date>, end: Option<Date>) returns (s: Summary)
    ensures var rows := Query(transactions, PeriodFilter(start, end));
            && s.income == KindTotal(rows, "Income") && s.expenses == KindTotal(rows, "Expense")
            && s.net == s.income - s.expenses
    ensures var all := Amounts(TallyOf(Query(transactions, PeriodFilter(start, end)), KindIs("Expense"), ByCategory));
            && s.topCategories == TopN(all, 5)
            && |s.topCategories| == (if |all| <= 5 then |all| else 5) && NonIncreasing(s.topCategories)
            && multiset(s.topCategories) <= multiset(all)
            && forall e, x :: e in multiset(all) - multiset(s.topCategories) && x in s.topCategories ==> e.1 <= x.1
    ensures var rows := Query(transactions, PeriodFilter(start, end));
            forall e :: e in s.topCategories ==>
              e.1 == Totals(rows, KindIs("Expense"), ByCategory, e.0).spent && Occurs(rows, KindIs("Expense"), ByCategory, e.0)
    ensures var rows := Query(transactions, PeriodFilter(start, end));
            && DistinctKeys(s.people)
            && (forall b :: b in s.people ==> b == Totals(rows, AllRows, ByPerson, b.key) && b.count >= 1)
            && (forall p :: (exists b :: b in s.people && b.key == p) <==> Occurs(rows, AllRows, ByPerson, p))
  {
    var rows := Query(transactions, PeriodFilter(start, end));
    var income := KindTotal(rows, "Income");
    var expenses := KindTotal(rows, "Expense");
    var categories := Tally(rows, KindIs("Expense"), ByCategory);
    var people := Tally(rows, AllRows, ByPerson);
    var top := TopN(Amounts(categories), 5);
    TopNMeaning(Amounts(categories), 5);
    PickedAmounts(rows, KindIs("Expense"), ByCategory, top);
    TallyKeysDistinct(rows, AllRows, ByPerson);
    TallyKeys(rows, AllRows, ByPerson);
    TallyTotals(rows, AllRows, ByPerson);
    s := Summary(income, expenses, income - expenses, top, people);
  }

  /** The filter of the monthly report: the first of this month to today. */
  function MonthFilter(today: Date): Filter
  {
    Filter(Some(today.(day := 1)), Some(today), None, None, None)
  }

  /** The monthly report reads exactly the stored rows dated in today's
      month, up to and including today. */
  lemma MonthRows(transactions: seq<Transaction>, today: Date)
    requires IsValid(today)
    ensures forall t :: t in Query(transactions, MonthFilter(today)) <==>
              && t in transactions
              && t.date.year == today.year && t.date.month == today.month
              && 1 <= t.date.day <= today.day
  {
    QueryIsFilteredAndOrdered(transactions, MonthFilter(today));
  }

  /** `m` is the average of `count` values summing to `total`. */
  predicate IsMean(m: real, total: int, count: nat)
  {
    m * count as real == total as real
  }

  /** `total / count` in floating point, here exact. */
  function Mean(total: int, count: nat): (m: real)
    requires count > 0
    ensures IsMean(m, total, count)
  {
    total as real / count as real
  }

  /** What `generate_monthly_report` shows. */
  datatype MonthlyReport = MonthlyReport(
    income: int, expenses: int, net: int,
    categories: seq<Entry>,
    count: nat,
    average: Option<real>)

  /** `generate_monthly_report`, with the clock reading as `today`: totals,
      every expense category largest first, the number of rows, and the
      average of income and expenses over them when there is a row. */
  method Monthly(transactions: seq<Transaction>, today: Date) returns (r: MonthlyReport)
    ensures var rows := Query(transactions, MonthFilter(today));
            && r.income == KindTotal(rows, "Income") && r.expenses == KindTotal(rows, "Expense")
            && r.net == r.income - r.expenses
            && r.count == |rows|
            && multiset(r.categories) == multiset(Amounts(TallyOf(rows, KindIs("Expense"), ByCategory)))
    ensures NonIncreasing(r.categories)
    ensures r.average.Some? <==> r.count > 0
    ensures r.average.Some? ==> IsMean(r.average.value, r.income + r.expenses, r.count)
  {
    var rows := Query(transactions, MonthFilter(today));
    var income := KindTotal(rows, "Income");
    var expenses := KindTotal(rows, "Expense");
    var categories := Tally(rows, KindIs("Expense"), ByCategory);
    var sorted := SortDesc(Amounts(categories));
    SortDescSorts(Amounts(categories));
    var average := None;
    if |rows| > 0 {
      average := Some(Mean(income + expenses, |rows|));
    }
    r := MonthlyReport(income, expenses, income - expenses, sorted, |rows|, average);
  }

  /** One line of `generate_category_report`. */
  datatype CategoryStat = CategoryStat(category: string, count: nat, total: int, average: real)

  /** `generate_category_report` over `rows`, the result of
      `get_transactions()`: per category over rows of every type, the number
      of rows, the sum of their amounts and the average. */
  method CategoryReport(rows: seq<Transaction>) returns (stats: seq<CategoryStat>)
    ensures |stats| == |TallyOf(rows, AllRows, ByCategory)|
    ensures forall i :: 0 <= i < |stats| ==>
              var b := Totals(rows, AllRows, ByCategory, stats[i].category);
              stats[i].count == b.count && stats[i].total == Total(b)
    ensures (set i | 0 <= i < |stats| :: stats[i].category) == (set t | t in rows :: t.category)
    ensures forall i :: 0 <= i < |stats| ==>
              stats[i].count >= 1 && IsMean(stats[i].average, stats[i].total, stats[i].count)
  {
    var tally := Tally(rows, AllRows, ByCategory);
    TallyCounts(rows, AllRows, ByCategory);
    stats := Averages(tally);
    assert forall i :: 0 <= i < |stats| ==>
             var b := Totals(rows, AllRows, ByCategory, stats[i].category);
             stats[i].count == b.count && stats[i].total == Total(b)
    by {
      TallyTotals(rows, AllRows, ByCategory);
      assert forall i :: 0 <= i < |stats| ==> tally[i] in tally;
    }
    TallyKeySet(rows, ByCategory);
    StatsNameKeys(tally, stats);
  }

  /** Lines made one per tally entry name exactly the tally's keys. */
  lemma StatsNameKeys(tally: seq<Bucket>, stats: seq<CategoryStat>)
    requires |stats| == |tally|
    requires forall i :: 0 <= i < |stats| ==> stats[i].category == tally[i].key
    ensures (set i | 0 <= i < |stats| :: stats[i].category) == (set b | b in tally :: b.key)
  {
    var keys := set b | b in tally :: b.key;
    var named := set i | 0 <= i < |stats| :: stats[i].category;
    forall k | k in keys ensures k in named {
      var b :| b in tally && b.key == k;
      var j :| 0 <= j < |tally| && tally[j] == b;
      assert stats[j].category == k;
    }
    forall i | 0 <= i < |stats| ensures stats[i].category in keys {
      assert tally[i] in tally;
    }
  }

  /** The second loop of `generate_category_report`: the average of every
      category. */
  method Averages(tally: seq<Bucket>) returns (stats: seq<CategoryStat>)
    requires forall b :: b in tally ==> b.count >= 1
    ensures |stats| == |tally|
    ensures forall i :: 0 <= i < |stats| ==>
              && stats[i].category == tally[i].key && stats[i].count == tally[i].count
              && stats[i].total == Total(tally[i])
              && stats[i].count >= 1 && IsMean(stats[i].average, stats[i].total, stats[i].count)
  {
    stats := [];
    var i := 0;
    while i < |tally|
      invariant 0 <= i <= |tally| && |stats| == i
      invariant forall k :: 0 <= k < i ==>
                  && stats[k].category == tally[k].key && stats[k].count == tally[k].count
                  && stats[k].total == Total(tally[k])
                  && stats[k].count >= 1 && IsMean(stats[k].average, stats[k].total, stats[k].count)
    {
      var b := tally[i];
      assert b in tally;
      stats := stats + [CategoryStat(b.key, b.count, Total(b), Mean(Total(b), b.count))];
      i := i + 1;
    }
  }

  /** Every entry of a tally counts at least one row. */
  lemma TallyCounts(ts: seq<Transaction>, sel: Selector, f: Field)
    ensures forall b :: b in TallyOf(ts, sel, f) ==> b.count >= 1
  {
    TallyTotals(ts, sel, f);
  }

  /** The keys of a tally over all rows are the values of its column. */
  lemma TallyKeySet(ts: seq<Transaction>, f: Field)
    ensures (set b | b in TallyOf(ts, AllRows, f) :: b.key) == (set t | t in ts :: KeyOf(f, t))
  {
    var tally := TallyOf(ts, AllRows, f);
    TallyKeys(ts, AllRows, f);
    var keys := set b | b in tally :: b.key;
    var values := set t | t in ts :: KeyOf(f, t);
    forall k | k in keys ensures k in values {
      var b :| b in tally && b.key == k;
      assert Occurs(ts, AllRows, f, k);
    }
    forall k | k in values ensures k in keys {
      var t :| t in ts && KeyOf(f, t) == k;
      assert Occurs(ts, AllRows, f, k);
    }
  }

  /** One block of `generate_person_report`. */
  datatype PersonStat = PersonStat(person: string, count: nat, income: int, expenses: int, topCategories: seq<Entry>)

  /** The three largest categories of `person`'s non-Income rows (all of
      them when there are fewer), largest first, each with its total, and no
      category left out larger than one kept. */
  predicate IsTopThree(rows: seq<Transaction>, person: string, top: seq<Entry>)
  {
    var all := Amounts(TallyOf(rows, NonIncomeOf(person), ByCategory));
    && |top| == (if |all| <= 3 then |all| else 3) && NonIncreasing(top)
    && multiset(top) <= multiset(all)
    && (forall e, x :: e in multiset(all) - multiset(top) && x in top ==> e.1 <= x.1)
    && forall e :: e in top ==> e.1 == Totals(rows, NonIncomeOf(person), ByCategory, e.0).spent
  }

  /** `generate_person_report` over `rows`, the result of
      `get_transactions()`: per person, the number of rows, the Income
      total, the total of every other type, and the three largest categories
      among that person's non-Income rows. */
  method PersonReport(rows: seq<Transaction>) returns (stats: seq<PersonStat>)
    ensures |stats| == |TallyOf(rows, AllRows, ByPerson)|
    ensures (set i | 0 <= i < |stats| :: stats[i].person) == (set t | t in rows :: t.person)
    ensures forall i, j :: 0 <= i < j < |stats| ==> stats[i].person != stats[j].person
    ensures forall i :: 0 <= i < |stats| ==>
              var b := Totals(rows, AllRows, ByPerson, stats[i].person);
              && stats[i].count == b.count && stats[i].count >= 1
              && stats[i].income == b.income && stats[i].expenses == b.spent
    ensures forall i :: 0 <= i < |stats| ==> IsTopThree(rows, stats[i].person, stats[i].topCategories)
  {
    var people := Tally(rows, AllRows, ByPerson);
    stats := [];
    var i := 0;
    while i < |people|
      invariant 0 <= i <= |people| && |stats| == i
      invariant forall k :: 0 <= k < i ==>
                  Reports(stats[k], people[k]) && IsTopThree(rows, stats[k].person, stats[k].topCategories)
    {
      var b := people[i];
      var top := TopCategories(rows, b.key);
      var st := PersonStat(b.key, b.count, b.income, b.spent, top);
      assert Reports(st, b);
      ghost var before := stats;
      stats := stats + [st];
      forall k | 0 <= k <= i
        ensures Reports(stats[k], people[k]) && IsTopThree(rows, stats[k].person, stats[k].topCategories)
      {
        if k < i {
          assert stats[k] == before[k];
        }
      }
      i := i + 1;
    }
    PersonStatsMatchTally(rows, stats);
  }

  /** Blocks made one per entry of the person tally, in its order. */
  lemma PersonStatsMatchTally(rows: seq<Transaction>, stats: seq<PersonStat>)
    requires |stats| == |TallyOf(rows, AllRows, ByPerson)|
    requires forall k :: 0 <= k < |stats| ==> Reports(stats[k], TallyOf(rows, AllRows, ByPerson)[k])
    ensures (set i | 0 <= i < |stats| :: stats[i].person) == (set t | t in rows :: t.person)
    ensures forall i, j :: 0 <= i < j < |stats| ==> stats[i].person != stats[j].person
    ensures forall i :: 0 <= i < |stats| ==>
              var b := Totals(rows, AllRows, ByPerson, stats[i].person);
              && stats[i].count == b.count && stats[i].count >= 1
              && stats[i].income == b.income && stats[i].expenses == b.spent
  {
    PersonStatsTotals(rows, stats);
    TallyKeysDistinct(rows, AllRows, ByPerson);
    PersonStatsNamePeople(rows, stats);
  }

  lemma PersonStatsTotals(rows: seq<Transaction>, stats: seq<PersonStat>)
    requires |stats| == |TallyOf(rows, AllRows, ByPerson)|
    requires forall k :: 0 <= k < |stats| ==> Reports(stats[k], TallyOf(rows, AllRows, ByPerson)[k])
    ensures forall i :: 0 <= i < |stats| ==>
              var b := Totals(rows, AllRows, ByPerson, stats[i].person);
              && stats[i].count == b.count && stats[i].count >= 1
              && stats[i].income == b.income && stats[i].expenses == b.spent
  {
    var people := TallyOf(rows, AllRows, ByPerson);
    TallyTotals(rows, AllRows, ByPerson);
    forall i | 0 <= i < |stats|
      ensures var b := Totals(rows, AllRows, ByPerson, stats[i].person);
              && stats[i].count == b.count && stats[i].count >= 1
              && stats[i].income == b.income && stats[i].expenses == b.spent
    {
      assert people[i] in people;
    }
  }

  lemma PersonStatsNamePeople(rows: seq<Transaction>, stats: seq<PersonStat>)
    requires |stats| == |TallyOf(rows, AllRows, ByPerson)|
    requires forall k :: 0 <= k < |stats| ==> Reports(stats[k], TallyOf(rows, AllRows, ByPerson)[k])
    ensures (set i | 0 <= i < |stats| :: stats[i].person) == (set t | t in rows :: t.person)
  {
    var people := TallyOf(rows, AllRows, ByPerson);
    TallyKeySet(rows, ByPerson);
    var keys := set b | b in people :: b.key;
    var named := set i | 0 <= i < |stats| :: stats[i].person;
    forall k | k in keys ensures k in named {
      var b :| b in people && b.key == k;
      var j :| 0 <= j < |people| && people[j] == b;
      assert stats[j].person == k;
    }
    forall k | k in named ensures k in keys {
      var i :| 0 <= i < |stats| && stats[i].person == k;
      assert people[i] in people;
    }
  }

  /** A block shows its person's dictionary entry. */
  predicate Reports(st: PersonStat, b: Bucket)
  {
    st.person == b.key && st.count == b.count && st.income == b.income && st.expenses == b.spent
  }

  /** A person's category sub-dictionary and its three largest entries. */
  method TopCategories(rows: seq<Transaction>, person: string) returns (top: seq<Entry>)
    ensures IsTopThree(rows, person, top)
    ensures top == TopN(Amounts(TallyOf(rows, NonIncomeOf(person), ByCategory)), 3)
  {
    var categories := Tally(rows, NonIncomeOf(person), ByCategory);
    top := TopN(Amounts(categories), 3);
    TopNMeaning(Amounts(categories), 3);
    PickedAmounts(rows, NonIncomeOf(person), ByCategory, top);
  }

  /** An Income of 100 on 2024-01-01 and an Expense of 40 on 2024-01-02 chart
      as balances 100 then 60; no rows chart as no points. */
  lemma RunningBalanceExample()
    ensures var a := Transaction(1, Date(2024, 1, 1), "Salary", "Work", 100, "Income", "Ann");
            var b := Transaction(2, Date(2024, 1, 2), "Food", "Groceries", 40, "Expense", "Ann");
            var sorted := SortByDate([b, a]);
            && sorted == [a, b]
            && SignedSum(sorted[..1]) == 100 && SignedSum(sorted[..2]) == 60
    ensures SortByDate([]) == []
  {
    var a := Transaction(1, Date(2024, 1, 1), "Salary", "Work", 100, "Income", "Ann");
    var b := Transaction(2, Date(2024, 1, 2), "Food", "Groceries", 40, "Expense", "Ann");
    assert [b, a][..1] == [b];
    assert SortByDate([b]) == [b];
    assert [a, b][..1] == [a];
    assert [a, b][..2][..1] == [a];
  }
}
