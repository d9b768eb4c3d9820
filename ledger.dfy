/** The stored records the views read (fields of `core/models.py`). Amounts are
    whole cents: the schema keeps every amount with two decimal places. */
module Ledger {
  import opened Text
  import opened Calendar

  type UserId = nat

  /** The category row a transaction points to, as `select_related` loads it. */
  datatype CategoryRef = CategoryRef(id: nat, name: string, color: string)

  /** A transaction: `amount` is signed (positive = income, negative = expense);
      `category` is `None` once its category was deleted (`SET_NULL`). */
  datatype Transaction = Transaction(
    id: nat,
    owner: UserId,
    account: string,
    category: Option<CategoryRef>,
    date: Date,
    amount: int,
    description: string)

  /** A monthly budget; `month` is meant to be the first day of the month. */
  datatype Budget = Budget(id: nat, owner: UserId, month: Date, totalLimit: int)

  /** An account with its running balance. */
  datatype Account = Account(id: nat, owner: UserId, name: string, currency: string, balance: int)

  /** What a `DateField` column can hold: every date is a calendar date. */
  predicate ValidDates(txs: seq<Transaction>) {
    forall i :: 0 <= i < |txs| ==> ValidDate(txs[i].date)
  }

  /** The elements of `s` that `keep` accepts, in their order: a `.filter(...)`. */
  function Where<T(!new)>(s: seq<T>, keep: T -> bool): (r: seq<T>)
    ensures |r| <= |s|
    ensures forall x :: x in r <==> x in s && keep(x)
    ensures multiset(r) <= multiset(s)
  {
    if s == [] then []
    else
      var head, rest := if keep(s[0]) then [s[0]] else [], Where(s[1..], keep);
      assert s == [s[0]] + s[1..];
      assert forall x :: x in s <==> x == s[0] || x in s[1..];
      head + rest
  }

  /** Filtering keeps order: the kept part of a concatenation is the kept part of
      the front followed by the kept part of the back. */
  lemma {:induction false} WhereAppend<T(!new)>(a: seq<T>, b: seq<T>, keep: T -> bool)
    ensures Where(a + b, keep) == Where(a, keep) + Where(b, keep)
  {
    if a == [] {
      assert a + b == b;
    } else {
      assert (a + b)[0] == a[0] && (a + b)[1..] == a[1..] + b;
      WhereAppend(a[1..], b, keep);
    }
  }

  /** Filtering keeps every accepted element as often as it occurs, and no other. */
  lemma {:induction false} WhereCount<T(!new)>(s: seq<T>, keep: T -> bool, x: T)
    ensures multiset(Where(s, keep))[x] == if keep(x) then multiset(s)[x] else 0
  {
    if s != [] {
      assert s == [s[0]] + s[1..];
      WhereCount(s[1..], keep, x);
    }
  }

  /** Filtering keeps calendar dates calendar dates. */
  lemma WhereValidDates(txs: seq<Transaction>, keep: Transaction -> bool)
    requires ValidDates(txs)
    ensures ValidDates(Where(txs, keep))
  {
    var r := Where(txs, keep);
    forall i | 0 <= i < |r| ensures ValidDate(r[i].date) {
      assert r[i] in txs;
    }
  }
}
