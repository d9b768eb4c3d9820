/** `BudgetSerializer.create` and `BudgetSerializer.update` (`core/serializers.py`):
    a budget record updated in place, and the budget-item table whose rows for
    one budget are replaced wholesale when a non-empty item list is supplied. */
module Budgets {
  import opened Calendar
  import opened Ledger

  /** A `BudgetItem` row: its id, the budget it belongs to, its category and limit (cents). */
  datatype Item = Item(id: nat, budget: nat, category: nat, limit: int)

  /** One validated entry of the `items` list: what a new row is made from. */
  datatype ItemInput = ItemInput(category: nat, limit: int)

  /** One writable field of `validated_data`, as `update` visits it. */
  datatype FieldValue = MonthValue(month: Date) | TotalLimitValue(totalLimit: int)

  // ---------- Item rows as values ----------

  /** The rows of `budget`, in table order: `instance.items.all()`. */
  function ItemsOf(rows: seq<Item>, budget: nat): (r: seq<Item>)
    ensures |r| <= |rows|
    ensures forall x :: x in r <==> x in rows && x.budget == budget
  {
    if rows == [] then []
    else
      var last := rows[|rows| - 1];
      var init := rows[..|rows| - 1];
      assert forall x :: x in rows <==> x in init || x == last by {
        assert rows == init + [last];
      }
      ItemsOf(init, budget) + (if last.budget == budget then [last] else [])
  }

  /** The table once `budget`'s rows are deleted. */
  function Without(rows: seq<Item>, budget: nat): (r: seq<Item>)
    ensures |r| <= |rows|
    ensures forall x :: x in r <==> x in rows && x.budget != budget
  {
    if rows == [] then []
    else
      var last := rows[|rows| - 1];
      var init := rows[..|rows| - 1];
      assert forall x :: x in rows <==> x in init || x == last by {
        assert rows == init + [last];
      }
      Without(init, budget) + (if last.budget == budget then [] else [last])
  }

  /** The rows `BudgetItem.objects.create(budget=..., **item)` makes for `inputs`,
      in order, with ids counted up from `firstId`. */
  function NewItems(firstId: nat, budget: nat, inputs: seq<ItemInput>): (r: seq<Item>)
    ensures |r| == |inputs|
  {
    if inputs == [] then []
    else
      var k := |inputs| - 1;
      NewItems(firstId, budget, inputs[..k]) + [Item(firstId + k, budget, inputs[k].category, inputs[k].limit)]
  }

  /** What the client sees of a budget's rows: category and limit, in order. */
  function Inputs(rows: seq<Item>): (r: seq<ItemInput>)
    ensures |r| == |rows|
  {
    if rows == [] then [] else Inputs(rows[..|rows| - 1]) + [ItemInput(rows[|rows| - 1].category, rows[|rows| - 1].limit)]
  }

  lemma {:induction false} NewItemsAt(firstId: nat, budget: nat, inputs: seq<ItemInput>, k: nat)
    requires k < |inputs|
    ensures NewItems(firstId, budget, inputs)[k] == Item(firstId + k, budget, inputs[k].category, inputs[k].limit)
  {
    var n := |inputs| - 1;
    if k < n {
      assert inputs[..n][k] == inputs[k];
      NewItemsAt(firstId, budget, inputs[..n], k);
    }
  }

  /** The created rows carry exactly the supplied entries, in order, all for `budget`. */
  lemma NewItemsRoundTrip(firstId: nat, budget: nat, inputs: seq<ItemInput>)
    ensures Inputs(NewItems(firstId, budget, inputs)) == inputs
    ensures ItemsOf(NewItems(firstId, budget, inputs), budget) == NewItems(firstId, budget, inputs)
  {
    NewItemsInputs(firstId, budget, inputs);
    NewItemsAllOf(firstId, budget, inputs);
  }

  lemma {:induction false} NewItemsInputs(firstId: nat, budget: nat, inputs: seq<ItemInput>)
    ensures Inputs(NewItems(firstId, budget, inputs)) == inputs
  {
    if inputs != [] {
      var k := |inputs| - 1;
      var r := NewItems(firstId, budget, inputs);
      assert r[..k] == NewItems(firstId, budget, inputs[..k]);
      NewItemsInputs(firstId, budget, inputs[..k]);
      assert inputs[..k] + [inputs[k]] == inputs;
    }
  }

  lemma {:induction false} NewItemsAllOf(firstId: nat, budget: nat, inputs: seq<ItemInput>)
    ensures ItemsOf(NewItems(firstId, budget, inputs), budget) == NewItems(firstId, budget, inputs)
  {
    if inputs != [] {
      var k := |inputs| - 1;
      var r := NewItems(firstId, budget, inputs);
      assert r[..k] == NewItems(firstId, budget, inputs[..k]);
      NewItemsAllOf(firstId, budget, inputs[..k]);
    }
  }

  /** Appending rows adds them to their budget's items and to no other budget's. */
  lemma {:induction false} ItemsOfAppend(rows: seq<Item>, more: seq<Item>, budget: nat)
    ensures ItemsOf(rows + more, budget) == ItemsOf(rows, budget) + ItemsOf(more, budget)
    decreases |more|
  {
    if more == [] {
      assert rows + more == rows;
    } else {
      var k := |more| - 1;
      assert (rows + more)[..|rows + more| - 1] == rows + more[..k];
      assert (rows + more)[|rows + more| - 1] == more[k];
      ItemsOfAppend(rows, more[..k], budget);
    }
  }

  /** Deleting `budget`'s rows empties its items and keeps every other budget's. */
  lemma ItemsOfWithout(rows: seq<Item>, budget: nat, other: nat)
    ensures ItemsOf(Without(rows, budget), budget) == []
    ensures other != budget ==> ItemsOf(Without(rows, budget), other) == ItemsOf(rows, other)
  {
    var r := Without(rows, budget);
    forall i | 0 <= i < |r| ensures r[i].budget != budget {
      assert r[i] in r;
    }
    ItemsOfAbsent(r, budget);
    if other != budget {
      WithoutKeepsOthers(rows, budget, other);
    }
  }

  lemma {:induction false} WithoutKeepsOthers(rows: seq<Item>, budget: nat, other: nat)
    requires other != budget
    ensures ItemsOf(Without(rows, budget), other) == ItemsOf(rows, other)
  {
    if rows != [] {
      var last, init := rows[|rows| - 1], rows[..|rows| - 1];
      WithoutKeepsOthers(init, budget, other);
      var tail := if last.budget == budget then [] else [last];
      ItemsOfAppend(Without(init, budget), tail, other);
      ItemsOfSingle(last, other);
    }
  }

  lemma ItemsOfSingle(x: Item, budget: nat)
    ensures ItemsOf([x], budget) == if x.budget == budget then [x] else []
  {
    assert [x][..0] == [];
  }

  /** A budget no row points at has no items. */
  lemma {:induction false} ItemsOfAbsent(rows: seq<Item>, budget: nat)
    requires forall i :: 0 <= i < |rows| ==> rows[i].budget != budget
    ensures ItemsOf(rows, budget) == []
  {
    if rows != [] {
      ItemsOfAbsent(rows[..|rows| - 1], budget);
    }
  }

  /** No month is supplied after position `k`. */
  predicate LastMonthAt(fields: seq<FieldValue>, k: nat) {
    forall j :: k < j < |fields| ==> !fields[j].MonthValue?
  }

  /** No total limit is supplied after position `k`. */
  predicate LastTotalLimitAt(fields: seq<FieldValue>, k: nat) {
    forall j :: k < j < |fields| ==> !fields[j].TotalLimitValue?
  }

  /** The month after `update` wrote `fields` in order: the last supplied month, or
      the old one when none was supplied. */
  function MonthAfter(fields: seq<FieldValue>, month: Date): (r: Date)
    ensures (forall i :: 0 <= i < |fields| ==> !fields[i].MonthValue?) ==> r == month
    ensures r != month ==> exists i :: 0 <= i < |fields| && fields[i] == MonthValue(r)
  {
    if fields == [] then month
    else
      var k := |fields| - 1;
      assert forall i :: 0 <= i < k ==> fields[..k][i] == fields[i];
      match fields[k]
      case MonthValue(m) => m
      case TotalLimitValue(_) => MonthAfter(fields[..k], month)
  }

  /** Likewise for `total_limit`. */
  function TotalLimitAfter(fields: seq<FieldValue>, totalLimit: int): (r: int)
    ensures (forall i :: 0 <= i < |fields| ==> !fields[i].TotalLimitValue?) ==> r == totalLimit
    ensures r != totalLimit ==> exists i :: 0 <= i < |fields| && fields[i] == TotalLimitValue(r)
  {
    if fields == [] then totalLimit
    else
      var k := |fields| - 1;
      assert forall i :: 0 <= i < k ==> fields[..k][i] == fields[i];
      match fields[k]
      case TotalLimitValue(t) => t
      case MonthValue(_) => TotalLimitAfter(fields[..k], totalLimit)
  }

  /** The last month supplied is the one that stays. */
  lemma {:induction false} MonthLastWins(fields: seq<FieldValue>, month: Date, k: nat)
    requires k < |fields| && fields[k].MonthValue? && LastMonthAt(fields, k)
    ensures MonthAfter(fields, month) == fields[k].month
    decreases |fields|
  {
    var n := |fields| - 1;
    if k < n {
      assert !fields[n].MonthValue?;
      assert LastMonthAt(fields[..n], k) by {
        forall j | k < j < n ensures !fields[..n][j].MonthValue? {
          assert fields[..n][j] == fields[j];
        }
      }
      MonthLastWins(fields[..n], month, k);
    }
  }

  /** The last total limit supplied is the one that stays. */
  lemma {:induction false} TotalLimitLastWins(fields: seq<FieldValue>, totalLimit: int, k: nat)
    requires k < |fields| && fields[k].TotalLimitValue? && LastTotalLimitAt(fields, k)
    ensures TotalLimitAfter(fields, totalLimit) == fields[k].totalLimit
    decreases |fields|
  {
    var n := |fields| - 1;
    if k < n {
      assert !fields[n].TotalLimitValue?;
      assert LastTotalLimitAt(fields[..n], k) by {
        forall j | k < j < n ensures !fields[..n][j].TotalLimitValue? {
          assert fields[..n][j] == fields[j];
        }
      }
      TotalLimitLastWins(fields[..n], totalLimit, k);
    }
  }

  // ---------- The records ----------

  /** A `Budget` instance; `owner` and `id` are read-only for the serializer. */
  class Budget {
    const id: nat
    const owner: UserId
    var month: Date
    var totalLimit: int

    constructor (id: nat, owner: UserId, month: Date, totalLimit: int)
      ensures this.id == id && this.owner == owner && this.month == month && this.totalLimit == totalLimit
    {
      this.id := id;
      this.owner := owner;
      this.month := month;
      this.totalLimit := totalLimit;
    }

    /** `for attr, value in validated_data.items(): setattr(instance, attr, value)`:
        each supplied field is written in turn, so the last value of a field wins. */
    method Assign(fields: seq<FieldValue>)
      modifies this
      ensures month == MonthAfter(fields, old(month)) && totalLimit == TotalLimitAfter(fields, old(totalLimit))
    {
      var k := 0;
      while k < |fields|
        invariant 0 <= k <= |fields|
        invariant month == MonthAfter(fields[..k], old(month))
        invariant totalLimit == TotalLimitAfter(fields[..k], old(totalLimit))
      {
        assert fields[..k + 1][..k] == fields[..k];
        match fields[k] {
          case MonthValue(m) => month := m;
          case TotalLimitValue(t) => totalLimit := t;
        }
        k := k + 1;
      }
      assert fields[..|fields|] == fields;
    }
  }

  /** Item ids grow along the table: rows are appended with ids from the counter. */
  predicate IncreasingIds(rows: seq<Item>) {
    forall i, j :: 0 <= i < j < |rows| ==> rows[i].id < rows[j].id
  }

  /** Budget ids are below the counter and distinct, and no two budgets share
      an owner and a month (`unique_together = ('owner', 'month')`). */
  ghost predicate UniqueMonths(budgets: set<Budget>, nextId: nat)
    reads budgets
  {
    && (forall b :: b in budgets ==> b.id < nextId)
    && (forall a, c :: a in budgets && c in budgets && a != c ==>
          a.id != c.id && (a.owner != c.owner || a.month != c.month))
  }

  /** Whether a budget other than `except` already holds `owner`'s `month`:
      the unique constraint a save would violate. */
  predicate Taken(budgets: set<Budget>, owner: UserId, month: Date, except: Budget?)
    reads budgets
  {
    exists c :: c in budgets && c != except && c.owner == owner && c.month == month
  }

  /** A new budget with the next id and a free (owner, month) keeps the table unique. */
  lemma AddKeepsUnique(budgets: set<Budget>, nextId: nat, x: Budget)
    requires UniqueMonths(budgets, nextId) && x !in budgets && x.id == nextId
    requires !Taken(budgets, x.owner, x.month, null)
    ensures UniqueMonths(budgets + {x}, nextId + 1)
  {
  }

  /** The budget and budget-item tables. */
  class Database {
    var budgets: set<Budget>
    var nextBudgetId: nat
    var nextItemId: nat
    var items: seq<Item>

    /** Every item has an id below the counter, ids grow along the table (so they
        are distinct), and every item points at a budget already made. */
    ghost predicate ItemsValid()
      reads this
    {
      && (forall i :: 0 <= i < |items| ==> items[i].id < nextItemId && items[i].budget < nextBudgetId)
      && IncreasingIds(items)
    }

    ghost predicate Valid()
      reads this, budgets
    {
      ItemsValid() && UniqueMonths(budgets, nextBudgetId)
    }

    constructor ()
      ensures Valid() && budgets == {} && items == [] && nextBudgetId == 0 && nextItemId == 0
    {
      budgets, nextBudgetId, nextItemId, items := {}, 0, 0, [];
    }

    /** `BudgetItem.objects.create(budget=budget, **item)`. */
    method CreateItem(budget: nat, input: ItemInput) returns (item: Item)
      requires ItemsValid() && budget < nextBudgetId
      modifies this
      ensures ItemsValid()
      ensures item == Item(old(nextItemId), budget, input.category, input.limit)
      ensures items == old(items) + [item]
      ensures nextItemId == old(nextItemId) + 1
      ensures budgets == old(budgets) && nextBudgetId == old(nextBudgetId)
    {
      item := Item(nextItemId, budget, input.category, input.limit);
      forall y | y in items ensures y.id < item.id {
        var j :| 0 <= j < |items| && items[j] == y;
      }
      KeepIncreasing(items, item);
      items := items + [item];
      nextItemId := nextItemId + 1;
    }

    /** `for item in items: BudgetItem.objects.create(budget=..., **item)`. */
    method CreateItems(budget: nat, inputs: seq<ItemInput>)
      requires ItemsValid() && budget < nextBudgetId
      modifies this
      ensures ItemsValid()
      ensures items == old(items) + NewItems(old(nextItemId), budget, inputs)
      ensures nextItemId == old(nextItemId) + |inputs|
      ensures budgets == old(budgets) && nextBudgetId == old(nextBudgetId)
    {
      var k := 0;
      while k < |inputs|
        invariant 0 <= k <= |inputs|
        invariant ItemsValid()
        invariant budgets == old(budgets) && nextBudgetId == old(nextBudgetId)
        invariant nextItemId == old(nextItemId) + k
        invariant items == old(items) + NewItems(old(nextItemId), budget, inputs[..k])
      {
        assert inputs[..k + 1][..k] == inputs[..k];
        var _ := CreateItem(budget, inputs[k]);
        k := k + 1;
      }
      assert inputs[..|inputs|] == inputs;
    }

    /** `instance.items.all().delete()`: one pass over the table keeping the other
        budgets' rows. */
    method DeleteItemsOf(budget: nat)
      requires ItemsValid()
      modifies this
      ensures ItemsValid()
      ensures items == Without(old(items), budget)
      ensures nextItemId == old(nextItemId)
      ensures budgets == old(budgets) && nextBudgetId == old(nextBudgetId)
    {
      var rows := items;
      var kept: seq<Item> := [];
      var k := 0;
      while k < |rows|
        invariant 0 <= k <= |rows|
        invariant kept == Without(rows[..k], budget)
      {
        assert rows[..k + 1][..k] == rows[..k];
        if rows[k].budget != budget {
          kept := kept + [rows[k]];
        }
        k := k + 1;
      }
      assert rows[..|rows|] == rows;
      WithoutIncreasing(rows, budget);
      forall i | 0 <= i < |kept| ensures kept[i].id < nextItemId && kept[i].budget < nextBudgetId {
        assert kept[i] in rows;
        var j :| 0 <= j < |rows| && rows[j] == kept[i];
      }
      items := kept;
    }

    /** `instance.items.all().delete()` followed by one create per entry: the
        budget's rows become exactly the supplied entries. */
    method ReplaceItems(budget: nat, inputs: seq<ItemInput>)
      requires ItemsValid() && budget < nextBudgetId
      modifies this
      ensures ItemsValid()
      ensures budgets == old(budgets) && nextBudgetId == old(nextBudgetId)
      ensures ItemsOf(items, budget) == NewItems(old(nextItemId), budget, inputs)
      ensures Inputs(ItemsOf(items, budget)) == inputs
      ensures forall other :: other != budget ==> ItemsOf(items, other) == ItemsOf(old(items), other)
    {
      ghost var before := items;
      DeleteItemsOf(budget);
      ghost var firstId := nextItemId;
      CreateItems(budget, inputs);
      ReplacedItems(before, firstId, budget, inputs);
    }

    /** `create`: the budget from the given fields (with a fresh id), then one item
        per supplied entry, in order. When the owner already has a budget for that
        month the insert violates the unique constraint and nothing is written. */
    method Create(owner: UserId, month: Date, totalLimit: int, inputs: seq<ItemInput>) returns (b: Budget?)
      requires Valid()
      modifies this
      ensures Valid()
      ensures b == null <==> old(Taken(budgets, owner, month, null))
      ensures b == null ==>
        budgets == old(budgets) && items == old(items)
        && nextBudgetId == old(nextBudgetId) && nextItemId == old(nextItemId)
      ensures b != null ==>
        && fresh(b) && budgets == old(budgets) + {b}
        && b.id == old(nextBudgetId) && b.owner == owner && b.month == month && b.totalLimit == totalLimit
        && ItemsOf(items, b.id) == NewItems(old(nextItemId), b.id, inputs)
        && Inputs(ItemsOf(items, b.id)) == inputs
        && forall other :: other != b.id ==> ItemsOf(items, other) == ItemsOf(old(items), other)
    {
      if Taken(budgets, owner, month, null) {
        return null;
      }
      var created := new Budget(nextBudgetId, owner, month, totalLimit);
      AddKeepsUnique(budgets, nextBudgetId, created);
      budgets := budgets + {created};
      nextBudgetId := nextBudgetId + 1;
      assert UniqueMonths(budgets, nextBudgetId);
      ghost var before, firstId := items, nextItemId;
      assert forall i :: 0 <= i < |before| ==> before[i].budget != created.id;
      CreateItems(created.id, inputs);
      assert UniqueMonths(budgets, nextBudgetId);
      AddedItems(before, firstId, created.id, inputs);
      b := created;
    }

    /** The field writes and `instance.save()` of `update`: each supplied field is
        written in turn; a save that gives the owner a second budget for one month
        violates the unique constraint, and the stored row keeps its old values. */
    method SaveFields(b: Budget, fields: seq<FieldValue>) returns (saved: bool)
      requires UniqueMonths(budgets, nextBudgetId) && b in budgets
      modifies b
      ensures UniqueMonths(budgets, nextBudgetId)
      ensures saved <==> !old(Taken(budgets, b.owner, MonthAfter(fields, b.month), b))
      ensures !saved ==> b.month == old(b.month) && b.totalLimit == old(b.totalLimit)
      ensures saved ==>
        b.month == MonthAfter(fields, old(b.month)) && b.totalLimit == TotalLimitAfter(fields, old(b.totalLimit))
    {
      var month0, limit0 := b.month, b.totalLimit;
      b.Assign(fields);
      var month := b.month;
      // Only `b` was written, so whether another budget holds the month is as before.
      assert Taken(budgets, b.owner, month, b) == old(Taken(budgets, b.owner, month, b)) by {
        forall c | c in budgets && c != b ensures c.month == old(c.month) { }
      }
      if Taken(budgets, b.owner, month, b) {
        b.month, b.totalLimit := month0, limit0;
        return false;
      }
      forall a, c | a in budgets && c in budgets && a != c
        ensures a.id != c.id && (a.owner != c.owner || a.month != c.month)
      {
        if a != b && c != b {
          assert a.month == old(a.month) && c.month == old(c.month);
        }
      }
      return true;
    }

    /** `update`: the fields are written and saved; when the save succeeds, a
        non-empty item list replaces the budget's items, and an empty or absent
        one leaves them. A failed save raises before the items are touched. */
    method Update(b: Budget, fields: seq<FieldValue>, inputs: seq<ItemInput>) returns (saved: bool)
      requires Valid() && b in budgets
      modifies this, b
      ensures Valid()
      ensures budgets == old(budgets) && nextBudgetId == old(nextBudgetId)
      ensures saved <==> !old(Taken(budgets, b.owner, MonthAfter(fields, b.month), b))
      ensures !saved ==>
        b.month == old(b.month) && b.totalLimit == old(b.totalLimit)
        && items == old(items) && nextItemId == old(nextItemId)
      ensures saved ==>
        b.month == MonthAfter(fields, old(b.month)) && b.totalLimit == TotalLimitAfter(fields, old(b.totalLimit))
      ensures saved && inputs == [] ==> items == old(items)
      ensures saved && inputs != [] ==>
        ItemsOf(items, b.id) == NewItems(old(nextItemId), b.id, inputs) && Inputs(ItemsOf(items, b.id)) == inputs
      ensures forall other :: other != b.id ==> ItemsOf(items, other) == ItemsOf(old(items), other)
    {
      saved := SaveFields(b, fields);
      if saved && inputs != [] {
        ReplaceItems(b.id, inputs);
      }
    }
  }

  /** Appending a row whose id exceeds every id so far keeps ids increasing. */
  lemma KeepIncreasing(rows: seq<Item>, x: Item)
    requires IncreasingIds(rows)
    requires forall y :: y in rows ==> y.id < x.id
    ensures IncreasingIds(rows + [x])
  {
    forall i, j | 0 <= i < j < |rows + [x]| ensures (rows + [x])[i].id < (rows + [x])[j].id {
      if j == |rows| {
        assert (rows + [x])[i] in rows;
      }
    }
  }

  /** Deleting one budget's rows keeps the ids increasing. */
  lemma {:induction false} WithoutIncreasing(rows: seq<Item>, budget: nat)
    requires IncreasingIds(rows)
    ensures IncreasingIds(Without(rows, budget))
  {
    if rows != [] {
      var last := rows[|rows| - 1];
      var init := rows[..|rows| - 1];
      WithoutIncreasing(init, budget);
      if last.budget != budget {
        forall y | y in Without(init, budget) ensures y.id < last.id {
          var j :| 0 <= j < |init| && init[j] == y;
        }
        KeepIncreasing(Without(init, budget), last);
      }
    }
  }

  /** Appending the rows made for `budget` to a table holding none of its rows
      gives `budget` exactly the supplied entries and changes no other budget. */
  lemma AddedItems(before: seq<Item>, firstId: nat, budget: nat, inputs: seq<ItemInput>)
    requires forall i :: 0 <= i < |before| ==> before[i].budget != budget
    ensures ItemsOf(before + NewItems(firstId, budget, inputs), budget) == NewItems(firstId, budget, inputs)
    ensures Inputs(ItemsOf(before + NewItems(firstId, budget, inputs), budget)) == inputs
    ensures forall other :: other != budget ==>
      ItemsOf(before + NewItems(firstId, budget, inputs), other) == ItemsOf(before, other)
  {
    var added := NewItems(firstId, budget, inputs);
    ItemsOfAbsent(before, budget);
    ItemsOfAppend(before, added, budget);
    NewItemsRoundTrip(firstId, budget, inputs);
    forall other | other != budget ensures ItemsOf(before + added, other) == ItemsOf(before, other) {
      ItemsOfAppend(before, added, other);
      NewItemsElsewhere(firstId, budget, inputs, other);
    }
  }

  /** Deleting `budget`'s rows and appending new ones replaces its items by the
      supplied entries and changes no other budget. */
  lemma ReplacedItems(before: seq<Item>, firstId: nat, budget: nat, inputs: seq<ItemInput>)
    ensures ItemsOf(Without(before, budget) + NewItems(firstId, budget, inputs), budget) == NewItems(firstId, budget, inputs)
    ensures Inputs(ItemsOf(Without(before, budget) + NewItems(firstId, budget, inputs), budget)) == inputs
    ensures forall other :: other != budget ==>
      ItemsOf(Without(before, budget) + NewItems(firstId, budget, inputs), other) == ItemsOf(before, other)
  {
    var cleared := Without(before, budget);
    forall i | 0 <= i < |cleared| ensures cleared[i].budget != budget {
      assert cleared[i] in cleared;
    }
    AddedItems(cleared, firstId, budget, inputs);
    forall other | other != budget ensures ItemsOf(cleared, other) == ItemsOf(before, other) {
      ItemsOfWithout(before, budget, other);
    }
  }

  /** Rows created for one budget are none of another budget's items. */
  lemma NewItemsElsewhere(firstId: nat, budget: nat, inputs: seq<ItemInput>, other: nat)
    requires other != budget
    ensures ItemsOf(NewItems(firstId, budget, inputs), other) == []
  {
    var r := NewItems(firstId, budget, inputs);
    forall i | 0 <= i < |r| ensures r[i].budget != other {
      NewItemsAt(firstId, budget, inputs, i);
    }
    ItemsOfAbsent(r, other);
  }
}
