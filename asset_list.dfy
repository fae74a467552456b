/**
 * The asset list page (src/app/assets-hub/list/page.tsx): the stored assets grouped by type,
 * with per-currency totals overall and per group.
 */
module AssetList {
  import opened Percent
  import opened AssetStorage

  /** One entry of `Object.entries(groupBy(...))`: a key and its items. */
  datatype Group<T> = Group(key: string, items: seq<T>)

  /** The position of the group for `k`, or -1. */
  function GroupIndex<T>(groups: seq<Group<T>>, k: string): (j: int)
    ensures -1 <= j < |groups|
    ensures j >= 0 ==> groups[j].key == k
    ensures j == -1 ==> forall i :: 0 <= i < |groups| ==> groups[i].key != k
  {
    if groups == [] then -1
    else if groups[|groups| - 1].key == k then |groups| - 1
    else GroupIndex(groups[..|groups| - 1], k)
  }

  /** One step of the reduce: `(acc[k] ||= []).push(item)`. A new key opens a group after the
      existing ones, as object keys keep insertion order. */
  function Insert<T>(groups: seq<Group<T>>, k: string, x: T): seq<Group<T>> {
    var j := GroupIndex(groups, k);
    if j >= 0 then groups[j := Group(k, groups[j].items + [x])] else groups + [Group(k, [x])]
  }

  /** The groups after reducing over `arr` from left to right. */
  function Grouped<T>(arr: seq<T>, key: T -> string): seq<Group<T>> {
    if arr == [] then []
    else Insert(Grouped(arr[..|arr| - 1], key), key(arr[|arr| - 1]), arr[|arr| - 1])
  }

  /** The items of `arr` with key k, in input order. */
  function Select<T>(arr: seq<T>, key: T -> string, k: string): (r: seq<T>)
    ensures |r| <= |arr|
  {
    if arr == [] then []
    else Select(arr[..|arr| - 1], key, k) + (if key(arr[|arr| - 1]) == k then [arr[|arr| - 1]] else [])
  }

  /** `groupBy(arr, getKey)` */
  method GroupBy<T>(arr: seq<T>, key: T -> string) returns (groups: seq<Group<T>>)
    ensures groups == Grouped(arr, key)
  {
    groups := [];
    for i := 0 to |arr|
      invariant groups == Grouped(arr[..i], key)
    {
      assert arr[..i + 1][..i] == arr[..i];
      var k := key(arr[i]);
      var j := GroupIndex(groups, k);
      if j >= 0 {
        groups := groups[j := Group(k, groups[j].items + [arr[i]])];
      } else {
        groups := groups + [Group(k, [arr[i]])];
      }
    }
    assert arr[..|arr|] == arr;
  }

  predicate DistinctKeys<T>(groups: seq<Group<T>>) {
    forall i, j :: 0 <= i < j < |groups| ==> groups[i].key != groups[j].key
  }

  /** One insertion keeps the existing keys in place, appends x to the group of k
      (opening it last when k is new) and leaves the other groups alone. */
  lemma InsertShape<T>(g: seq<Group<T>>, k: string, x: T)
    requires DistinctKeys(g)
    ensures var g' := Insert(g, k, x);
      && DistinctKeys(g')
      && GroupIndex(g', k) >= 0
      && (GroupIndex(g, k) >= 0 ==> |g'| == |g|)
      && (GroupIndex(g, k) < 0 ==> |g'| == |g| + 1 && g'[|g|] == Group(k, [x]))
      && (forall j :: 0 <= j < |g| ==>
            (g'[j].key == g[j].key && g'[j].items == g[j].items + (if g[j].key == k then [x] else [])))
  {
    var g' := Insert(g, k, x);
    var jx := GroupIndex(g, k);
    GroupIndexFound(g', k, if jx >= 0 then jx else |g|);
  }

  /** The keys of the groups are distinct and every item's key has a group. */
  lemma {:induction false} GroupedKeys<T>(arr: seq<T>, key: T -> string)
    ensures DistinctKeys(Grouped(arr, key))
    ensures forall i :: 0 <= i < |arr| ==> GroupIndex(Grouped(arr, key), key(arr[i])) >= 0
  {
    if arr != [] {
      var init := arr[..|arr| - 1];
      var x := arr[|arr| - 1];
      GroupedKeys(init, key);
      var g0 := Grouped(init, key);
      var g := Grouped(arr, key);
      InsertShape(g0, key(x), x);
      forall i | 0 <= i < |arr| - 1
        ensures GroupIndex(g, key(arr[i])) >= 0
      {
        assert arr[i] == init[i];
        var j0 := GroupIndex(g0, key(init[i]));
        GroupIndexFound(g, key(arr[i]), j0);
      }
    }
  }

  ghost predicate GroupsExact<T>(g: seq<Group<T>>, arr: seq<T>, key: T -> string) {
    forall j :: 0 <= j < |g| ==> g[j].items == Select(arr, key, g[j].key) && g[j].items != []
  }

  lemma SelectSnoc<T>(arr: seq<T>, key: T -> string, x: T, k: string)
    ensures Select(arr + [x], key, k) == Select(arr, key, k) + (if key(x) == k then [x] else [])
  {
    assert (arr + [x])[..|arr|] == arr;
  }

  /** Inserting the next item keeps every group exact. */
  lemma InsertExact<T>(g: seq<Group<T>>, arr: seq<T>, key: T -> string, x: T)
    requires DistinctKeys(g) && GroupsExact(g, arr, key)
    requires forall i :: 0 <= i < |arr| ==> GroupIndex(g, key(arr[i])) >= 0
    ensures GroupsExact(Insert(g, key(x), x), arr + [x], key)
  {
    InsertShape(g, key(x), x);
    var g' := Insert(g, key(x), x);
    forall j | 0 <= j < |g'|
      ensures g'[j].items == Select(arr + [x], key, g'[j].key) && g'[j].items != []
    {
      SelectSnoc(arr, key, x, g'[j].key);
      if j == |g| {
        SelectAbsent(arr, key, key(x), g);
      }
    }
  }

  /** Each item lands in exactly the group of its key: every group holds precisely the items
      with its key, in input order, and is non-empty. */
  lemma {:induction false} GroupedExact<T>(arr: seq<T>, key: T -> string)
    ensures GroupsExact(Grouped(arr, key), arr, key)
  {
    if arr != [] {
      var init := arr[..|arr| - 1];
      var x := arr[|arr| - 1];
      GroupedExact(init, key);
      GroupedKeys(init, key);
      InsertExact(Grouped(init, key), init, key, x);
      assert init + [x] == arr;
    }
  }

  /** A key with a group is found by GroupIndex. */
  lemma GroupIndexFound<T>(groups: seq<Group<T>>, k: string, j: int)
    requires 0 <= j < |groups| && groups[j].key == k
    ensures GroupIndex(groups, k) >= 0
  {
  }

  /** A key without a group selects nothing, when every item's key has a group. */
  lemma SelectAbsent<T>(arr: seq<T>, key: T -> string, k: string, g: seq<Group<T>>)
    requires forall i :: 0 <= i < |arr| ==> GroupIndex(g, key(arr[i])) >= 0
    requires GroupIndex(g, k) < 0
    ensures Select(arr, key, k) == []
  {
    if arr != [] {
      assert forall i :: 0 <= i < |arr| - 1 ==> arr[..|arr| - 1][i] == arr[i];
      SelectAbsent(arr[..|arr| - 1], key, k, g);
    }
  }

  function Sizes<T>(groups: seq<Group<T>>): (s: seq<int>)
    ensures |s| == |groups| && forall j :: 0 <= j < |groups| ==> s[j] == |groups[j].items|
  {
    seq(|groups|, j requires 0 <= j < |groups| => |groups[j].items|)
  }

  /** Inserting an item makes exactly one group one larger. */
  lemma SizesInsert<T>(g: seq<Group<T>>, k: string, x: T)
    ensures Sum(Sizes(Insert(g, k, x))) == Sum(Sizes(g)) + 1
  {
    var j := GroupIndex(g, k);
    if j >= 0 {
      assert Sizes(Insert(g, k, x)) == Sizes(g)[j := |g[j].items| + 1];
      SumUpdate(Sizes(g), j, |g[j].items| + 1);
    } else {
      assert Sizes(Insert(g, k, x)) == Sizes(g) + [1];
      SumAppend(Sizes(g), [1]);
      assert Sum([1]) == 1 + Sum([]);
    }
  }

  /** The group sizes add up to the number of items. */
  lemma {:induction false} GroupSizes<T>(arr: seq<T>, key: T -> string)
    ensures Sum(Sizes(Grouped(arr, key))) == |arr|
  {
    if arr != [] {
      var init := arr[..|arr| - 1];
      GroupSizes(init, key);
      SizesInsert(Grouped(init, key), key(arr[|arr| - 1]), arr[|arr| - 1]);
    }
  }

  /** The amounts in currency c, zero for the others. */
  function CurrencyAmounts(items: seq<Asset>, c: Currency): (s: seq<int>)
    ensures |s| == |items|
  {
    seq(|items|, k requires 0 <= k < |items| => if items[k].currency == c then items[k].amount else 0)
  }

  /** The sum of the amounts in currency c. */
  function AmountSum(items: seq<Asset>, c: Currency): int {
    Sum(CurrencyAmounts(items, c))
  }

  function Amounts(items: seq<Asset>): (s: seq<int>)
    ensures |s| == |items|
  {
    seq(|items|, k requires 0 <= k < |items| => items[k].amount)
  }

  lemma AmountSumSnoc(items: seq<Asset>, x: Asset, c: Currency)
    ensures AmountSum(items + [x], c) == AmountSum(items, c) + (if x.currency == c then x.amount else 0)
  {
    var a := if x.currency == c then x.amount else 0;
    assert CurrencyAmounts(items + [x], c) == CurrencyAmounts(items, c) + [a];
    SumAppend(CurrencyAmounts(items, c), [a]);
    assert Sum([a]) == a + Sum([]);
  }

  /** `sumByCurrency(items)`: the JPY total and the USD total. */
  method SumByCurrency(items: seq<Asset>) returns (jpy: int, usd: int)
    ensures jpy == AmountSum(items, JPY) && usd == AmountSum(items, USD)
  {
    jpy, usd := 0, 0;
    for i := 0 to |items|
      invariant jpy == AmountSum(items[..i], JPY) && usd == AmountSum(items[..i], USD)
    {
      assert items[..i + 1] == items[..i] + [items[i]];
      AmountSumSnoc(items[..i], items[i], JPY);
      AmountSumSnoc(items[..i], items[i], USD);
      if items[i].currency == JPY {
        jpy := jpy + items[i].amount;
      } else {
        usd := usd + items[i].amount;
      }
    }
    assert items[..|items|] == items;
  }

  /** The two currency totals together are the sum of all amounts. */
  lemma {:induction false} CurrencySplit(items: seq<Asset>)
    ensures AmountSum(items, JPY) + AmountSum(items, USD) == Sum(Amounts(items))
  {
    if items != [] {
      var init := items[..|items| - 1];
      var x := items[|items| - 1];
      assert items == init + [x];
      CurrencySplit(init);
      AmountSumSnoc(init, x, JPY);
      AmountSumSnoc(init, x, USD);
      assert Amounts(items) == Amounts(init) + [x.amount];
      SumAppend(Amounts(init), [x.amount]);
      assert Sum([x.amount]) == x.amount + Sum([]);
    }
  }

  /** The key the page groups by: the asset's type literal. */
  function TypeKey(a: Asset): string {
    TypeName(a.kind)
  }

  function Subtotals(groups: seq<Group<Asset>>, c: Currency): (s: seq<int>)
    ensures |s| == |groups| && forall j :: 0 <= j < |groups| ==> s[j] == AmountSum(groups[j].items, c)
  {
    seq(|groups|, j requires 0 <= j < |groups| => AmountSum(groups[j].items, c))
  }

  /** Inserting an asset under key k adds its amount, if in currency c, to exactly one
      subtotal. */
  lemma SubtotalsInsert(g: seq<Group<Asset>>, k: string, x: Asset, c: Currency)
    ensures Sum(Subtotals(Insert(g, k, x), c)) == Sum(Subtotals(g, c)) + (if x.currency == c then x.amount else 0)
  {
    var a := if x.currency == c then x.amount else 0;
    var j := GroupIndex(g, k);
    var before, after := Subtotals(g, c), Subtotals(Insert(g, k, x), c);
    if j >= 0 {
      AmountSumSnoc(g[j].items, x, c);
      assert after == before[j := before[j] + a];
      SumUpdate(before, j, before[j] + a);
    } else {
      AmountSumSnoc([], x, c);
      assert [] + [x] == [x];
      assert after == before + [a];
      SumAppend(before, [a]);
      assert Sum([a]) == a + Sum([]);
    }
  }

  /** Whatever the grouping key, the group subtotals in a currency add up to that
      currency's overall total. */
  lemma {:induction false} GroupSubtotalsAddUp(items: seq<Asset>, key: Asset -> string, c: Currency)
    ensures Sum(Subtotals(Grouped(items, key), c)) == AmountSum(items, c)
  {
    if items != [] {
      var init := items[..|items| - 1];
      var x := items[|items| - 1];
      assert items == init + [x];
      GroupSubtotalsAddUp(init, key, c);
      AmountSumSnoc(init, x, c);
      SubtotalsInsert(Grouped(init, key), key(x), x, c);
    }
  }

  /** The per-type subtotals in a currency add up to that currency's overall total. */
  lemma SubtotalsAddUp(items: seq<Asset>, c: Currency)
    ensures Sum(Subtotals(Grouped(items, TypeKey), c)) == AmountSum(items, c)
  {
    GroupSubtotalsAddUp(items, TypeKey, c);
  }

  /** `labelOf(type)`: the six named types have their own label, everything else is その他. */
  function LabelOf(t: string): (shown: string)
    ensures t == "bank" ==> shown == "銀行預金"
    ensures t == "security" ==> shown == "証券（株/投信/債券）"
    ensures t == "real_estate" ==> shown == "不動産"
    ensures t == "insurance" ==> shown == "保険"
    ensures t == "pension" ==> shown == "年金"
    ensures t == "digital" ==> shown == "デジタル資産"
    ensures t !in {"bank", "security", "real_estate", "insurance", "pension", "digital"} ==> shown == "その他"
  {
    if t == "bank" then "銀行預金"
    else if t == "security" then "証券（株/投信/債券）"
    else if t == "real_estate" then "不動産"
    else if t == "insurance" then "保険"
    else if t == "pension" then "年金"
    else if t == "digital" then "デジタル資産"
    else "その他"
  }

  /** Distinct asset types get distinct labels. */
  lemma LabelsDistinct(a: AssetType, b: AssetType)
    requires a != b
    ensures LabelOf(TypeName(a)) != LabelOf(TypeName(b))
  {
  }

  /** `handleDelete(id)`: nothing happens when the user declines; the list reloads only when
      `deleteAsset` reports a removal. */
  method HandleDelete(store: AssetStore, id: string, confirmed: bool) returns (reload: bool)
    modifies store
    ensures !confirmed ==> !reload && store.stored == old(store.stored)
    ensures confirmed ==> ValidEntries(store.Raws()) == Drop(old(ValidEntries(store.Raws())), id)
    ensures reload <==> confirmed && exists k :: 0 <= k < |old(ValidEntries(store.Raws()))| && old(ValidEntries(store.Raws()))[k].id == id
  {
    if !confirmed {
      return false;
    }
    reload := store.DeleteAsset(id);
  }
}
