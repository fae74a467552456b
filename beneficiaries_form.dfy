/**
 * The editable beneficiary table (src/components/beneficiaries-form.tsx). Every handler
 * computes the next list and hands it to `onChange`; a handler that returns early when the
 * form is disabled is modelled as returning `None` (no `onChange` call).
 */
module BeneficiariesForm {
  import opened Wrappers
  import opened Percent

  datatype Row = Row(id: Option<string>, name: string, percent: int,
                     relation: Option<string>, relationNote: Option<string>)

  /** A partial row (`Partial<Beneficiary>`): a present field overrides, `Some(None)` clears. */
  datatype Patch = Patch(name: Option<string>, percent: Option<int>,
                         relation: Option<Option<string>>, relationNote: Option<Option<string>>)

  const Other: string := "その他"

  function RowPercents(rows: seq<Row>): (ps: seq<int>)
    ensures |ps| == |rows| && forall k :: 0 <= k < |rows| ==> ps[k] == rows[k].percent
  {
    seq(|rows|, k requires 0 <= k < |rows| => rows[k].percent)
  }

  /** The `合計` shown above the table. */
  function RowTotal(rows: seq<Row>): int {
    Sum(RowPercents(rows))
  }

  function Abs(x: int): nat {
    if x < 0 then -x else x
  }

  /** The direction of one correction step: `diff > 0 ? 1 : -1`. */
  function StepOf(diff: int): int {
    if diff > 0 then 1 else -1
  }

  /** The shares after the first k passes of the correction loop: pass j moves entry
      j mod n one unit towards the target and clamps it. */
  function Corrected(s: seq<int>, diff: int, k: nat): (r: seq<int>)
    requires |s| > 0
    ensures |r| == |s|
    decreases k
  {
    if k == 0 then s
    else
      var p := Corrected(s, diff, k - 1);
      var t := (k - 1) % |s|;
      p[t := Clamp(p[t] + StepOf(diff))]
  }

  /** The correction loop `for (k = 0; k < |diff|; k++) rounded[k % n] = clamp01(rounded[k % n] ± 1)`. */
  method SpreadDrift(rounded: seq<int>, diff: int) returns (r: seq<int>)
    requires |rounded| > 0
    ensures r == Corrected(rounded, diff, Abs(diff))
  {
    r := rounded;
    for k := 0 to Abs(diff)
      invariant r == Corrected(rounded, diff, k)
    {
      var t := k % |r|;
      r := r[t := Clamp(r[t] + StepOf(diff))];
    }
  }

  predicate InRange(s: seq<int>) {
    forall k :: 0 <= k < |s| ==> 0 <= s[k] <= 100
  }

  /** Shares that start in 0..100 stay there through any number of clamped steps. */
  lemma {:induction false} CorrectedInRange(s: seq<int>, diff: int, k: nat)
    requires |s| > 0 && InRange(s)
    ensures InRange(Corrected(s, diff, k))
  {
    if k > 0 {
      CorrectedInRange(s, diff, k - 1);
    }
  }

  /** No pass among the first k hits a bound of 0..100. */
  predicate Unclamped(s: seq<int>, diff: int, k: nat)
    requires |s| > 0
  {
    forall j :: 0 <= j < k ==>
      0 <= Corrected(s, diff, j)[j % |s|] + StepOf(diff) <= 100
  }

  /** When no step is clamped, every pass moves the total by exactly one unit. */
  lemma {:induction false} CorrectedSum(s: seq<int>, diff: int, k: nat)
    requires |s| > 0 && Unclamped(s, diff, k)
    ensures Sum(Corrected(s, diff, k)) == Sum(s) + k * StepOf(diff)
  {
    if k > 0 {
      assert Unclamped(s, diff, k - 1);
      CorrectedSum(s, diff, k - 1);
      var p := Corrected(s, diff, k - 1);
      var t := (k - 1) % |s|;
      SumUpdate(p, t, Clamp(p[t] + StepOf(diff)));
    }
  }

  /** So the loop closes the whole gap exactly when none of its |diff| steps is clamped. */
  lemma CorrectedClosesGap(s: seq<int>, diff: int)
    requires |s| > 0 && Unclamped(s, diff, Abs(diff))
    ensures Sum(Corrected(s, diff, Abs(diff))) == Sum(s) + diff
  {
    CorrectedSum(s, diff, Abs(diff));
  }

  /** The percents of the rows other than idx, in order. */
  function OtherPercents(rows: seq<Row>, idx: int): (ps: seq<int>)
    requires 0 <= idx < |rows|
    ensures |ps| == |rows| - 1
  {
    seq(|rows| - 1, k requires 0 <= k < |rows| - 1 => rows[if k < idx then k else k + 1].percent)
  }

  /** `newPercents.map(clamp01)`: shares of `rest` proportional to the current percents,
      or an even split when they do not sum to a positive number. */
  function FirstShares(ps: seq<int>, rest: int): (r: seq<int>)
    requires |ps| > 0
    ensures |r| == |ps| && InRange(r)
  {
    var s := Sum(ps);
    seq(|ps|, k requires 0 <= k < |ps| =>
      if s > 0 then Clamp(RoundDiv(ps[k] * rest, s)) else Clamp(RoundDiv(rest, |ps|)))
  }

  /** Row idx kept as it is, every other row taking the next share in order. */
  function Placed(rows: seq<Row>, idx: int, shares: seq<int>): (r: seq<Row>)
    requires 0 <= idx < |rows| && |shares| == |rows| - 1
    ensures |r| == |rows|
  {
    seq(|rows|, i requires 0 <= i < |rows| =>
      if i == idx then rows[i] else rows[i].(percent := shares[if i < idx then i else i - 1]))
  }

  /** The list `rebalanceAround(idx, nextPercent)` passes to `onChange`. */
  function Rebalanced(value: seq<Row>, idx: int, nextPercent: int): (r: seq<Row>)
    requires 0 <= idx < |value|
  {
    var fixed := Clamp(nextPercent);
    var rows := value[idx := value[idx].(percent := fixed)];
    if |rows| == 1 then [rows[idx].(percent := 100)]
    else
      var rounded := FirstShares(OtherPercents(rows, idx), 100 - fixed);
      var diff := 100 - fixed - Sum(rounded);
      Placed(rows, idx, Corrected(rounded, diff, Abs(diff)))
  }

  /** Whether the correction loop of `rebalanceAround` runs without clamping a step. */
  predicate RebalanceUnclamped(value: seq<Row>, idx: int, nextPercent: int)
    requires 0 <= idx < |value| && |value| >= 2
  {
    var fixed := Clamp(nextPercent);
    var rows := value[idx := value[idx].(percent := fixed)];
    var rounded := FirstShares(OtherPercents(rows, idx), 100 - fixed);
    Unclamped(rounded, 100 - fixed - Sum(rounded), Abs(100 - fixed - Sum(rounded)))
  }

  /** The `othersIdx.forEach` write-back: other row number k gets `shares[k]`. */
  method WriteBack(rows: seq<Row>, idx: int, shares: seq<int>) returns (next: seq<Row>)
    requires 0 <= idx < |rows| && |shares| == |rows| - 1
    ensures next == Placed(rows, idx, shares)
  {
    next := rows;
    for k := 0 to |shares|
      invariant |next| == |rows|
      invariant forall i :: 0 <= i < |rows| ==>
                  next[i] == if i != idx && (if i < idx then i else i - 1) < k
                             then rows[i].(percent := shares[if i < idx then i else i - 1])
                             else rows[i]
    {
      var i := if k < idx then k else k + 1;
      next := next[i := next[i].(percent := shares[k])];
    }
  }

  /** `rebalanceAround(idx, nextPercent)`: pin row idx at the clamped value and
      redistribute the remainder over the other rows. */
  method RebalanceAround(value: seq<Row>, idx: int, nextPercent: int) returns (next: seq<Row>)
    requires 0 <= idx < |value|
    ensures next == Rebalanced(value, idx, nextPercent)
  {
    var fixed := Clamp(nextPercent);
    var rows := value[idx := value[idx].(percent := fixed)];
    if |rows| == 1 {
      return [rows[idx].(percent := 100)];
    }
    var rest := 100 - fixed;
    var rounded := FirstShares(OtherPercents(rows, idx), rest);
    var diff := rest - Sum(rounded);
    if diff != 0 {
      rounded := SpreadDrift(rounded, diff);
    }
    next := WriteBack(rows, idx, rounded);
  }

  /** A lone row is forced to 100; otherwise the edited row holds the clamped value.
      Every row keeps its fields except percent, and every percent is in 0..100. */
  lemma RebalanceShape(value: seq<Row>, idx: int, nextPercent: int)
    requires 0 <= idx < |value|
    ensures var r := Rebalanced(value, idx, nextPercent);
      && |r| == |value|
      && (forall i :: 0 <= i < |r| ==> r[i] == value[i].(percent := r[i].percent))
      && (forall i :: 0 <= i < |r| ==> 0 <= r[i].percent <= 100)
      && (|value| == 1 ==> r[0].percent == 100 && RowTotal(r) == 100)
      && (|value| >= 2 ==> r[idx].percent == Clamp(nextPercent))
  {
    var r := Rebalanced(value, idx, nextPercent);
    if |value| == 1 {
      assert RowPercents(r) == [100];
      assert Sum([100]) == 100 + Sum([]);
    } else {
      var fixed := Clamp(nextPercent);
      var rows := value[idx := value[idx].(percent := fixed)];
      var rounded := FirstShares(OtherPercents(rows, idx), 100 - fixed);
      var diff := 100 - fixed - Sum(rounded);
      CorrectedInRange(rounded, diff, Abs(diff));
    }
  }

  /** The percents of a placed list are the shares with row idx's percent inserted at idx. */
  lemma PlacedTotal(rows: seq<Row>, idx: int, shares: seq<int>)
    requires 0 <= idx < |rows| && |shares| == |rows| - 1
    ensures RowTotal(Placed(rows, idx, shares)) == Sum(shares) + rows[idx].percent
  {
    assert RowPercents(Placed(rows, idx, shares)) == shares[..idx] + [rows[idx].percent] + shares[idx..];
    SumInsert(shares, idx, rows[idx].percent);
  }

  /** With two or more rows the total is exactly 100 when no correction step is clamped. */
  lemma RebalanceTotal(value: seq<Row>, idx: int, nextPercent: int)
    requires 0 <= idx < |value| && |value| >= 2
    requires RebalanceUnclamped(value, idx, nextPercent)
    ensures RowTotal(Rebalanced(value, idx, nextPercent)) == 100
  {
    var fixed := Clamp(nextPercent);
    var rows := value[idx := value[idx].(percent := fixed)];
    var rounded := FirstShares(OtherPercents(rows, idx), 100 - fixed);
    var diff := 100 - fixed - Sum(rounded);
    assert Rebalanced(value, idx, nextPercent) == Placed(rows, idx, Corrected(rounded, diff, Abs(diff)));
    CorrectedTotal(rows, idx, rounded, diff);
  }

  /** Placing the corrected shares beside row idx totals 100 when the correction closes the
      gap to 100 without clamping a step. */
  lemma CorrectedTotal(rows: seq<Row>, idx: int, rounded: seq<int>, diff: int)
    requires 0 <= idx < |rows| && |rounded| == |rows| - 1 && |rounded| > 0
    requires diff == 100 - rows[idx].percent - Sum(rounded) && Unclamped(rounded, diff, Abs(diff))
    ensures RowTotal(Placed(rows, idx, Corrected(rounded, diff, Abs(diff)))) == 100
  {
    CorrectedClosesGap(rounded, diff);
    PlacedTotal(rows, idx, Corrected(rounded, diff, Abs(diff)));
  }

  function Blank(percent: int): Row {
    Row(None, "", percent, None, None)
  }

  /** The total is not unconditional: other rows at 0, 1, 1 with the first row set to 99
      round to 0, 1, 1; the single downward step is clamped at 0 and the list totals 101. */
  lemma RebalanceOvershoot()
    ensures var value := [Blank(0), Blank(0), Blank(1), Blank(1)];
      RowTotal(Rebalanced(value, 0, 99)) == 101
  {
    var value := [Blank(0), Blank(0), Blank(1), Blank(1)];
    var rows := value[0 := value[0].(percent := 99)];
    var ps := OtherPercents(rows, 0);
    assert ps == [0, 1, 1];
    SumOfOneOneZero();
    var rounded := FirstShares(ps, 1);
    assert RoundDiv(0, 2) == 0 && RoundDiv(1, 2) == 1;
    assert rounded == [0, 1, 1];
    assert Corrected(rounded, -1, 1) == [0, 1, 1];
    PlacedTotal(rows, 0, [0, 1, 1]);
  }

  lemma SumOfOneOneZero()
    ensures Sum([0, 1, 1]) == 2
  {
    assert [0, 1, 1][1..] == [1, 1];
    assert [1, 1][1..] == [1];
    assert [1][1..] == [];
  }

  /** `value.filter((_, i) => i !== idx)`: row idx goes when it exists, the others keep
      their order. */
  function Remaining(value: seq<Row>, idx: int): (rest: seq<Row>)
    ensures 0 <= idx < |value| ==>
      |rest| == |value| - 1 && forall k :: 0 <= k < |rest| ==> rest[k] == value[if k < idx then k else k + 1]
    ensures !(0 <= idx < |value|) ==> rest == value
  {
    if 0 <= idx < |value| then value[..idx] + value[idx + 1..] else value
  }

  /** `value[idx]?.percent || 0` */
  function RemovedShare(value: seq<Row>, idx: int): int {
    if 0 <= idx < |value| then value[idx].percent else 0
  }

  /** The list `removeRow(idx)` passes to `onChange`. An index outside the list removes
      nothing but still redistributes. */
  function AfterRemoval(value: seq<Row>, idx: int): (r: seq<Row>)
  {
    var rest := Remaining(value, idx);
    if rest == [] then []
    else
      var rounded := RemovalShares(RowPercents(rest), RemovedShare(value, idx));
      var diff := 100 - Sum(rounded);
      WithPercents(rest, Corrected(rounded, diff, Abs(diff)))
  }

  /** Each remaining share grows by its proportion of the removed share
      (`p + removed * p / sum`), or all become `100 / n` when the rest sums to nothing. */
  function RemovalShares(ps: seq<int>, removed: int): (r: seq<int>)
    requires |ps| > 0
    ensures |r| == |ps| && InRange(r)
  {
    var s := Sum(ps);
    seq(|ps|, k requires 0 <= k < |ps| =>
      if s > 0 then Clamp(RoundDiv(ps[k] * s + removed * ps[k], s)) else Clamp(RoundDiv(100, |ps|)))
  }

  function WithPercents(rows: seq<Row>, ps: seq<int>): (r: seq<Row>)
    requires |ps| == |rows|
    ensures |r| == |rows| && RowPercents(r) == ps
    ensures forall k :: 0 <= k < |rows| ==> r[k] == rows[k].(percent := ps[k])
  {
    seq(|rows|, k requires 0 <= k < |rows| => rows[k].(percent := ps[k]))
  }

  /** `removeRow(idx)` */
  method RemoveRow(value: seq<Row>, idx: int) returns (next: seq<Row>)
    ensures next == AfterRemoval(value, idx)
  {
    var removed := RemovedShare(value, idx);
    var rest := Remaining(value, idx);
    if |rest| == 0 {
      return [];
    }
    var rounded := RemovalShares(RowPercents(rest), removed);
    var diff := 100 - Sum(rounded);
    rounded := SpreadDrift(rounded, diff);
    next := WithPercents(rest, rounded);
  }

  /** Removing the only row leaves nothing; otherwise exactly row idx goes, the others keep
      their order and every field but percent, and every percent is in 0..100. */
  lemma RemovalShape(value: seq<Row>, idx: int)
    ensures var r := AfterRemoval(value, idx);
      && (|value| == 1 && idx == 0 ==> r == [])
      && (0 <= idx < |value| ==>
            (&& |r| == |value| - 1
             && forall k :: 0 <= k < |r| ==>
                  r[k] == value[if k < idx then k else k + 1].(percent := r[k].percent)))
      && (!(0 <= idx < |value|) ==>
            (&& |r| == |value|
             && forall k :: 0 <= k < |r| ==> r[k] == value[k].(percent := r[k].percent)))
      && (forall k :: 0 <= k < |r| ==> 0 <= r[k].percent <= 100)
  {
    var rest := Remaining(value, idx);
    if rest != [] {
      var rounded := RemovalShares(RowPercents(rest), RemovedShare(value, idx));
      var diff := 100 - Sum(rounded);
      CorrectedInRange(rounded, diff, Abs(diff));
    }
  }

  /** After a removal that leaves rows, the total is exactly 100 when no correction step is clamped. */
  lemma RemovalTotal(value: seq<Row>, idx: int)
    requires Remaining(value, idx) != []
    requires var rounded := RemovalShares(RowPercents(Remaining(value, idx)), RemovedShare(value, idx));
      Unclamped(rounded, 100 - Sum(rounded), Abs(100 - Sum(rounded)))
    ensures RowTotal(AfterRemoval(value, idx)) == 100
  {
    var rounded := RemovalShares(RowPercents(Remaining(value, idx)), RemovedShare(value, idx));
    CorrectedClosesGap(rounded, 100 - Sum(rounded));
  }

  /** `{ ...b, ...patch }` */
  function Merge(b: Row, patch: Patch): (r: Row)
    ensures r.id == b.id
    ensures r.name == patch.name.GetOr(b.name)
    ensures r.percent == patch.percent.GetOr(b.percent)
    ensures r.relation == patch.relation.GetOr(b.relation)
    ensures r.relationNote == patch.relationNote.GetOr(b.relationNote)
  {
    b.(name := patch.name.GetOr(b.name), percent := patch.percent.GetOr(b.percent),
       relation := patch.relation.GetOr(b.relation), relationNote := patch.relationNote.GetOr(b.relationNote))
  }

  /** `updateField(idx, patch)`: only row idx changes, by taking the patch. */
  function UpdateField(value: seq<Row>, disabled: bool, idx: int, patch: Patch): (r: Option<seq<Row>>)
    ensures r.None? <==> disabled
    ensures r.Some? ==> |r.value| == |value|
    ensures r.Some? ==> forall i :: 0 <= i < |value| && i != idx ==> r.value[i] == value[i]
    ensures r.Some? && 0 <= idx < |value| ==> r.value[idx] == Merge(value[idx], patch)
  {
    if disabled then None
    else Some(seq(|value|, i requires 0 <= i < |value| => if i == idx then Merge(value[i], patch) else value[i]))
  }

  function NoPatch(): Patch {
    Patch(None, None, None, None)
  }

  /** `onChangeRelation(idx, relation)`: any relation but その他 also clears the free-text note. */
  function OnChangeRelation(value: seq<Row>, disabled: bool, idx: int, relation: string): (r: Option<seq<Row>>)
    ensures r.None? <==> disabled
    ensures r.Some? ==> |r.value| == |value|
    ensures r.Some? ==> forall i :: 0 <= i < |value| && i != idx ==> r.value[i] == value[i]
    ensures r.Some? && 0 <= idx < |value| ==>
      var b, b' := value[idx], r.value[idx];
      && b' == b.(relation := b'.relation, relationNote := b'.relationNote)
      && b'.relation == Some(relation)
      && b'.relationNote == (if relation == Other then b.relationNote else None)
  {
    if relation != Other then
      UpdateField(value, disabled, idx, NoPatch().(relation := Some(Some(relation)), relationNote := Some(None)))
    else
      UpdateField(value, disabled, idx, NoPatch().(relation := Some(Some(relation))))
  }

  /** `addRow()`: a blank row at 0 is appended and the total does not move. */
  function AddRow(value: seq<Row>, disabled: bool): (r: Option<seq<Row>>)
    ensures r.None? <==> disabled
    ensures r.Some? ==> |r.value| == |value| + 1 && r.value[..|value|] == value
    ensures r.Some? ==> r.value[|value|] == Blank(0) && RowTotal(r.value) == RowTotal(value)
  {
    if disabled then None
    else
      var next := value + [Blank(0)];
      assert RowPercents(next) == RowPercents(value) + [0];
      SumAppend(RowPercents(value), [0]);
      assert Sum([0]) == 0 + Sum([]);
      Some(next)
  }

  /** `onChangePercent(idx, raw)` with the parsed number: no change when disabled. */
  method OnChangePercent(value: seq<Row>, disabled: bool, idx: int, p: int) returns (r: Option<seq<Row>>)
    requires 0 <= idx < |value|
    ensures r.None? <==> disabled
    ensures r.Some? ==> r.value == Rebalanced(value, idx, p)
  {
    if disabled {
      return None;
    }
    var next := RebalanceAround(value, idx, p);
    return Some(next);
  }

  /** `removeRow(idx)` behind the disabled guard. */
  method OnRemoveRow(value: seq<Row>, disabled: bool, idx: int) returns (r: Option<seq<Row>>)
    ensures r.None? <==> disabled
    ensures r.Some? ==> r.value == AfterRemoval(value, idx)
  {
    if disabled {
      return None;
    }
    var next := RemoveRow(value, idx);
    return Some(next);
  }
}
