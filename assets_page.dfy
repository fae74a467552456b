/**
 * Beneficiary allocation on the assets step of the wizard (src/app/assets/page.tsx):
 * moving one slider redistributes the rest proportionally, adding a beneficiary
 * resets everyone to an even split, removing one rescales the rest to 100.
 * The heritage page uses the same three helpers (see heritage_page.dfy).
 */
module AssetsPage {
  import opened Wrappers
  import opened Percent
  import opened Store
  import Lists

  /** `items.findIndex(b => b.id === id)`: the first index with that id, or -1. */
  function FindIndex(items: seq<Beneficiary>, id: string): int {
    Lists.FindIndex(items, (e: Beneficiary) => e.id == id)
  }

  /** The same entries with their percents replaced, in order. */
  function WithPercents(bs: seq<Beneficiary>, ps: seq<int>): (r: seq<Beneficiary>)
    requires |ps| == |bs|
    ensures |r| == |bs|
    ensures forall k :: 0 <= k < |bs| ==> r[k] == bs[k].(percent := ps[k])
    ensures Percents(r) == ps
  {
    seq(|bs|, k requires 0 <= k < |bs| => bs[k].(percent := ps[k]))
  }

  /** `sum || 1`: a zero total is replaced by one, so an all-zero list rescales to zeros. */
  function Divisor(ps: seq<int>): (d: int)
    ensures d != 0
  {
    if Sum(ps) == 0 then 1 else Sum(ps)
  }

  /** Each share rounded to `round(p / Divisor(ps) * total)`. */
  function Proportional(ps: seq<int>, total: int): (r: seq<int>)
    ensures |r| == |ps|
    ensures forall k :: 0 <= k < |ps| ==> r[k] == RoundDiv(ps[k] * total, Divisor(ps))
  {
    seq(|ps|, k requires 0 <= k < |ps| => RoundDiv(ps[k] * total, Divisor(ps)))
  }

  /**
   * Proportional rescaling to `total` with the whole rounding drift added to the first
   * share (`res[0].percent += diff`), unclamped.
   */
  function Rescale(ps: seq<int>, total: int): (r: seq<int>)
    ensures |r| == |ps|
  {
    var rounded := Proportional(ps, total);
    if |ps| == 0 then [] else rounded[0 := rounded[0] + (total - Sum(rounded))]
  }

  /** Every share but the first is its rounded proportional value; a non-empty result totals exactly `total`. */
  lemma RescaleTotal(ps: seq<int>, total: int)
    ensures |Rescale(ps, total)| == |ps|
    ensures forall k :: 1 <= k < |ps| ==> Rescale(ps, total)[k] == RoundDiv(ps[k] * total, Divisor(ps))
    ensures |ps| > 0 ==> Sum(Rescale(ps, total)) == total
  {
    var rounded := Proportional(ps, total);
    if |ps| > 0 {
      SumUpdate(rounded, 0, rounded[0] + (total - Sum(rounded)));
    }
  }

  /** When every share is zero, the first takes the whole total and the others stay zero. */
  lemma RescaleAllZero(ps: seq<int>, total: int)
    requires |ps| > 0
    requires forall k :: 0 <= k < |ps| ==> ps[k] == 0
    ensures Rescale(ps, total)[0] == total
    ensures forall k :: 1 <= k < |ps| ==> Rescale(ps, total)[k] == 0
  {
    SumZeros(ps);
    var rounded := Proportional(ps, total);
    forall k | 0 <= k < |ps|
      ensures rounded[k] == 0
    {
      RoundDivExact(0, 1);
    }
    SumZeros(rounded);
  }

  /** The list with entry `idx` left out (`items.filter((_, i) => i !== idx)`). */
  function Others(items: seq<Beneficiary>, idx: int): (r: seq<Beneficiary>)
    requires 0 <= idx < |items|
    ensures |r| == |items| - 1
  {
    items[..idx] + items[idx + 1..]
  }

  /**
   * The result `adjustPercents` builds once the edited entry is found at `idx`:
   * the edited entry at `clamped`, every other entry rescaled to `100 - clamped`
   * (the shares of `Others(items, idx)`, in order), each in its original position.
   */
  function Adjusted(items: seq<Beneficiary>, idx: int, clamped: int): (r: seq<Beneficiary>)
    requires 0 <= idx < |items|
    ensures |r| == |items|
  {
    var shares := Rescale(Percents(Others(items, idx)), 100 - clamped);
    RescaleTotal(Percents(Others(items, idx)), 100 - clamped);
    seq(|items|, k requires 0 <= k < |items| =>
      if k == idx then items[k].(percent := clamped)
      else items[k].(percent := shares[if k < idx then k else k - 1]))
  }

  /** `adjustPercents(items, changedId, newValue)` */
  method AdjustPercents(items: seq<Beneficiary>, changedId: string, newValue: int) returns (result: seq<Beneficiary>)
    ensures FindIndex(items, changedId) < 0 ==> result == items
    ensures FindIndex(items, changedId) >= 0 ==>
              result == Adjusted(items, FindIndex(items, changedId), Clamp(newValue))
  {
    var clamped := Clamp(newValue);
    var idx := FindIndex(items, changedId);
    if idx < 0 {
      return items;
    }
    var others := Others(items, idx);
    var remaining := 100 - clamped;
    var adjustedOthers := WithPercents(others, Proportional(Percents(others), remaining));
    var diff := 100 - (clamped + Sum(Percents(adjustedOthers)));
    if |adjustedOthers| > 0 {
      adjustedOthers := adjustedOthers[0 := adjustedOthers[0].(percent := adjustedOthers[0].percent + diff)];
    }
    DriftOnFirst(others, remaining, adjustedOthers);
    result := MergeBack(items, idx, clamped, adjustedOthers);
    AdjustedIsPlaced(items, idx, clamped, adjustedOthers, result);
  }

  /** The loop that rebuilds the list: the edited entry at its index, the adjusted others in order around it. */
  method MergeBack(items: seq<Beneficiary>, idx: int, clamped: int, adjustedOthers: seq<Beneficiary>)
    returns (result: seq<Beneficiary>)
    requires 0 <= idx < |items| && |adjustedOthers| == |items| - 1
    ensures |result| == |items|
    ensures forall k :: 0 <= k < |items| ==> result[k] == Placed(items, idx, clamped, adjustedOthers, k)
  {
    result := [];
    var j := 0;
    for i := 0 to |items|
      invariant j == if i <= idx then i else i - 1
      invariant |result| == i
      invariant forall k :: 0 <= k < i ==> result[k] == Placed(items, idx, clamped, adjustedOthers, k)
    {
      if i == idx {
        result := result + [items[i].(percent := clamped)];
      } else {
        result := result + [adjustedOthers[j]];
        j := j + 1;
      }
    }
  }

  /** Entry k of the merge loop's output: the edited entry, or the next rescaled other. */
  function Placed(items: seq<Beneficiary>, idx: int, clamped: int, others: seq<Beneficiary>, k: int): Beneficiary
    requires 0 <= idx < |items| && 0 <= k < |items| && |others| == |items| - 1
  {
    if k == idx then items[k].(percent := clamped) else others[if k < idx then k else k - 1]
  }

  lemma AdjustedIsPlaced(items: seq<Beneficiary>, idx: int, clamped: int, adjusted: seq<Beneficiary>, result: seq<Beneficiary>)
    requires 0 <= idx < |items|
    requires adjusted == WithPercents(Others(items, idx), Rescale(Percents(Others(items, idx)), 100 - clamped))
    requires |result| == |items| && forall k :: 0 <= k < |items| ==> result[k] == Placed(items, idx, clamped, adjusted, k)
    ensures result == Adjusted(items, idx, clamped)
  {
    forall k | 0 <= k < |items|
      ensures result[k] == Adjusted(items, idx, clamped)[k]
    {
      if k != idx {
        AdjustedOther(items, idx, clamped, k);
      }
    }
  }

  /** The fix-up `adjustedOthers[0].percent += diff` yields the Rescale shares. */
  lemma DriftOnFirst(others: seq<Beneficiary>, remaining: int, adjusted: seq<Beneficiary>)
    requires var a := WithPercents(others, Proportional(Percents(others), remaining));
             adjusted == if |a| > 0 then a[0 := a[0].(percent := a[0].percent + (remaining - Sum(Percents(a))))] else a
    ensures adjusted == WithPercents(others, Rescale(Percents(others), remaining))
  {
    RescaleTotal(Percents(others), remaining);
  }

  /** A non-edited entry of Adjusted is the matching entry of Others with its rescaled share. */
  lemma AdjustedOther(items: seq<Beneficiary>, idx: int, clamped: int, k: int)
    requires 0 <= idx < |items| && 0 <= k < |items| && k != idx
    ensures var j := if k < idx then k else k - 1;
            var shares := Rescale(Percents(Others(items, idx)), 100 - clamped);
            j < |shares| && Adjusted(items, idx, clamped)[k] == Others(items, idx)[j].(percent := shares[j])
  {
    var j := if k < idx then k else k - 1;
    OthersAt(items, idx, k);
    assert Adjusted(items, idx, clamped)[k] == items[k].(percent := Rescale(Percents(Others(items, idx)), 100 - clamped)[j]);
  }

  /** Entry k of the list, other than idx, sits at k or k - 1 in Others. */
  lemma OthersAt(items: seq<Beneficiary>, idx: int, k: int)
    requires 0 <= idx < |items| && 0 <= k < |items| && k != idx
    ensures Others(items, idx)[if k < idx then k else k - 1] == items[k]
  {
    if k < idx {
      assert Others(items, idx)[k] == items[..idx][k];
    } else {
      assert Others(items, idx)[k - 1] == items[idx + 1..][k - 1 - idx];
    }
  }

  /** Entry k of Adjusted: the edited one at `clamped`, the others keep id and name. */
  lemma AdjustedAt(items: seq<Beneficiary>, idx: int, clamped: int, k: int)
    requires 0 <= idx < |items| && 0 <= k < |items|
    ensures Adjusted(items, idx, clamped)[k].id == items[k].id
    ensures Adjusted(items, idx, clamped)[k].name == items[k].name
    ensures k == idx ==> Adjusted(items, idx, clamped)[k].percent == clamped
  {
  }

  /** The percents of Adjusted are the rescaled shares with the clamped value inserted at idx. */
  lemma AdjustedPercents(items: seq<Beneficiary>, idx: int, clamped: int)
    requires 0 <= idx < |items|
    ensures var shares := Rescale(Percents(Others(items, idx)), 100 - clamped);
            Percents(Adjusted(items, idx, clamped)) == shares[..idx] + [clamped] + shares[idx..]
  {
    var shares := Rescale(Percents(Others(items, idx)), 100 - clamped);
    RescaleTotal(Percents(Others(items, idx)), 100 - clamped);
    var p := Percents(Adjusted(items, idx, clamped));
    var q := shares[..idx] + [clamped] + shares[idx..];
    assert |p| == |q|;
    forall k | 0 <= k < |items|
      ensures p[k] == q[k]
    {
      if k < idx {
        assert q[k] == shares[k];
      } else if k > idx {
        assert q[k] == shares[k - 1];
      }
    }
  }

  /** With two or more entries the adjusted list totals exactly 100. */
  lemma AdjustedTotal(items: seq<Beneficiary>, idx: int, v: int)
    requires 0 <= idx < |items| && |items| >= 2
    ensures Total(Adjusted(items, idx, Clamp(v))) == 100
  {
    var shares := Rescale(Percents(Others(items, idx)), 100 - Clamp(v));
    RescaleTotal(Percents(Others(items, idx)), 100 - Clamp(v));
    AdjustedPercents(items, idx, Clamp(v));
    SumInsert(shares, idx, Clamp(v));
  }

  /** A lone entry is left at its clamped value: the total is not forced to 100. */
  lemma AdjustedLone(items: seq<Beneficiary>, v: int)
    requires |items| == 1
    ensures Adjusted(items, 0, Clamp(v)) == [items[0].(percent := Clamp(v))]
    ensures Total(Adjusted(items, 0, Clamp(v))) == Clamp(v)
  {
    AdjustedPercents(items, 0, Clamp(v));
    assert Percent.Sum([Clamp(v)]) == Clamp(v) + Percent.Sum([]);
  }

  /** If every other share is 0, the first non-edited entry takes 100 - clamped and the rest stay 0. */
  lemma AdjustedOthersZero(items: seq<Beneficiary>, idx: int, v: int)
    requires 0 <= idx < |items| && |items| >= 2
    requires forall k :: 0 <= k < |items| && k != idx ==> items[k].percent == 0
    ensures var first := if idx == 0 then 1 else 0;
            Adjusted(items, idx, Clamp(v))[first].percent == 100 - Clamp(v)
            && forall k :: 0 <= k < |items| && k != idx && k != first ==> Adjusted(items, idx, Clamp(v))[k].percent == 0
  {
    var others := Others(items, idx);
    var ps := Percents(others);
    forall k | 0 <= k < |ps|
      ensures ps[k] == 0
    {
      assert others[k] == items[if k < idx then k else k + 1];
    }
    RescaleAllZero(ps, 100 - Clamp(v));
    var first := if idx == 0 then 1 else 0;
  }

  /** The drift is added without clamping, so a share can go negative: others at 1, 1, 1, 97
      with the first entry set to 50 round to 1, 1, 1, 49, and the first of them absorbs
      the drift of -2. */
  lemma AdjustedNegativeShare()
    ensures var items := [Beneficiary("e", "", 0), Beneficiary("a", "", 1), Beneficiary("b", "", 1),
                          Beneficiary("c", "", 1), Beneficiary("d", "", 97)];
            Adjusted(items, 0, Clamp(50))[1].percent == -1
  {
    var items := [Beneficiary("e", "", 0), Beneficiary("a", "", 1), Beneficiary("b", "", 1),
                  Beneficiary("c", "", 1), Beneficiary("d", "", 97)];
    var ps := Percents(Others(items, 0));
    assert ps == [1, 1, 1, 97];
    assert Sum(ps) == 100 by {
      assert Sum(ps[3..]) == 97 by { assert ps[3..][1..] == []; }
      assert Sum(ps[2..]) == 98 by { assert ps[2..][1..] == ps[3..]; }
      assert Sum(ps[1..]) == 99 by { assert ps[1..][1..] == ps[2..]; }
    }
    var rounded := Proportional(ps, 50);
    assert RoundDiv(50, 100) == 1 && RoundDiv(97 * 50, 100) == 49;
    assert rounded == [1, 1, 1, 49];
    assert Sum(rounded) == 52 by {
      assert Sum(rounded[3..]) == 49 by { assert rounded[3..][1..] == []; }
      assert Sum(rounded[2..]) == 50 by { assert rounded[2..][1..] == rounded[3..]; }
      assert Sum(rounded[1..]) == 51 by { assert rounded[1..][1..] == rounded[2..]; }
    }
    AdjustedOther(items, 0, 50, 1);
  }

  /** `String.fromCharCode(code)` for the letter suffix of a new name; codes outside one
      UTF-16 unit are cut to 16 bits. For a code in the surrogate range JavaScript yields a lone
      surrogate code unit; a Dafny `char` cannot hold one, so the model substitutes U+FFFD there.
      The suffix reaches that range only from 55 231 beneficiaries on. */
  function FromCharCode(code: nat): char {
    var u := code % 0x1_0000;
    if 0xD800 <= u < 0xE000 then '\U{FFFD}' else u as char
  }

  /** The default name `受益者A`, `受益者B`, … for the entry appended to a list of length n. */
  function NewName(n: nat): string {
    "受益者" + [FromCharCode(65 + n)]
  }

  /** The even split of 100 over n entries: ⌊100/n⌋ each, one more for the first 100 mod n. */
  function EvenShare(n: nat, k: nat): int
    requires n > 0
  {
    100 / n + if k < 100 % n then 1 else 0
  }

  function EvenShares(n: nat, c: int, m: nat): (r: seq<int>)
    ensures |r| == n
    ensures forall k :: 0 <= k < n ==> r[k] == c + if k < m then 1 else 0
  {
    seq(n, k requires 0 <= k < n => c + if k < m then 1 else 0)
  }

  lemma {:induction false} SumEvenShares(n: nat, c: int, m: nat)
    requires m <= n
    ensures Sum(EvenShares(n, c, m)) == n * c + m
  {
    if n > 0 {
      var m' := if m > 0 then m - 1 else 0;
      assert EvenShares(n, c, m)[1..] == EvenShares(n - 1, c, m');
      SumEvenShares(n - 1, c, m');
    }
  }

  /** `addBeneficiary(items)`: appends `{ id: uid(), name: 受益者<letter>, percent: 0 }` and
      resets every share to the even split. The new id is a parameter. */
  method AddBeneficiary(items: seq<Beneficiary>, newId: string) returns (res: seq<Beneficiary>)
    ensures |res| == |items| + 1
    ensures forall k :: 0 <= k < |items| ==> res[k].id == items[k].id && res[k].name == items[k].name
    ensures res[|items|].id == newId && res[|items|].name == NewName(|items|)
    ensures forall k :: 0 <= k < |res| ==> res[k].percent == EvenShare(|res|, k)
    ensures Total(res) == 100
  {
    var next := items + [Beneficiary(newId, NewName(|items|), 0)];
    var n := |next|;
    var even := 100 / n;
    var flat := WithPercents(next, EvenShares(n, even, 0));
    SumEvenShares(n, even, 0);
    var rem := 100 - Sum(Percents(flat));
    EvenRemainder(n);
    res := HandOutRemainder(flat, rem);
    assert Percents(res) == EvenShares(n, even, 100 % n);
    SumEvenShares(n, even, 100 % n);
  }

  /** What the even split leaves over is 100 mod n, fewer than n points. */
  lemma EvenRemainder(n: nat)
    requires n > 0
    ensures 100 - n * (100 / n) == 100 % n < n
  {
  }

  /** The loop of `addBeneficiary`: one more point for each of the first `rem` entries. */
  method HandOutRemainder(flat: seq<Beneficiary>, rem0: int) returns (res: seq<Beneficiary>)
    requires 0 <= rem0 <= |flat|
    ensures |res| == |flat|
    ensures forall k :: 0 <= k < |flat| ==> res[k] == flat[k].(percent := flat[k].percent + if k < rem0 then 1 else 0)
  {
    res := flat;
    var i, rem := 0, rem0;
    while i < |res| && rem > 0
      invariant 0 <= i <= rem0 && rem == rem0 - i
      invariant |res| == |flat|
      invariant forall k :: 0 <= k < |flat| ==> res[k] == flat[k].(percent := flat[k].percent + if k < i then 1 else 0)
    {
      res := res[i := res[i].(percent := res[i].percent + 1)];
      i, rem := i + 1, rem - 1;
    }
  }

  /** `items.filter(b => b.id !== id)` */
  function Without(items: seq<Beneficiary>, id: string): (r: seq<Beneficiary>)
    ensures |r| <= |items|
    ensures forall b :: b in r <==> b in items && b.id != id
  {
    Lists.Filter(items, (e: Beneficiary) => e.id != id)
  }

  /** Filtering distributes over concatenation: the kept entries stay in their order. */
  lemma {:induction false} WithoutAppend(a: seq<Beneficiary>, b: seq<Beneficiary>, id: string)
    ensures Without(a + b, id) == Without(a, id) + Without(b, id)
  {
    Lists.FilterAppend(a, b, (e: Beneficiary) => e.id != id);
  }

  /** One entry is kept exactly when its id differs. */
  lemma WithoutOne(e: Beneficiary, id: string)
    ensures Without([e], id) == if e.id == id then [] else [e]
  {
    assert [e][1..] == [];
  }

  /** `removeBeneficiary(items, id)`: a list that would become empty is returned unchanged;
      otherwise the rest is rescaled to 100 with the drift on the first entry. */
  function RemoveBeneficiary(items: seq<Beneficiary>, id: string): seq<Beneficiary>
  {
    var left := Without(items, id);
    if |left| == 0 then items
    else WithPercents(left, Rescale(Percents(left), 100))
  }

  /** Removal drops every entry with the id, keeps the rest (ids and names) and totals exactly 100,
      also when the id was absent; it is a no-op only when nothing would remain. */
  lemma RemoveBeneficiaryTotal(items: seq<Beneficiary>, id: string)
    ensures Without(items, id) == [] ==> RemoveBeneficiary(items, id) == items
    ensures Without(items, id) != [] ==>
              |RemoveBeneficiary(items, id)| == |Without(items, id)|
              && (forall k :: 0 <= k < |Without(items, id)| ==>
                    RemoveBeneficiary(items, id)[k]
                      == Without(items, id)[k].(percent := RemoveBeneficiary(items, id)[k].percent)
                    && RemoveBeneficiary(items, id)[k].id != id)
              && Total(RemoveBeneficiary(items, id)) == 100
  {
    var left := Without(items, id);
    if left != [] {
      RescaleTotal(Percents(left), 100);
      forall k | 0 <= k < |left|
        ensures left[k].id != id
      {
        assert left[k] in left;
      }
    }
  }

  /** `goNext`: the wizard advances to step 3 only when the total is exactly 100. */
  method GoNext(store: AppStore) returns (advanced: bool)
    modifies store
    ensures advanced <==> Total(old(store.beneficiaries)) == 100
    ensures advanced ==> store.step == 3 && store.beneficiaries == old(store.beneficiaries)
    ensures advanced ==> store.profile == old(store.profile) && store.address == old(store.address)
                         && store.saved == Some(Serialize(store.GetPersisted()))
    ensures !advanced ==> store.GetPersisted() == old(store.GetPersisted()) && store.saved == old(store.saved)
  {
    if Total(store.beneficiaries) != 100 {
      return false;
    }
    store.SetStep(3);
    return true;
  }
}
