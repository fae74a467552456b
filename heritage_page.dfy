/**
 * The inheritance allocation page (src/app/heritage/page.tsx). Its `adjust`, `addOne` and
 * `removeOne` helpers are the assets page's `adjustPercents`, `addBeneficiary` and
 * `removeBeneficiary` line for line, so the page state below calls those.
 */
module HeritagePage {
  import opened Wrappers
  import opened Store
  import AssetsPage
  import Text

  /** A row from `getAllocations`: the stored id may be missing. */
  datatype Allocation = Allocation(id: Option<string>, name: string, percent: int)

  /** A row as `onSave` hands it to `saveAllocations`. */
  datatype SavedRow = SavedRow(name: string, percent: int)

  /** The rows after the first load; `freshId(k)` stands for the k-th `localUid()`. */
  function InitialRows(list: seq<Allocation>, freshId: nat -> string): (rows: seq<Beneficiary>)
    ensures list == [] ==> rows == [Beneficiary(freshId(0), "受益者A", 100)] && Total(rows) == 100
    ensures list != [] ==> |rows| == |list| && forall k :: 0 <= k < |list| ==>
              rows[k].name == list[k].name && rows[k].percent == list[k].percent
              && rows[k].id == (if list[k].id.Some? && list[k].id.value != "" then list[k].id.value else freshId(k))
  {
    if list == [] then
      assert Percents([Beneficiary(freshId(0), "受益者A", 100)]) == [100];
      assert Percent.Sum([100]) == 100 + Percent.Sum([]);
      [Beneficiary(freshId(0), "受益者A", 100)]
    else
      seq(|list|, k requires 0 <= k < |list| =>
        Beneficiary(if list[k].id.Some? && list[k].id.value != "" then list[k].id.value else freshId(k),
                    list[k].name, list[k].percent))
  }

  /** The payload `onSave` sends: names trimmed, percents unchanged, in row order. */
  function SavePayload(rows: seq<Beneficiary>): (p: seq<SavedRow>)
    ensures |p| == |rows|
    ensures forall k :: 0 <= k < |rows| ==> p[k] == SavedRow(Text.Trim(rows[k].name), rows[k].percent)
  {
    seq(|rows|, k requires 0 <= k < |rows| => SavedRow(Text.Trim(rows[k].name), rows[k].percent))
  }

  class Heritage {
    var rows: seq<Beneficiary>
    var loading: bool

    constructor ()
      ensures rows == [] && loading
    {
      rows := [];
      loading := true;
    }

    /** The first load: `fetched` is what `getAllocations()` returned, `None` when it threw.
        An empty stored list becomes a single 受益者A at 100; a failed fetch leaves the rows. */
    method Load(fetched: Option<seq<Allocation>>, freshId: nat -> string)
      modifies this
      ensures fetched.Some? ==> rows == InitialRows(fetched.value, freshId)
      ensures fetched.None? ==> rows == old(rows)
      ensures !loading
    {
      if fetched.Some? {
        rows := InitialRows(fetched.value, freshId);
      }
      loading := false;
    }

    /** The slider handler: `setRows(adjust(rows, id, value))`. */
    method Adjust(id: string, newValue: int)
      modifies this
      ensures AssetsPage.FindIndex(old(rows), id) < 0 ==> rows == old(rows)
      ensures AssetsPage.FindIndex(old(rows), id) >= 0 ==>
                rows == AssetsPage.Adjusted(old(rows), AssetsPage.FindIndex(old(rows), id), Percent.Clamp(newValue))
      ensures loading == old(loading)
    {
      rows := AssetsPage.AdjustPercents(rows, id, newValue);
    }

    /** `addOne()`: one more row named after its position, every share reset to the even split. */
    method AddOne(newId: string)
      modifies this
      ensures |rows| == |old(rows)| + 1
      ensures forall k :: 0 <= k < |old(rows)| ==> rows[k].id == old(rows)[k].id && rows[k].name == old(rows)[k].name
      ensures rows[|old(rows)|].id == newId && rows[|old(rows)|].name == AssetsPage.NewName(|old(rows)|)
      ensures forall k :: 0 <= k < |rows| ==> rows[k].percent == AssetsPage.EvenShare(|rows|, k)
      ensures Total(rows) == 100
      ensures loading == old(loading)
    {
      rows := AssetsPage.AddBeneficiary(rows, newId);
    }

    /** `removeOne(id)`: no change when no row would remain, otherwise the rest rescaled to 100. */
    method RemoveOne(id: string)
      modifies this
      ensures AssetsPage.Without(old(rows), id) == [] ==> rows == old(rows)
      ensures AssetsPage.Without(old(rows), id) != [] ==>
                rows == AssetsPage.RemoveBeneficiary(old(rows), id) && Total(rows) == 100
      ensures loading == old(loading)
    {
      var left := AssetsPage.Without(rows, id);
      if |left| == 0 {
        return;
      }
      AssetsPage.RemoveBeneficiaryTotal(rows, id);
      rows := AssetsPage.RemoveBeneficiary(rows, id);
    }

    /** `onSave()`: the rows it sends to `saveAllocations`, or `None` when the total is not 100
        and nothing is sent. The backend's answer does not change the rows. */
    method OnSave() returns (sent: Option<seq<SavedRow>>)
      ensures sent.Some? <==> Total(rows) == 100
      ensures sent.Some? ==> sent.value == SavePayload(rows)
    {
      if Total(rows) != 100 {
        return None;
      }
      return Some(SavePayload(rows));
    }
  }
}
