/**
 * The locally stored asset register (src/lib/assets.ts): a list of asset records kept
 * as JSON under one storage key, validated entry by entry on every read.
 */
module AssetStorage {
  import opened Wrappers
  import Lists

  datatype AssetType = Bank | Security | RealEstate | Insurance | Pension | Digital | OtherAsset
  datatype Currency = JPY | USD

  /** The enum literal of an asset type. */
  function TypeName(t: AssetType): string {
    match t
    case Bank => "bank"
    case Security => "security"
    case RealEstate => "real_estate"
    case Insurance => "insurance"
    case Pension => "pension"
    case Digital => "digital"
    case OtherAsset => "other"
  }

  /** Reading a type literal: only the seven enum values are accepted. */
  function ParseType(s: string): (t: Option<AssetType>)
    ensures t.Some? ==> TypeName(t.value) == s
    ensures forall u :: TypeName(u) == s ==> t == Some(u)
  {
    if s == "bank" then Some(Bank)
    else if s == "security" then Some(Security)
    else if s == "real_estate" then Some(RealEstate)
    else if s == "insurance" then Some(Insurance)
    else if s == "pension" then Some(Pension)
    else if s == "digital" then Some(Digital)
    else if s == "other" then Some(OtherAsset)
    else None
  }

  function CurrencyName(c: Currency): string {
    match c
    case JPY => "JPY"
    case USD => "USD"
  }

  function ParseCurrency(s: string): (c: Option<Currency>)
    ensures c.Some? ==> CurrencyName(c.value) == s
    ensures forall u :: CurrencyName(u) == s ==> c == Some(u)
  {
    if s == "JPY" then Some(JPY) else if s == "USD" then Some(USD) else None
  }

  /**
   * A validated asset. `note` distinguishes a missing key (`None`), an explicit null
   * (`Some(None)`) and a text (`Some(Some(t))`), as the schema's `optional().nullable()` does.
   */
  datatype Asset = Asset(id: string, kind: AssetType, name: string, amount: int,
                         currency: Currency, note: Option<Option<string>>, updatedAt: string)

  /** A stored record before validation; a `None` field is a missing key. */
  datatype Raw = Raw(id: Option<string>, kind: Option<string>, name: Option<string>, amount: Option<int>,
                     currency: Option<string>, note: Option<Option<string>>, updatedAt: Option<string>)

  predicate IsHex(c: char) {
    '0' <= c <= '9' || 'a' <= c <= 'f' || 'A' <= c <= 'F'
  }

  /** The uuid pattern: 8-4-4-4-12 hexadecimal digits, either case. */
  predicate IsUuid(s: string) {
    |s| == 36 &&
    forall k :: 0 <= k < 36 ==> if k in {8, 13, 18, 23} then s[k] == '-' else IsHex(s[k])
  }

  function NoteLength(note: Option<Option<string>>): nat {
    if note.Some? && note.value.Some? then |note.value.value| else 0
  }

  /** The schema's constraints on an asset record. */
  predicate Valid(a: Asset) {
    IsUuid(a.id) && |a.name| >= 1 && a.amount >= 0 && NoteLength(a.note) <= 1000
  }

  /** `AssetSchema.safeParse(item)`: a record that passes, with the defaults filled in. */
  function Parse(r: Raw): (res: Option<Asset>)
    ensures res.Some? ==> Valid(res.value)
    ensures res.Some? ==> Some(res.value.id) == r.id && Some(res.value.name) == r.name
    ensures res.Some? ==> Some(TypeName(res.value.kind)) == r.kind && res.value.note == r.note
    ensures res.Some? ==> Some(res.value.updatedAt) == r.updatedAt
    ensures res.Some? ==> res.value.amount == r.amount.GetOr(0)
    ensures res.Some? ==> CurrencyName(res.value.currency) == r.currency.GetOr("JPY")
    ensures r.id.None? || r.name == Some("") || r.updatedAt.None? || (r.amount.Some? && r.amount.value < 0)
            ==> res.None?
    ensures && r.id.Some? && IsUuid(r.id.value) && r.kind.Some? && ParseType(r.kind.value).Some?
            && r.name.Some? && |r.name.value| >= 1 && r.amount.GetOr(0) >= 0
            && ParseCurrency(r.currency.GetOr("JPY")).Some? && NoteLength(r.note) <= 1000
            && r.updatedAt.Some?
            ==> res.Some?
  {
    if r.id.None? || !IsUuid(r.id.value) then None
    else if r.kind.None? || ParseType(r.kind.value).None? then None
    else if r.name.None? || |r.name.value| < 1 then None
    else if r.amount.GetOr(0) < 0 then None
    else if ParseCurrency(r.currency.GetOr("JPY")).None? then None
    else if NoteLength(r.note) > 1000 then None
    else if r.updatedAt.None? then None
    else Some(Asset(r.id.value, ParseType(r.kind.value).value, r.name.value, r.amount.GetOr(0),
                    ParseCurrency(r.currency.GetOr("JPY")).value, r.note, r.updatedAt.value))
  }

  /** `JSON.stringify` of an asset, read back as a record. */
  function ToRaw(a: Asset): Raw {
    Raw(Some(a.id), Some(TypeName(a.kind)), Some(a.name), Some(a.amount),
        Some(CurrencyName(a.currency)), a.note, Some(a.updatedAt))
  }

  /** A valid asset survives being written and read back. */
  lemma ParseToRaw(a: Asset)
    requires Valid(a)
    ensures Parse(ToRaw(a)) == Some(a)
  {
    assert ParseType(TypeName(a.kind)) == Some(a.kind);
    assert ParseCurrency(CurrencyName(a.currency)) == Some(a.currency);
  }

  /** A record that leaves out `amount` and `currency` but is otherwise valid is accepted,
      with amount 0 and currency JPY filled in. */
  lemma ParseDefaults(a: Asset)
    requires Valid(a)
    ensures Parse(ToRaw(a).(amount := None, currency := None)) == Some(a.(amount := 0, currency := JPY))
  {
    assert ParseType(TypeName(a.kind)) == Some(a.kind);
  }

  /** An invalid asset is dropped when read back. */
  lemma ParseToRawInvalid(a: Asset)
    requires !Valid(a)
    ensures Parse(ToRaw(a)) == None
  {
  }

  function ToRaws(list: seq<Asset>): (r: seq<Raw>)
    ensures |r| == |list| && forall k :: 0 <= k < |list| ==> r[k] == ToRaw(list[k])
  {
    seq(|list|, k requires 0 <= k < |list| => ToRaw(list[k]))
  }

  /** The stored entries that pass the schema, in stored order. */
  function ValidEntries(raws: seq<Raw>): (r: seq<Asset>)
    ensures |r| <= |raws|
    ensures forall k :: 0 <= k < |r| ==> Valid(r[k])
  {
    if raws == [] then []
    else
      var rest := ValidEntries(raws[1..]);
      if Parse(raws[0]).Some? then [Parse(raws[0]).value] + rest else rest
  }

  lemma {:induction false} ValidEntriesAppend(a: seq<Raw>, b: seq<Raw>)
    ensures ValidEntries(a + b) == ValidEntries(a) + ValidEntries(b)
  {
    if a == [] {
      assert a + b == b;
    } else {
      assert (a + b)[1..] == a[1..] + b;
      ValidEntriesAppend(a[1..], b);
    }
  }

  /** Writing a list of valid assets and reading it back gives the same list. */
  lemma {:induction false} ValidEntriesRoundTrip(list: seq<Asset>)
    requires forall k :: 0 <= k < |list| ==> Valid(list[k])
    ensures ValidEntries(ToRaws(list)) == list
  {
    if list != [] {
      ParseToRaw(list[0]);
      assert ToRaws(list)[1..] == ToRaws(list[1..]);
      ValidEntriesRoundTrip(list[1..]);
    }
  }

  /** Writing an asset in front of a valid list and reading back gives the list, with the
      asset in front when it is valid itself. */
  lemma PrependedEntries(a: Asset, list: seq<Asset>)
    requires forall k :: 0 <= k < |list| ==> Valid(list[k])
    ensures ValidEntries(ToRaws([a] + list)) == (if Valid(a) then [a] else []) + list
  {
    assert ToRaws([a] + list) == [ToRaw(a)] + ToRaws(list);
    ValidEntriesAppend([ToRaw(a)], ToRaws(list));
    ValidEntriesRoundTrip(list);
    if Valid(a) {
      ParseToRaw(a);
    } else {
      ParseToRawInvalid(a);
    }
    assert ValidEntries([ToRaw(a)]) == if Valid(a) then [a] else [];
  }

  /** `list.findIndex(a => a.id === id)` */
  function IndexOf(list: seq<Asset>, id: string): int {
    Lists.FindIndex(list, (e: Asset) => e.id == id)
  }

  /** `list.filter(a => a.id !== id)`: it shrinks exactly when some entry has the id. */
  function Drop(list: seq<Asset>, id: string): (r: seq<Asset>)
    ensures forall a :: a in r <==> a in list && a.id != id
    ensures |r| <= |list|
    ensures |r| == |list| <==> forall k :: 0 <= k < |list| ==> list[k].id != id
  {
    Lists.Filter(list, (a: Asset) => a.id != id)
  }

  /** Deleting distributes over concatenation: the kept entries keep their stored order. */
  lemma {:induction false} DropAppend(a: seq<Asset>, b: seq<Asset>, id: string)
    ensures Drop(a + b, id) == Drop(a, id) + Drop(b, id)
  {
    Lists.FilterAppend(a, b, (e: Asset) => e.id != id);
  }

  /** One entry is kept exactly when its id differs. */
  lemma DropOne(e: Asset, id: string)
    ensures Drop([e], id) == if e.id == id then [] else [e]
  {
    assert [e][1..] == [];
  }

  /** What `addAsset` receives: an asset without id and timestamp, not validated. */
  datatype NewAsset = NewAsset(kind: AssetType, name: string, amount: int,
                               currency: Currency, note: Option<Option<string>>)

  /** `Partial<Omit<Asset, "id">>`: a present field overrides. */
  datatype AssetPatch = AssetPatch(kind: Option<AssetType>, name: Option<string>, amount: Option<int>,
                                   currency: Option<Currency>, note: Option<Option<string>>)

  /** `{ ...a, ...patch, updatedAt: now }` */
  function Patched(a: Asset, patch: AssetPatch, now: string): (r: Asset)
    ensures r.id == a.id && r.updatedAt == now
    ensures r.kind == patch.kind.GetOr(a.kind) && r.name == patch.name.GetOr(a.name)
      && r.amount == patch.amount.GetOr(a.amount) && r.currency == patch.currency.GetOr(a.currency)
      && r.note == (if patch.note.Some? then Some(patch.note.value) else a.note)
  {
    a.(kind := patch.kind.GetOr(a.kind), name := patch.name.GetOr(a.name),
       amount := patch.amount.GetOr(a.amount), currency := patch.currency.GetOr(a.currency),
       note := if patch.note.Some? then Some(patch.note.value) else a.note, updatedAt := now)
  }

  /** The storage slot; `None` when the key is missing or holds unreadable JSON. */
  class AssetStore {
    var stored: Option<seq<Raw>>

    constructor (initial: Option<seq<Raw>>)
      ensures stored == initial
    {
      stored := initial;
    }

    /** `safeParse(raw, [])`: a missing or unreadable value reads as the empty list. */
    function Raws(): seq<Raw>
      reads this
    {
      stored.GetOr([])
    }

    /** `getAssets()`: the entries that pass the schema, in stored order. */
    method GetAssets() returns (parsed: seq<Asset>)
      ensures parsed == ValidEntries(Raws())
      ensures forall k :: 0 <= k < |parsed| ==> Valid(parsed[k])
    {
      var arr := Raws();
      parsed := [];
      for i := 0 to |arr|
        invariant parsed == ValidEntries(arr[..i])
      {
        assert arr[..i + 1] == arr[..i] + [arr[i]];
        ValidEntriesAppend(arr[..i], [arr[i]]);
        var res := Parse(arr[i]);
        if res.Some? {
          parsed := parsed + [res.value];
        }
      }
      assert arr[..|arr|] == arr;
    }

    /** `setAssets(list)` */
    method SetAssets(list: seq<Asset>)
      modifies this
      ensures stored == Some(ToRaws(list))
    {
      stored := Some(ToRaws(list));
    }

    /** `addAsset(input)`: the new asset goes first, written over the validated list without
        being validated itself; `newId` and `now` stand for the generated uuid and clock. */
    method AddAsset(input: NewAsset, newId: string, now: string) returns (asset: Asset)
      modifies this
      ensures asset == Asset(newId, input.kind, input.name, input.amount, input.currency, input.note, now)
      ensures stored == Some(ToRaws([asset] + old(ValidEntries(Raws()))))
      ensures ValidEntries(Raws()) == (if Valid(asset) then [asset] else []) + old(ValidEntries(Raws()))
    {
      asset := Asset(newId, input.kind, input.name, input.amount, input.currency, input.note, now);
      var list := GetAssets();
      PrependedEntries(asset, list);
      list := [asset] + list;
      SetAssets(list);
    }

    /** `updateAsset(id, patch)`: `None` with no write when the id is absent or the merged record
        fails the schema; otherwise only the first entry with the id is replaced. */
    method UpdateAsset(id: string, patch: AssetPatch, now: string) returns (res: Option<Asset>)
      modifies this
      ensures var list := old(ValidEntries(Raws()));
              var idx := IndexOf(list, id);
              if idx < 0 || !Valid(Patched(list[idx], patch, now)) then
                res.None? && stored == old(stored)
              else
                && res == Some(Patched(list[idx], patch, now))
                && stored == Some(ToRaws(list[idx := Patched(list[idx], patch, now)]))
                && ValidEntries(Raws()) == list[idx := Patched(list[idx], patch, now)]
    {
      var list := GetAssets();
      var idx := IndexOf(list, id);
      if idx == -1 {
        return None;
      }
      var merged := Patched(list[idx], patch, now);
      if !Valid(merged) {
        ParseToRawInvalid(merged);
        return None;
      }
      ParseToRaw(merged);
      list := list[idx := merged];
      SetAssets(list);
      ValidEntriesRoundTrip(list);
      return Some(merged);
    }

    /** `deleteAsset(id)`: writes the validated list without the id and reports whether it shrank. */
    method DeleteAsset(id: string) returns (removed: bool)
      modifies this
      ensures stored == Some(ToRaws(Drop(old(ValidEntries(Raws())), id)))
      ensures ValidEntries(Raws()) == Drop(old(ValidEntries(Raws())), id)
      ensures removed <==> exists k :: 0 <= k < |old(ValidEntries(Raws()))| && old(ValidEntries(Raws()))[k].id == id
      ensures forall k :: 0 <= k < |ValidEntries(Raws())| ==> ValidEntries(Raws())[k].id != id
    {
      var list := GetAssets();
      var next := Drop(list, id);
      SetAssets(next);
      assert forall k :: 0 <= k < |next| ==> next[k] in next;
      ValidEntriesRoundTrip(next);
      removed := |next| != |list|;
    }
  }
}
