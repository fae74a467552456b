/**
 * The persisted wizard store (src/lib/store.ts): profile, address, beneficiary
 * list and wizard step, each setter mirroring the whole state into the
 * `seizensetup_store_v1` storage key.
 */
module Store {
  import opened Wrappers
  import Percent

  datatype Beneficiary = Beneficiary(id: string, name: string, percent: int)

  datatype Profile = Profile(name: string, email: string, phone: string, dob: Option<string>, password: string)

  datatype Address = Address(postalCode: string, prefecture: string, city: string, town: string, line1: string)

  /** 0: onboarding, 1: kyc, 2: assets, 3: review */
  type Step = s: int | 0 <= s <= 3

  /** `Partial<Profile>`: `None` is a key the caller did not supply. */
  datatype ProfilePatch = ProfilePatch(
    name: Option<string>, email: Option<string>, phone: Option<string>,
    dob: Option<Option<string>>, password: Option<string>)

  /** `Partial<Address>` */
  datatype AddressPatch = AddressPatch(
    postalCode: Option<string>, prefecture: Option<string>, city: Option<string>,
    town: Option<string>, line1: Option<string>)

  /** The data part of the state (`Persisted` in the source). */
  datatype Persisted = Persisted(profile: Profile, address: Address, beneficiaries: seq<Beneficiary>, step: Step)

  /** A stored JSON object: each top-level key may be present or absent. */
  datatype Saved = Saved(
    profile: Option<Profile>, address: Option<Address>,
    beneficiaries: Option<seq<Beneficiary>>, step: Option<Step>)

  function Percents(bs: seq<Beneficiary>): (ps: seq<int>)
    ensures |ps| == |bs| && forall k :: 0 <= k < |bs| ==> ps[k] == bs[k].percent
  {
    if bs == [] then [] else [bs[0].percent] + Percents(bs[1..])
  }

  /** The sum shown as "合計" on the allocation pages. */
  function Total(bs: seq<Beneficiary>): int {
    Percent.Sum(Percents(bs))
  }

  function DefaultState(): Persisted {
    Persisted(
      Profile("", "", "", Some(""), ""),
      Address("", "", "", "", ""),
      [Beneficiary("b1", "受益者A", 50), Beneficiary("b2", "受益者B", 30), Beneficiary("b3", "受益者C", 20)],
      0)
  }

  /** The defaults are a complete allocation: b1/b2/b3 at 50/30/20. */
  lemma DefaultTotal()
    ensures Total(DefaultState().beneficiaries) == 100
    ensures DefaultState().step == 0
  {
    var bs := DefaultState().beneficiaries;
    assert Percents(bs) == [50, 30, 20];
    assert Percent.Sum([20]) == 20;
  }

  /** `{ ...profile, ...patch }` */
  function MergeProfile(p: Profile, patch: ProfilePatch): Profile {
    Profile(
      patch.name.GetOr(p.name), patch.email.GetOr(p.email), patch.phone.GetOr(p.phone),
      patch.dob.GetOr(p.dob), patch.password.GetOr(p.password))
  }

  /** `{ ...address, ...patch }` */
  function MergeAddress(a: Address, patch: AddressPatch): Address {
    Address(
      patch.postalCode.GetOr(a.postalCode), patch.prefecture.GetOr(a.prefecture),
      patch.city.GetOr(a.city), patch.town.GetOr(a.town), patch.line1.GetOr(a.line1))
  }

  /** The JSON object `save` writes for a state: every key present. */
  function Serialize(s: Persisted): Saved {
    Saved(Some(s.profile), Some(s.address), Some(s.beneficiaries), Some(s.step))
  }

  /** Start-up state: `{ ...defaultState, ...loaded }` when something was loaded. */
  function Restore(saved: Option<Saved>): (s: Persisted)
    ensures saved.None? ==> s == DefaultState()
    ensures saved.Some? && saved.value.profile.Some? ==> s.profile == saved.value.profile.value
    ensures saved.Some? && saved.value.profile.None? ==> s.profile == DefaultState().profile
    ensures saved.Some? && saved.value.address.Some? ==> s.address == saved.value.address.value
    ensures saved.Some? && saved.value.address.None? ==> s.address == DefaultState().address
    ensures saved.Some? && saved.value.beneficiaries.Some? ==> s.beneficiaries == saved.value.beneficiaries.value
    ensures saved.Some? && saved.value.beneficiaries.None? ==> s.beneficiaries == DefaultState().beneficiaries
    ensures saved.Some? && saved.value.step.Some? ==> s.step == saved.value.step.value
    ensures saved.Some? && saved.value.step.None? ==> s.step == 0
  {
    var d := DefaultState();
    match saved
    case None => d
    case Some(l) =>
      Persisted(l.profile.GetOr(d.profile), l.address.GetOr(d.address),
                l.beneficiaries.GetOr(d.beneficiaries), l.step.GetOr(d.step))
  }

  /** What a setter saves is what the next start-up restores. */
  lemma RestoreSerialize(s: Persisted)
    ensures Restore(Some(Serialize(s))) == s
  {
  }

  class AppStore {
    var profile: Profile
    var address: Address
    var beneficiaries: seq<Beneficiary>
    var step: Step
    /** The JSON object under the storage key, if any. */
    var saved: Option<Saved>

    /** `getPersisted()` */
    function GetPersisted(): Persisted
      reads this
    {
      Persisted(profile, address, beneficiaries, step)
    }

    /** Creates the store from what storage holds at start-up; nothing is written. */
    constructor (stored: Option<Saved>)
      ensures GetPersisted() == Restore(stored)
      ensures saved == stored
    {
      var s := Restore(stored);
      profile, address, beneficiaries, step := s.profile, s.address, s.beneficiaries, s.step;
      saved := stored;
    }

    method SetProfile(p: ProfilePatch)
      modifies this
      ensures profile == MergeProfile(old(profile), p)
      ensures address == old(address) && beneficiaries == old(beneficiaries) && step == old(step)
      ensures saved == Some(Serialize(GetPersisted()))
    {
      profile := MergeProfile(profile, p);
      saved := Some(Serialize(GetPersisted()));
    }

    method SetAddress(a: AddressPatch)
      modifies this
      ensures address == MergeAddress(old(address), a)
      ensures profile == old(profile) && beneficiaries == old(beneficiaries) && step == old(step)
      ensures saved == Some(Serialize(GetPersisted()))
    {
      address := MergeAddress(address, a);
      saved := Some(Serialize(GetPersisted()));
    }

    /** Replaces the list wholesale; the total is not checked. */
    method SetBeneficiaries(b: seq<Beneficiary>)
      modifies this
      ensures beneficiaries == b
      ensures profile == old(profile) && address == old(address) && step == old(step)
      ensures saved == Some(Serialize(GetPersisted()))
    {
      beneficiaries := b;
      saved := Some(Serialize(GetPersisted()));
    }

    method SetStep(s: Step)
      modifies this
      ensures step == s
      ensures profile == old(profile) && address == old(address) && beneficiaries == old(beneficiaries)
      ensures saved == Some(Serialize(GetPersisted()))
    {
      step := s;
      saved := Some(Serialize(GetPersisted()));
    }

    /** Restores the defaults in memory and in storage. */
    method ResetAll()
      modifies this
      ensures GetPersisted() == DefaultState()
      ensures saved == Some(Serialize(DefaultState()))
      ensures Total(beneficiaries) == 100 && step == 0
    {
      saved := Some(Serialize(DefaultState()));
      var d := DefaultState();
      profile, address, beneficiaries, step := d.profile, d.address, d.beneficiaries, d.step;
      DefaultTotal();
    }

    /** `importPersisted(data)`: merges every data field and saves the result. */
    method ImportPersisted(data: Persisted)
      modifies this
      ensures GetPersisted() == data
      ensures saved == Some(Serialize(data))
    {
      profile, address, beneficiaries, step := data.profile, data.address, data.beneficiaries, data.step;
      saved := Some(Serialize(data));
    }
  }
}
