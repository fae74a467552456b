/**
 * The identity-verification step (src/app/kyc/page.tsx): which images are still missing,
 * the progress bar, and the submit handler. An uploaded file is modelled by whether it is
 * present; the outcome of the verification call is a parameter.
 */
module Kyc {
  import opened Wrappers
  import Store

  datatype DocType = Driver | MyNumber | Passport

  /** What `submitEkyc` did: it answered (with `ok` and perhaps a reason), or it threw. */
  datatype EkycOutcome = Answered(ok: bool, reason: Option<string>) | Threw

  const MissingItems := "必要な項目が揃っていません。"
  const VerifyFailed := "本人確認に失敗しました。"
  const ConnectionFailed := "接続に失敗しました。時間をおいて再試行してください。"

  /** The back of the document is required for every document but a passport. */
  predicate BackNeeded(docType: DocType) {
    docType != Passport
  }

  predicate Ready(docType: DocType, front: bool, back: bool, selfie: bool, addrConfirmed: bool) {
    front && (back || !BackNeeded(docType)) && selfie && addrConfirmed
  }

  function Ind(b: bool): nat {
    if b then 1 else 0
  }

  /** How many of the four slots count as done; a passport's back slot always does. */
  function Slots(docType: DocType, front: bool, back: bool, selfie: bool, addrConfirmed: bool): (k: nat)
    ensures k <= 4
    ensures k == 4 <==> Ready(docType, front, back, selfie, addrConfirmed)
    ensures docType == Passport ==> k >= 1
  {
    Ind(front) + Ind(back || !BackNeeded(docType)) + Ind(selfie) + Ind(addrConfirmed)
  }

  /** For a passport the back image makes no difference to the progress. */
  lemma PassportIgnoresBack(front: bool, back: bool, selfie: bool, addrConfirmed: bool)
    ensures Slots(Passport, front, back, selfie, addrConfirmed) == Slots(Passport, front, !back, selfie, addrConfirmed)
    ensures Ready(Passport, front, back, selfie, addrConfirmed) == Ready(Passport, front, !back, selfie, addrConfirmed)
  {
  }

  /** Adding a file never lowers the progress. */
  lemma SlotsMonotone(d: DocType, front: bool, back: bool, selfie: bool, addr: bool,
                      front': bool, back': bool, selfie': bool, addr': bool)
    requires (front ==> front') && (back ==> back') && (selfie ==> selfie') && (addr ==> addr')
    ensures Slots(d, front, back, selfie, addr) <= Slots(d, front', back', selfie', addr')
  {
  }

  class KycPage {
    var docType: DocType
    var front: bool
    var back: bool
    var selfie: bool
    var addrConfirmed: bool
    var submitting: bool
    var error: string
    /** The page `router.push` navigated to, if any. */
    var route: Option<string>

    /** The initial state: a driver's licence, nothing uploaded. */
    constructor ()
      ensures docType == Driver && !front && !back && !selfie && !addrConfirmed
      ensures !submitting && error == "" && route == None
    {
      docType := Driver;
      front, back, selfie, addrConfirmed := false, false, false, false;
      submitting := false;
      error := "";
      route := None;
    }

    function IsReady(): bool
      reads this
    {
      Ready(docType, front, back, selfie, addrConfirmed)
    }

    /** The `progress` memo: 25 per completed slot. */
    method Progress() returns (n: int)
      ensures n == 25 * Slots(docType, front, back, selfie, addrConfirmed)
      ensures n in {0, 25, 50, 75, 100}
      ensures n == 100 <==> IsReady()
      ensures docType == Passport ==> n >= 25
    {
      n := 0;
      if front {
        n := n + 25;
      }
      if BackNeeded(docType) {
        if back {
          n := n + 25;
        }
      } else {
        n := n + 25;
      }
      if selfie {
        n := n + 25;
      }
      if addrConfirmed {
        n := n + 25;
      }
    }

    /** `handleNext()`: nothing is submitted unless the form is ready; only an `ok` answer
        moves the wizard to step 2 and on to the assets page. */
    method HandleNext(store: Store.AppStore, outcome: EkycOutcome)
      modifies this, store
      ensures docType == old(docType) && front == old(front) && back == old(back)
      ensures selfie == old(selfie) && addrConfirmed == old(addrConfirmed)
      ensures !old(IsReady()) ==>
                error == MissingItems && submitting == old(submitting) && route == old(route)
                && unchanged(store)
      ensures old(IsReady()) && outcome == Threw ==>
                error == ConnectionFailed && !submitting && route == old(route) && unchanged(store)
      ensures old(IsReady()) && outcome.Answered? && !outcome.ok ==>
                error == outcome.reason.GetOr(VerifyFailed) && !submitting && route == old(route)
                && unchanged(store)
      ensures old(IsReady()) && outcome.Answered? && outcome.ok ==>
                error == "" && submitting && route == Some("/assets")
                && store.step == 2 && store.profile == old(store.profile) && store.address == old(store.address)
                && store.beneficiaries == old(store.beneficiaries)
                && store.saved == Some(Store.Serialize(store.GetPersisted()))
    {
      error := "";
      if !IsReady() {
        error := MissingItems;
        return;
      }
      submitting := true;
      match outcome
      case Threw =>
        error := ConnectionFailed;
        submitting := false;
      case Answered(ok, reason) =>
        if !ok {
          error := reason.GetOr(VerifyFailed);
          submitting := false;
          return;
        }
        store.SetStep(2);
        route := Some("/assets");
    }
  }
}
