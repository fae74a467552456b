/**
 * The inheritance advice rule engine (src/lib/legalChecks.ts): from facts about heirs, the
 * will, the estate, the date of death and the allocation total it lists advice items in a
 * fixed order.
 */
module LegalChecks {
  import opened Wrappers

  datatype Severity = Error | Warn | Info
  datatype WillType = NoWill | Holograph | Notarial

  datatype Heirs = Heirs(spouse: bool, children: int, ascendants: bool, siblings: bool, hasMinorHeir: bool)
  datatype Will = Will(kind: WillType, keptAtMoJ: Option<bool>)
  datatype Estate = Estate(hasRealEstate: bool, hasUnlistedShares: bool, hasOverseas: bool)

  /**
   * The date of death as entered, with the two clock comparisons the engine makes from it:
   * whether now is past ten months minus 30 days after death, and past three months minus
   * 7 days. Both are false for a date that does not parse.
   */
  datatype Deadlines = Deadlines(deathDateISO: string, tax10mDue: bool, renun3mDue: bool)

  /** The items the engine can produce. */
  datatype RuleId = IryubunId | HolographId | NotarialId | MinorId | Tax10mId | Renun3mId | Reg3yId | AllSignId | Cc898Id

  /** The id string each item carries. */
  function IdName(id: RuleId): string {
    match id
    case IryubunId => "iryubun"
    case HolographId => "holograph"
    case NotarialId => "notarial"
    case MinorId => "minor"
    case Tax10mId => "tax10m"
    case Renun3mId => "renun3m"
    case Reg3yId => "reg3y"
    case AllSignId => "allSign"
    case Cc898Id => "cc898"
  }

  /** An advice item. Every item the engine pushes is fixed by its id, so the item is its id
      and severity, and its texts are the functions `Tip`, `SourceName`, `Name` and `Href`
      of the id. */
  datatype RuleResult = RuleResult(id: RuleId, severity: Severity)

  datatype Source = Source(name: string, href: string)

  const Tax10mSource := Source("国税庁：相続税の申告と納税", "https://www.nta.go.jp/taxes/shiraberu/taxanswer/sozoku/4205.htm")
  const Renun3mSource := Source("裁判所：承認・放棄の熟慮期間", "https://www.courts.go.jp/saiban/syurui/syurui_kazi/kazi_06_25/index.html")
  const Reg3ySource := Source("法務省：相続登記の申請義務化Q&A", "https://www.moj.go.jp/MINJI/minji05_00565.html")
  const NotarySource := Source("日本公証人連合会：遺言Q&A", "https://www.koshonin.gr.jp/notary/ow02")
  const HolographKeepSource := Source("法務省：自筆証書遺言書保管制度", "https://www.moj.go.jp/MINJI/minji03_00051.html")
  const MinorAgentSource := Source("裁判所：特別代理人選任（利益相反）", "https://www.courts.go.jp/saiban/syurui/syurui_kazi/kazi_06_11/index.html")
  const AllSignSource := Source("国税庁：提出書類（協議書＋印鑑証明）", "https://www.nta.go.jp/publication/pamph/sozoku/shikata-sozoku2023/pdf/E11.pdf")
  const Cc898Source := Source("民法898（共同相続の効力）", "https://tek-law.jp/civil-code/inheritance/effect-of-inheritance/general-provisions/article-898/")

  /** The tip each item carries. */
  function Tip(id: RuleId): string {
    match id
    case IryubunId => "遺留分の侵害リスクに留意（相手方が請求すると金銭請求に）"
    case HolographId => "自筆証書は方式不備の無効リスク・保管制度の活用を推奨"
    case NotarialId => "公正証書遺言は家庭裁判所の検認手続が不要"
    case MinorId => "未成年相続人がいる場合は遺産分割協議に特別代理人が必要の可能性"
    case Tax10mId => "相続税の申告・納付（10か月）に注意"
    case Renun3mId => "相続放棄（原則3か月：熟慮期間）の期限接近"
    case Reg3yId => "不動産の相続登記は『取得を知ってから3年以内』が義務"
    case AllSignId => "遺産分割協議書は相続人全員の署名押印（印鑑証明）を実務で要求"
    case Cc898Id => "遺産分割完了まで共同相続＝共有状態。早期分割を推奨"
  }

  /** The source an item spreads into itself; the reserved-share item spreads none. */
  function SpreadSource(id: RuleId): Option<Source> {
    match id
    case IryubunId => None
    case HolographId => Some(HolographKeepSource)
    case NotarialId => Some(NotarySource)
    case MinorId => Some(MinorAgentSource)
    case Tax10mId => Some(Tax10mSource)
    case Renun3mId => Some(Renun3mSource)
    case Reg3yId => Some(Reg3ySource)
    case AllSignId => Some(AllSignSource)
    case Cc898Id => Some(Cc898Source)
  }

  /** `sourceName`: only the reserved-share item has one. */
  function SourceName(id: RuleId): Option<string> {
    if id == IryubunId then Some("民法の相続総則") else None
  }

  /** `name`: the title of the spread source. */
  function Name(id: RuleId): Option<string> {
    match SpreadSource(id)
    case None => None
    case Some(src) => Some(src.name)
  }

  /** `href`: the spread source's link; the reserved-share item links to article 898. */
  function Href(id: RuleId): string {
    match SpreadSource(id)
    case None => Cc898Source.href
    case Some(src) => src.href
  }

  /** The severity of each item. */
  function SeverityOf(id: RuleId): Severity {
    match id
    case MinorId => Error
    case IryubunId | Tax10mId | Renun3mId | Reg3yId => Warn
    case HolographId | NotarialId | AllSignId | Cc898Id => Info
  }

  /** `children` is a number: it counts as present when it is not 0. */
  predicate HasHeirs(h: Heirs) {
    h.spouse || h.children != 0 || h.ascendants
  }

  /** Everything the engine looks at, in one value. */
  datatype Facts = Facts(heirs: Heirs, will: Will, estate: Estate, deadlines: Deadlines, sumPercent: int)

  /** The number of items the engine considers. */
  const RuleCount := 9

  /** The position of an id in the fixed order in which the engine considers the items. */
  function Rank(id: RuleId): (n: nat)
    ensures n < RuleCount
  {
    match id
    case IryubunId => 0
    case HolographId => 1
    case NotarialId => 2
    case MinorId => 3
    case Tax10mId => 4
    case Renun3mId => 5
    case Reg3yId => 6
    case AllSignId => 7
    case Cc898Id => 8
  }

  /** The id at position `n` of that order. */
  function Entry(n: nat): (id: RuleId)
    requires n < RuleCount
    ensures Rank(id) == n
  {
    if n == 0 then IryubunId
    else if n == 1 then HolographId
    else if n == 2 then NotarialId
    else if n == 3 then MinorId
    else if n == 4 then Tax10mId
    else if n == 5 then Renun3mId
    else if n == 6 then Reg3yId
    else if n == 7 then AllSignId
    else Cc898Id
  }

  /** The condition under which each item is pushed. The deadline items need a non-empty
      date of death; the last two are unconditional. */
  predicate Fires(f: Facts, id: RuleId) {
    var h, w := f.heirs, f.will;
    var dated := f.deadlines.deathDateISO != "";
    match id
    case IryubunId => f.sumPercent == 100 && HasHeirs(h)
    case HolographId => w.kind == Holograph && !w.keptAtMoJ.GetOr(false)
    case NotarialId => w.kind == Notarial
    case MinorId => h.hasMinorHeir && (h.spouse || h.children != 0)
    case Tax10mId => dated && f.deadlines.tax10mDue
    case Renun3mId => dated && f.deadlines.renun3mDue
    case Reg3yId => f.estate.hasRealEstate
    case AllSignId => true
    case Cc898Id => true
  }

  predicate Ordered(ids: seq<RuleId>) {
    forall i, j :: 0 <= i < j < |ids| ==> Rank(ids[i]) < Rank(ids[j])
  }

  /** The list after the engine has considered the first `n` entries of the order: the item of
      each entry whose condition holds, appended in turn. */
  function Out(f: Facts, n: nat): seq<RuleResult>
    requires n <= RuleCount
  {
    if n == 0 then [] else if Fires(f, Entry(n - 1)) then Out(f, n - 1) + [Item(Entry(n - 1))] else Out(f, n - 1)
  }

  /** The item pushed for each id. */
  function Item(id: RuleId): (r: RuleResult)
    ensures r.id == id
  {
    RuleResult(id, SeverityOf(id))
  }

  function Ids(rs: seq<RuleResult>): (ids: seq<RuleId>)
    ensures |ids| == |rs| && forall k :: 0 <= k < |rs| ==> ids[k] == rs[k].id
  {
    seq(|rs|, k requires 0 <= k < |rs| => rs[k].id)
  }

  /** After `n` entries the list holds the item of each of those entries whose condition
      holds, and nothing else. */
  lemma {:induction false} OutMembers(f: Facts, n: nat)
    requires n <= RuleCount
    ensures forall id :: id in Ids(Out(f, n)) <==> Rank(id) < n && Fires(f, id)
  {
    if n > 0 {
      OutMembers(f, n - 1);
      if Fires(f, Entry(n - 1)) {
        assert Ids(Out(f, n)) == Ids(Out(f, n - 1)) + [Entry(n - 1)];
      } else {
        assert Ids(Out(f, n)) == Ids(Out(f, n - 1));
      }
    }
  }

  /** The list follows the order, and each entry is the item of its own id. */
  lemma {:induction false} OutOrdered(f: Facts, n: nat)
    requires n <= RuleCount
    ensures var out := Out(f, n);
      && Ordered(Ids(out))
      && forall k :: 0 <= k < |out| ==> Rank(out[k].id) < n && out[k] == Item(out[k].id)
  {
    if n > 0 {
      OutOrdered(f, n - 1);
      if Fires(f, Entry(n - 1)) {
        assert Ids(Out(f, n)) == Ids(Out(f, n - 1)) + [Entry(n - 1)];
      }
    }
  }

  /** The list `runLegalChecks` returns. */
  function Checks(f: Facts): seq<RuleResult> {
    Out(f, RuleCount)
  }

  /** `runLegalChecks(heirs, will, estate, d, ui)` */
  method RunLegalChecks(h: Heirs, w: Will, e: Estate, d: Deadlines, sumPercent: int) returns (out: seq<RuleResult>)
    ensures out == Checks(Facts(h, w, e, d, sumPercent))
  {
    out := HeirAndWillItems(h, w, e, d, sumPercent);
    out := LaterItems(h, w, e, d, sumPercent, out);
  }

  /** The first part of `runLegalChecks`: the reserved-share, will and minor-heir items. */
  method HeirAndWillItems(h: Heirs, w: Will, e: Estate, d: Deadlines, sumPercent: int) returns (out: seq<RuleResult>)
    ensures out == Out(Facts(h, w, e, d, sumPercent), 4)
  {
    ghost var f := Facts(h, w, e, d, sumPercent);
    out := [];
    if sumPercent == 100 && (h.spouse || h.children != 0 || h.ascendants) {
      out := out + [RuleResult(IryubunId, Warn)];
    }
    assert out == Out(f, 1);
    if w.kind == Holograph && !w.keptAtMoJ.GetOr(false) {
      out := out + [RuleResult(HolographId, Info)];
    }
    assert out == Out(f, 2);
    if w.kind == Notarial {
      out := out + [RuleResult(NotarialId, Info)];
    }
    assert out == Out(f, 3);
    if h.hasMinorHeir && (h.spouse || h.children != 0) {
      out := out + [RuleResult(MinorId, Error)];
    }
  }

  /** The rest of `runLegalChecks`: the deadline items, the registration item and the two
      items always shown, appended to the first part. */
  method LaterItems(h: Heirs, w: Will, e: Estate, d: Deadlines, sumPercent: int, first: seq<RuleResult>)
    returns (out: seq<RuleResult>)
    requires first == Out(Facts(h, w, e, d, sumPercent), 4)
    ensures out == Out(Facts(h, w, e, d, sumPercent), RuleCount)
  {
    ghost var f := Facts(h, w, e, d, sumPercent);
    out := first;
    if d.deathDateISO != "" {
      if d.tax10mDue {
        out := out + [RuleResult(Tax10mId, Warn)];
      }
      assert out == Out(f, 5);
      if d.renun3mDue {
        out := out + [RuleResult(Renun3mId, Warn)];
      }
    } else {
      assert out == Out(f, 5);
    }
    assert out == Out(f, 6);
    if e.hasRealEstate {
      out := out + [RuleResult(Reg3yId, Warn)];
    }
    assert out == Out(f, 7);
    out := out + [RuleResult(AllSignId, Info)];
    assert out == Out(f, 8);
    out := out + [RuleResult(Cc898Id, Info)];
  }

  /** The items follow the fixed order iryubun, holograph, notarial, minor, tax10m, renun3m,
      reg3y, allSign, cc898, so no id appears twice; there are between 2 and 8 of them (the
      two will items exclude each other) and the last two are always allSign and cc898. */
  lemma ChecksOrdered(f: Facts)
    ensures var out := Checks(f);
      && Ordered(Ids(out))
      && (forall i, j :: 0 <= i < j < |out| ==> out[i].id != out[j].id)
      && 2 <= |out| <= 8
      && out[|out| - 2] == Item(AllSignId) && out[|out| - 1] == Item(Cc898Id)
  {
    OutOrdered(f, RuleCount);
    assert Checks(f) == Out(f, 7) + [Item(AllSignId)] + [Item(Cc898Id)];
    assert |Out(f, 3)| <= 2 by {
      assert |Out(f, 1)| <= 1;
      assert Fires(f, NotarialId) ==> !Fires(f, HolographId);
    }
    assert |Out(f, 7)| <= |Out(f, 3)| + 4 by {
      assert |Out(f, 4)| <= |Out(f, 3)| + 1;
      assert |Out(f, 5)| <= |Out(f, 4)| + 1;
      assert |Out(f, 6)| <= |Out(f, 5)| + 1;
    }
  }

  /** An item is in the list exactly when its condition holds. */
  lemma ChecksFire(f: Facts)
    ensures forall id :: id in Ids(Checks(f)) <==> Fires(f, id)
  {
    OutMembers(f, RuleCount);
  }

  /** Which items appear, each in both directions. */
  lemma ChecksContent(f: Facts)
    ensures var ids := Ids(Checks(f));
      var h, w, d := f.heirs, f.will, f.deadlines;
      && (IryubunId in ids <==> f.sumPercent == 100 && (h.spouse || h.children != 0 || h.ascendants))
      && (HolographId in ids <==> w.kind == Holograph && w.keptAtMoJ != Some(true))
      && (NotarialId in ids <==> w.kind == Notarial)
      && !(HolographId in ids && NotarialId in ids)
      && (MinorId in ids <==> h.hasMinorHeir && (h.spouse || h.children != 0))
      && (d.deathDateISO == "" ==> Tax10mId !in ids && Renun3mId !in ids)
      && (d.deathDateISO != "" ==> (Tax10mId in ids <==> d.tax10mDue) && (Renun3mId in ids <==> d.renun3mDue))
      && (Reg3yId in ids <==> f.estate.hasRealEstate)
      && AllSignId in ids && Cc898Id in ids
  {
    ChecksFire(f);
  }

  /** The severities the items carry: the minor-heir item is the only error, and the
      reserved-share, deadline and registration items are the warnings. */
  lemma ChecksSeverity(f: Facts)
    ensures var out := Checks(f);
      forall k :: 0 <= k < |out| ==>
        (out[k].severity == Error <==> out[k].id == MinorId)
        && (out[k].severity == Warn <==> out[k].id in {IryubunId, Tax10mId, Renun3mId, Reg3yId})
  {
    OutOrdered(f, RuleCount);
  }

  /** Facts that agree on every condition give the same list. */
  lemma {:induction false} OutAgree(f: Facts, g: Facts, n: nat)
    requires n <= RuleCount
    requires forall id :: Fires(f, id) == Fires(g, id)
    ensures Out(f, n) == Out(g, n)
  {
    if n > 0 {
      OutAgree(f, g, n - 1);
    }
  }

  /** Siblings, unlisted shares and overseas assets never influence the result. */
  lemma ChecksIgnore(f: Facts, siblings: bool, unlisted: bool, overseas: bool)
    ensures Checks(f.(heirs := f.heirs.(siblings := siblings),
                      estate := f.estate.(hasUnlistedShares := unlisted, hasOverseas := overseas)))
            == Checks(f)
  {
    var g := f.(heirs := f.heirs.(siblings := siblings),
                estate := f.estate.(hasUnlistedShares := unlisted, hasOverseas := overseas));
    OutAgree(f, g, RuleCount);
  }
}
