# SeizenSetup core logic in Dafny

SeizenSetup is a Next.js application that walks a user through end-of-life preparation:
registration, identity verification (KYC), an asset register, beneficiary allocation,
inheritance advice, family sharing, and three small cognitive mini-games. Most of the
repository renders pages and calls a hosted database. This project models the parts that
hold logic of their own and proves what they promise.

One Dafny module per source file, plus three shared helper modules:

- `Wrappers` is the `Option` type. `Percent` holds the round-half-up division used for every
  `Math.round(a / b * c)`, the 0..100 clamp and integer sums. `Text` holds digit filtering,
  JavaScript white space and `trim`, and lexicographic string order. `Draws` turns a
  `Math.random()` draw into a position.
- `AssetsPage`, `HeritagePage` and `BeneficiariesForm` are the three beneficiary share
  editors. The first two share one implementation: the heritage page's helpers are the
  assets page's line for line. They add the whole rounding drift to one entry, which can go
  negative. The form clamps every share, and its ±1 correction loop can then miss 100. Both
  behaviours are proved, with concrete inputs.
- `Store` is the persisted wizard store. `AssetStorage` is the locally stored asset
  register with its schema. `AssetList` is the grouping and per-currency totals of the
  asset list page. `DataGateway` is the offline-first local blob and its pending-operation
  queue. `Family` is the member → shared-resources map with its optimistic toggle.
- `LegalChecks` is the inheritance advice rule engine. Every item it pushes is fixed by its
  id, so an item is modelled as its id and severity. The item's tip, `sourceName`, `name` and
  `href` are functions of the id holding the source's texts. `Kyc` covers document readiness and
  progress. `Onboarding` covers phone formatting and the date-of-birth rules. `Home` covers
  address assembly and the profile save. `Password` covers the password rule and the change
  handler.
- `TypingGame` is kana normalisation and positional accuracy. `MemoryQuiz` covers unique
  sampling, the Fisher–Yates shuffle, quiz construction and grading. `GridGame` covers the
  no-repeat trail and replay scoring.

Where the source changes state step by step, the model does too:
- Component state and storage keys are fields of a class, and the handlers are methods with
  `modifies` clauses.
- Loops are `while` loops proved against a specification function.

The random draws, the clock, storage contents read at start-up and the outcomes of
network calls are parameters:
- `Math.random()` is a stream `rand: nat -> real` of draws in [0, 1), together with the
  position of the first draw.
- A hosted-database or SDK call is an outcome value.
- The current time is a `now` string or a date triple.

## Model

| member | source | states |
|---|---|---|
| Percent.RoundDiv | src/app/assets/page.tsx:35 | `Math.round(n / d)` on the exact quotient: the result is the integer nearest n/d, ties going up, for either sign of d |
| Percent.Clamp | src/app/assets/page.tsx:29 | the clamped value lies in 0..100, equals x inside that range, 0 below it and 100 above it |
| AssetsPage.FindIndex | src/app/assets/page.tsx:30 | `Lists.FindIndex` on the id: the first index holding it, or -1 exactly when no entry does |
| Lists.FindIndex | src/app/assets/page.tsx:30 | `findIndex`: the first index whose element is found, with none found before it, or -1 exactly when no element is found |
| Lists.Filter | src/app/assets/page.tsx:59 | `filter` (also used at src/app/apps/ex00/page.tsx:25): no longer than the input, and an element is in the result exactly when it is in the input and passes, and nothing is dropped exactly when every element passes |
| Lists.FilterAppend | src/app/assets/page.tsx:59 | filtering a concatenation filters each part and keeps them in order, which with the membership clause makes `Filter` the order-preserving filter |
| AssetsPage.Proportional | src/app/assets/page.tsx:34-35 | each share becomes round(p · total / s), where s is the sum of the shares or 1 when that sum is 0; the length is kept |
| AssetsPage.RescaleTotal | src/app/assets/page.tsx:34-37 | after the drift fix-up every share but the first is its rounded proportional value, and a non-empty list totals exactly the target |
| AssetsPage.Rescale | src/app/assets/page.tsx:34-37 | one share per input percent: the rounded proportional shares with the drift to the target added to the first (its properties are `RescaleTotal` and `RescaleAllZero`) |
| AssetsPage.RescaleAllZero | src/app/assets/page.tsx:34-37 | when every share is 0 the first takes the whole target and the others stay 0 |
| AssetsPage.AdjustPercents | src/app/assets/page.tsx:28-45 | an id that no entry has returns the list unchanged; otherwise the result is the edited entry at the clamped value with the others rescaled around it (`Adjusted`) |
| AssetsPage.Adjusted | src/app/assets/page.tsx:38-44 | the rebuilt list, as long as the input: the edited entry holds the clamped value and the others take the rescaled shares in order (stated by `AdjustedAt`, `AdjustedPercents`, `AdjustedTotal`) |
| AssetsPage.MergeBack | src/app/assets/page.tsx:38-43 | the rebuilding loop puts the edited entry at its index and the adjusted others, in order, before and after it |
| AssetsPage.DriftOnFirst | src/app/assets/page.tsx:36-37 | adding the whole drift to the first other entry yields exactly the rescaled shares |
| AssetsPage.AdjustedAt | src/app/assets/page.tsx:38-44 | every entry keeps its id and name in its position, and the edited one holds the clamped value |
| AssetsPage.AdjustedPercents | src/app/assets/page.tsx:32-44 | the result's shares are the rescaled others with the clamped value inserted at the edited index |
| AssetsPage.AdjustedTotal | src/app/assets/page.tsx:33-37 | with two or more entries the result totals exactly 100 |
| AssetsPage.AdjustedLone | src/app/assets/page.tsx:32-37 | a single entry is left at its clamped value, so its total is that value and not 100 |
| AssetsPage.AdjustedOthersZero | src/app/assets/page.tsx:34-37 | when every other share is 0, the first non-edited entry gets 100 minus the clamped value and the rest stay 0 |
| AssetsPage.AdjustedNegativeShare | src/app/assets/page.tsx:37 | the drift is not clamped: others 1, 1, 1, 97 with the edited entry set to 50 leave the first other at -1 |
| AssetsPage.AddBeneficiary | src/app/assets/page.tsx:48-55 | one entry is appended with the given id and the next letter name; ids and names are kept; every share is ⌊100/n⌋ plus 1 for the first 100 mod n entries; the total is 100 |
| AssetsPage.HandOutRemainder | src/app/assets/page.tsx:53 | the first `rem` entries get one more point each and nothing else changes |
| AssetsPage.Without | src/app/assets/page.tsx:59 | an entry is kept exactly when it is in the list and does not have the id |
| AssetsPage.WithoutAppend | src/app/assets/page.tsx:59 | filtering a concatenation filters each part and keeps them in order, so the result is the order-preserving filter |
| AssetsPage.WithoutOne | src/app/assets/page.tsx:59 | a single entry is kept when its id differs and dropped when it matches |
| AssetsPage.RemoveBeneficiaryTotal | src/app/assets/page.tsx:58-66 | when nothing would remain the list is unchanged; otherwise every entry with the id is gone, the k-th result is the k-th kept entry of the list with only its percent changed, and the total is exactly 100, even if the id was absent |
| AssetsPage.RemoveBeneficiary | src/app/assets/page.tsx:58-66 | the list unchanged when no entry would remain; otherwise the entries without the id, rescaled to 100 (stated by `RemoveBeneficiaryTotal`) |
| AssetsPage.GoNext | src/app/assets/page.tsx:116-123 | the wizard moves to step 3 exactly when the total is 100, keeping profile, address and beneficiaries and saving the new state; otherwise neither the store nor its persisted copy changes |
| HeritagePage.InitialRows | src/app/heritage/page.tsx:49-54 | an empty stored list becomes one row 受益者A at 100; otherwise every row keeps its name and percent, and a missing or empty id gets a fresh one |
| HeritagePage.SavePayload | src/app/heritage/page.tsx:91 | the payload has one row per row, in order, with the name trimmed and the percent unchanged |
| HeritagePage.Heritage.constructor | src/app/heritage/page.tsx:38-39 | the page starts with no rows, loading |
| HeritagePage.Heritage.Load | src/app/heritage/page.tsx:44-59 | after the first load the rows are `InitialRows` of the fetched list, or unchanged when the fetch threw, and loading is over |
| HeritagePage.Heritage.Adjust | src/app/heritage/page.tsx:9-30 | an unknown id leaves the rows unchanged; otherwise they become `Adjusted` at the clamped value, the same result as the assets page |
| HeritagePage.Heritage.AddOne | src/app/heritage/page.tsx:64-72 | n+1 rows, ids and names of the old rows kept, the new one named by its position, shares the even split totalling 100 |
| HeritagePage.Heritage.RemoveOne | src/app/heritage/page.tsx:74-82 | no change when no row would remain; otherwise the rows become the rest rescaled, totalling 100 |
| HeritagePage.Heritage.OnSave | src/app/heritage/page.tsx:84-91 | rows are sent exactly when the total is 100, and what is sent is `SavePayload` of the rows |
| Store.Percents | src/lib/store.ts:5 | the list of shares has one entry per beneficiary, each that beneficiary's percent |
| Store.DefaultTotal | src/lib/store.ts:55-63 | the default allocation b1/b2/b3 totals exactly 100 and the default step is 0 |
| Store.Restore | src/lib/store.ts:71-77 | with nothing stored the state is the defaults; otherwise each top-level field present in storage overrides its default and an absent one keeps it |
| Store.Serialize | src/lib/store.ts:49-53 | the object `save` writes: every data key present with the state's value |
| Store.RestoreSerialize | src/lib/store.ts:49-77 | a state written by a setter comes back unchanged at the next start-up |
| Store.AppStore.constructor | src/lib/store.ts:71-81 | the store starts in the restored state and writes nothing |
| Store.AppStore.SetProfile | src/lib/store.ts:82-87 | only the supplied profile fields change; address, beneficiaries and step stay; the persisted copy is the new state |
| Store.MergeProfile | src/lib/store.ts:84 | `{ ...profile, ...p }`: each field the patch supplies replaces the old one, the others are kept |
| Store.AppStore.SetAddress | src/lib/store.ts:88-93 | only the supplied address fields change; the rest stays; the persisted copy is the new state |
| Store.MergeAddress | src/lib/store.ts:90 | `{ ...address, ...a }`: each field the patch supplies replaces the old one, the others are kept |
| Store.AppStore.SetBeneficiaries | src/lib/store.ts:94-99 | the list is replaced wholesale without a total check; the rest stays; the persisted copy is the new state |
| Store.AppStore.SetStep | src/lib/store.ts:100-105 | only the step changes; the persisted copy is the new state |
| Store.AppStore.ResetAll | src/lib/store.ts:106-109 | memory and storage both hold the defaults: step 0 and b1/b2/b3 at 50/30/20, totalling 100 |
| Store.AppStore.ImportPersisted | src/lib/store.ts:118-137 | afterwards `getPersisted` returns exactly the imported data and storage holds its serialised form |
| BeneficiariesForm.RowPercents | src/components/beneficiaries-form.tsx:32-35 | one share per row, each that row's percent |
| BeneficiariesForm.Corrected | src/components/beneficiaries-form.tsx:131-136 | the shares after k passes of the correction loop keep their length |
| BeneficiariesForm.SpreadDrift | src/components/beneficiaries-form.tsx:131-136 | the loop (the same one closes `removeRow`) makes exactly \|diff\| clamped unit steps, cycling over the shares in order (`Corrected`) |
| BeneficiariesForm.CorrectedInRange | src/components/beneficiaries-form.tsx:129-136 | shares that start in 0..100 stay in 0..100 through any number of clamped steps |
| BeneficiariesForm.CorrectedSum | src/components/beneficiaries-form.tsx:132-135 | when no step is clamped, each pass moves the total by exactly one unit towards the target |
| BeneficiariesForm.CorrectedClosesGap | src/components/beneficiaries-form.tsx:130-136 | when none of the \|diff\| steps is clamped, the loop closes the gap to the target exactly |
| BeneficiariesForm.OtherPercents | src/components/beneficiaries-form.tsx:112-120 | the percents of every row but the edited one, in order |
| BeneficiariesForm.FirstShares | src/components/beneficiaries-form.tsx:120-129 | one share per other row, proportional to its percent, or the even split when the others sum to 0, each clamped into 0..100 |
| BeneficiariesForm.Placed | src/components/beneficiaries-form.tsx:138-141 | the edited row stays as it is and every other row takes the next share in order; the length is kept |
| BeneficiariesForm.WriteBack | src/components/beneficiaries-form.tsx:138-141 | the `forEach` write-back gives other row number k the k-th share and leaves the edited row alone (`Placed`) |
| BeneficiariesForm.RebalanceAround | src/components/beneficiaries-form.tsx:107-143 | the list passed to `onChange` is `Rebalanced`: a lone row at 100, or the edited row at the clamped value with the others redistributed and corrected |
| BeneficiariesForm.Rebalanced | src/components/beneficiaries-form.tsx:107-142 | the clamped edit kept at its row, a lone row set to 100, and otherwise the first shares of the other rows corrected toward 100 and written back in order (stated by `RebalanceShape`, `RebalanceTotal`, `RebalanceOvershoot`) |
| BeneficiariesForm.RebalanceShape | src/components/beneficiaries-form.tsx:107-143 | length kept; only percents change; every percent in 0..100; a lone row is forced to 100; otherwise the edited row holds the clamped value |
| BeneficiariesForm.PlacedTotal | src/components/beneficiaries-form.tsx:138-142 | the total after the write-back is the shares' sum plus the edited row's percent |
| BeneficiariesForm.CorrectedTotal | src/components/beneficiaries-form.tsx:130-142 | the corrected shares written back beside the edited row total 100 when the correction closes the gap without clamping a step |
| BeneficiariesForm.RebalanceTotal | src/components/beneficiaries-form.tsx:113-142 | with two or more rows the total is exactly 100 when no correction step is clamped |
| BeneficiariesForm.RebalanceOvershoot | src/components/beneficiaries-form.tsx:129-136 | the total is not unconditional: others at 0, 1, 1 with the edited row set to 99 end at 101 |
| BeneficiariesForm.RemovalShares | src/components/beneficiaries-form.tsx:193-202 | each remaining share grows by its proportion of the removed one, or all become 100/n when the rest sums to 0, each clamped into 0..100 |
| BeneficiariesForm.RemoveRow | src/components/beneficiaries-form.tsx:183-209 | the list passed to `onChange` is `AfterRemoval`: [] when no row remains, otherwise the rest redistributed and corrected |
| BeneficiariesForm.AfterRemoval | src/components/beneficiaries-form.tsx:183-209 | the empty list when the last row goes; otherwise the remaining rows with the removed share spread over them and corrected toward 100 (stated by `RemovalShape`, `RemovalTotal`) |
| BeneficiariesForm.Remaining | src/components/beneficiaries-form.tsx:186 | an existing row idx is dropped and the others keep their order; any other idx leaves the list as it is |
| BeneficiariesForm.RemovalShape | src/components/beneficiaries-form.tsx:183-209 | removing the only row gives []; otherwise exactly row idx goes (nothing for an index outside the list); the others keep order and every field but percent; all percents end in 0..100 |
| BeneficiariesForm.RemovalTotal | src/components/beneficiaries-form.tsx:193-208 | after a removal that leaves rows, the total is exactly 100 when no correction step is clamped |
| BeneficiariesForm.Merge | src/components/beneficiaries-form.tsx:147 | each field the patch supplies overrides the row's, the others and the id are kept |
| BeneficiariesForm.UpdateField | src/components/beneficiaries-form.tsx:145-149 | nothing is emitted when disabled; otherwise only row idx changes, by taking the patch |
| BeneficiariesForm.OnChangeRelation | src/components/beneficiaries-form.tsx:155-161 | the row takes the relation; any relation but その他 also clears the note, その他 keeps it; no other row or field changes |
| BeneficiariesForm.AddRow | src/components/beneficiaries-form.tsx:174-181 | nothing is emitted when disabled; otherwise a blank row at 0 is appended, earlier rows are kept and the total does not move |
| BeneficiariesForm.OnChangePercent | src/components/beneficiaries-form.tsx:167-172 | nothing is emitted when disabled; otherwise the result is the rebalanced list |
| BeneficiariesForm.OnRemoveRow | src/components/beneficiaries-form.tsx:183-184 | nothing is emitted when disabled; otherwise the result is `AfterRemoval` |
| AssetStorage.ParseType | src/lib/assets.ts:4-12 | a type literal is accepted exactly when it names one of the seven enum values, and it reads as that value |
| AssetStorage.ParseCurrency | src/lib/assets.ts:19 | a currency literal is accepted exactly when it is JPY or USD |
| AssetStorage.Parse | src/lib/assets.ts:14-22 | a record that passes is valid (uuid id, non-empty name, amount ≥ 0, note ≤ 1000 characters), carries the record's fields, and defaults amount to 0 and currency to JPY; a missing id, an empty name, a missing timestamp or a negative amount is rejected |
| AssetStorage.ParseDefaults | src/lib/assets.ts:18-19 | a record that leaves out amount and currency but is otherwise valid is accepted with amount 0 and currency JPY |
| AssetStorage.ParseToRaw | src/lib/assets.ts:46-53 | a valid asset survives being written and read back |
| AssetStorage.ParseToRawInvalid | src/lib/assets.ts:46-53 | an invalid asset is dropped when read back |
| AssetStorage.ToRaws | src/lib/assets.ts:53 | the written list holds one record per asset, in order |
| AssetStorage.ValidEntries | src/lib/assets.ts:44-49 | the entries that pass the schema, all valid, no more than were stored |
| AssetStorage.ValidEntriesAppend | src/lib/assets.ts:45-48 | filtering distributes over concatenation, so the kept entries stay in stored order |
| AssetStorage.ValidEntriesRoundTrip | src/lib/assets.ts:39-54 | writing a list of valid assets and reading it back gives the same list |
| AssetStorage.IndexOf | src/lib/assets.ts:70 | `Lists.FindIndex` on the id: the first index holding it, or -1 exactly when no entry does |
| AssetStorage.Drop | src/lib/assets.ts:82-84 | `Lists.Filter` on the id: an entry is kept exactly when it does not have the id, and the list keeps its length exactly when no entry has the id |
| AssetStorage.DropAppend | src/lib/assets.ts:82-84 | deleting distributes over concatenation, so the kept entries keep their stored order and multiplicity |
| AssetStorage.DropOne | src/lib/assets.ts:82-84 | a single entry is kept exactly when its id differs |
| AssetStorage.Patched | src/lib/assets.ts:72 | the id is kept, each supplied field overrides, and the timestamp is the current time |
| AssetStorage.AssetStore.constructor | src/lib/assets.ts:26 | the slot starts with what storage holds |
| AssetStorage.AssetStore.GetAssets | src/lib/assets.ts:39-50 | the result is exactly the stored entries that pass the schema, in stored order; a missing or unreadable value reads as [] |
| AssetStorage.AssetStore.SetAssets | src/lib/assets.ts:52-54 | storage holds the list as written |
| AssetStorage.AssetStore.AddAsset | src/lib/assets.ts:56-66 | the new asset is returned and written before the validated list without being validated; the next read sees it first when it is valid and drops it otherwise |
| AssetStorage.PrependedEntries | src/lib/assets.ts:56-66 | an asset written in front of a valid list reads back in front of it when valid and is dropped otherwise; the list reads back unchanged |
| AssetStorage.AssetStore.UpdateAsset | src/lib/assets.ts:68-78 | an absent id or a merged record failing the schema gives null and no write; otherwise only the first entry with the id becomes the merged record, which is returned |
| AssetStorage.AssetStore.DeleteAsset | src/lib/assets.ts:80-85 | the validated list filtered by `Drop`, every other entry kept in stored order, is written; the result is true exactly when some entry had the id; afterwards no entry has it, so a repeat returns false |
| AssetList.GroupIndex | src/app/assets-hub/list/page.tsx:11 | the position of a group with the key, or -1 exactly when no group has it |
| AssetList.Select | src/app/assets-hub/list/page.tsx:8-14 | the items with a given key, in input order, never more than the input |
| AssetList.GroupBy | src/app/assets-hub/list/page.tsx:8-14 | the reduce loop builds `Grouped`: each item appended to the group of its key, a new key opening a group after the existing ones |
| AssetList.InsertShape | src/app/assets-hub/list/page.tsx:10-12 | one insertion keeps the keys distinct and in place, appends the item to the group of its key (opening it last when new) and leaves the other groups alone |
| AssetList.GroupedKeys | src/app/assets-hub/list/page.tsx:8-14 | the group keys are distinct and every item's key has a group |
| AssetList.SelectSnoc | src/app/assets-hub/list/page.tsx:9-12 | selecting after one more item adds that item exactly when it has the key |
| AssetList.InsertExact | src/app/assets-hub/list/page.tsx:9-12 | inserting the next item keeps every group equal to the items with its key |
| AssetList.GroupedExact | src/app/assets-hub/list/page.tsx:8-14 | every group holds precisely the items with its key, in input order, and is non-empty |
| AssetList.GroupIndexFound | src/app/assets-hub/list/page.tsx:11 | a key that has a group is found |
| AssetList.SelectAbsent | src/app/assets-hub/list/page.tsx:8-14 | a key without a group selects no item, when every item's key has a group |
| AssetList.Sizes | src/app/assets-hub/list/page.tsx:90 | one size per group, each the length of its items |
| AssetList.SizesInsert | src/app/assets-hub/list/page.tsx:11 | one reduce step makes exactly one group one item larger |
| AssetList.GroupSizes | src/app/assets-hub/list/page.tsx:8-14 | the group sizes add up to the number of items |
| AssetList.CurrencyAmounts | src/app/assets-hub/list/page.tsx:18 | one amount per item, zero for items in the other currency |
| AssetList.Amounts | src/app/assets-hub/list/page.tsx:16-20 | one amount per item |
| AssetList.AmountSumSnoc | src/app/assets-hub/list/page.tsx:18 | one more item adds its amount to its own currency's total only |
| AssetList.SumByCurrency | src/app/assets-hub/list/page.tsx:16-20 | the JPY total is the sum of the JPY amounts and the USD total the sum of the USD amounts |
| AssetList.CurrencySplit | src/app/assets-hub/list/page.tsx:16-20 | the two currency totals together are the sum of all amounts |
| AssetList.Subtotals | src/app/assets-hub/list/page.tsx:90-91 | one subtotal per group, that group's total in the currency |
| AssetList.SubtotalsInsert | src/app/assets-hub/list/page.tsx:8-12 | inserting an asset adds its amount to exactly one group's subtotal |
| AssetList.GroupSubtotalsAddUp | src/app/assets-hub/list/page.tsx:90-91 | for any grouping key, the group subtotals in a currency add up to that currency's overall total |
| AssetList.SubtotalsAddUp | src/app/assets-hub/list/page.tsx:37-38 | the per-type subtotals in a currency add up to that currency's overall total |
| AssetList.LabelOf | src/app/assets-hub/list/page.tsx:148-165 | the six named types get their fixed labels and any other text, including `other`, gets その他 |
| AssetList.LabelsDistinct | src/app/assets-hub/list/page.tsx:148-165 | distinct asset types show distinct labels |
| AssetList.HandleDelete | src/app/assets-hub/list/page.tsx:40-45 | declining changes nothing and does not reload; confirming deletes the id, and the list reloads exactly when an entry had it |
| LegalChecks.Rank | src/lib/legalChecks.ts:29-68 | each item's position in the order in which the engine considers it, below nine |
| LegalChecks.Entry | src/lib/legalChecks.ts:29-68 | the item at a position of that order, the inverse of `Rank` |
| LegalChecks.Item | src/lib/legalChecks.ts:31-68 | the item pushed for an id carries that id |
| LegalChecks.SpreadSource | src/lib/legalChecks.ts:13-22 | the `SOURCES` entry each item spreads into itself; the reserved-share item spreads none |
| LegalChecks.SourceName | src/lib/legalChecks.ts:31 | only the reserved-share item carries its own `sourceName` |
| LegalChecks.Href | src/lib/legalChecks.ts:31-68 | the link of the spread source, and the cc898 link for the reserved-share item |
| LegalChecks.Ids | src/lib/legalChecks.ts:11 | one id per item, in order |
| LegalChecks.OutMembers | src/lib/legalChecks.ts:27-68 | after the first n rules, the list holds the item of each of those rules whose condition holds, and nothing else |
| LegalChecks.OutOrdered | src/lib/legalChecks.ts:27-68 | the partial list follows the order and each entry is its own id's item |
| LegalChecks.RunLegalChecks | src/lib/legalChecks.ts:24-71 | the pushes build exactly `Checks` of the facts |
| LegalChecks.HeirAndWillItems | src/lib/legalChecks.ts:27-47 | the first four conditional pushes leave exactly the items of the reserved-share, holograph, notarial and minor-heir entries whose conditions hold, in that order |
| LegalChecks.LaterItems | src/lib/legalChecks.ts:49-70 | starting from the first four items, the deadline pushes (only with a date of death), the registration push and the two unconditional pushes complete the whole list |
| LegalChecks.ChecksOrdered | src/lib/legalChecks.ts:24-71 | the items follow the fixed order, no id appears twice, there are 2 to 8 of them, and the last two are always allSign then cc898 |
| LegalChecks.ChecksFire | src/lib/legalChecks.ts:29-68 | an item is in the list exactly when its condition holds |
| LegalChecks.ChecksContent | src/lib/legalChecks.ts:29-68 | iryubun iff the total is 100 and there is a spouse, a non-zero child count or ascendants; holograph iff a holograph will not kept at the ministry; notarial iff a notarial will, and never both; minor iff a minor heir with a spouse or children; no deadline item without a date of death; reg3y iff real estate; allSign and cc898 always |
| LegalChecks.Checks | src/lib/legalChecks.ts:24-71 | the list `runLegalChecks` returns: `Out` over all nine entries of the fixed order (stated by `ChecksOrdered`, `ChecksFire`, `ChecksContent`) |
| LegalChecks.ChecksSeverity | src/lib/legalChecks.ts:31-68 | the minor-heir item is the only error, and iryubun, tax10m, renun3m and reg3y are the warnings |
| LegalChecks.OutAgree | src/lib/legalChecks.ts:24-71 | facts that agree on every condition give the same list |
| LegalChecks.ChecksIgnore | src/lib/legalChecks.ts:24-71 | siblings, unlisted shares and overseas assets never change the result |
| Kyc.Slots | src/app/kyc/page.tsx:64-81 | at most four slots are done, all four exactly when the form is ready (front, back or not needed, selfie, address confirmed), and a passport always has its back slot |
| Kyc.Ready | src/app/kyc/page.tsx:65-69 | the form may go on when the front image, the back image unless the document is a passport, the selfie and the address confirmation are all given |
| Kyc.PassportIgnoresBack | src/app/kyc/page.tsx:64-77 | for a passport neither progress nor readiness depends on the back image |
| Kyc.SlotsMonotone | src/app/kyc/page.tsx:70-81 | adding a file or the confirmation never lowers the progress |
| Kyc.KycPage.constructor | src/app/kyc/page.tsx:49-55 | the page starts on a driver's licence with nothing uploaded and no error |
| Kyc.KycPage.Progress | src/app/kyc/page.tsx:70-81 | the progress is 25 per done slot, so one of 0, 25, 50, 75, 100; it is 100 exactly when ready; a passport starts at 25 |
| Kyc.KycPage.HandleNext | src/app/kyc/page.tsx:83-105 | not ready: an error and nothing submitted; a thrown call or a refusal: the matching error and no step change; only an ok answer sets step 2 and goes to the assets page |
| Text.Digits | src/app/onboarding/page.tsx:41 | the digit filter keeps only decimal digits and never lengthens the string |
| Text.DigitsAppend | src/app/onboarding/page.tsx:41 | filtering digits distributes over concatenation |
| Text.DigitsOfDigits | src/app/onboarding/page.tsx:41 | a string of digits is its own digit filter |
| Onboarding.StripHyphens | src/app/onboarding/page.tsx:40-46 | removing hyphens never lengthens the string |
| Onboarding.CountHyphens | src/app/onboarding/page.tsx:42-45 | the hyphen count is at most the length |
| Onboarding.HyphensAppend | src/app/onboarding/page.tsx:43-45 | hyphen removal and counting distribute over concatenation |
| Onboarding.HyphensOfDigits | src/app/onboarding/page.tsx:42 | a string of digits has no hyphen to remove |
| Onboarding.Layout | src/app/onboarding/page.tsx:42-45 | the output holds only digits and hyphens, with a hyphen exactly at position 3 beyond three digits and at position 8 beyond seven, and is the first eleven digits plus 0, 1 or 2 hyphens long |
| Onboarding.FormatPhone | src/app/onboarding/page.tsx:40-46 | the output holds only digits and '-' |
| Onboarding.FormatPhoneDigits | src/app/onboarding/page.tsx:40-46 | removing the hyphens gives the input's digits cut to eleven; there are 0 hyphens up to three digits, 1 up to seven, 2 beyond |
| Onboarding.Truncated | src/app/onboarding/page.tsx:41-44 | the input's digits cut to the first eleven |
| Onboarding.LayoutMiddle | src/app/onboarding/page.tsx:43 | four to seven digits are laid out with one hyphen whose removal gives the digits back |
| Onboarding.LayoutLong | src/app/onboarding/page.tsx:44-45 | eight digits or more are cut to eleven and laid out with two hyphens whose removal gives the cut digits back |
| Onboarding.JoinStrip | src/app/onboarding/page.tsx:43-45 | a joining hyphen disappears when hyphens are removed |
| Onboarding.JoinCount | src/app/onboarding/page.tsx:43-45 | a joining hyphen adds one to the count |
| Onboarding.JoinDigits | src/app/onboarding/page.tsx:43-45 | a joining hyphen is not a digit |
| Onboarding.Pieces2 | src/app/onboarding/page.tsx:43 | the 3-rest layout has one hyphen and the digits in order |
| Onboarding.Pieces3 | src/app/onboarding/page.tsx:44-45 | the 3-4-rest layout has two hyphens and the digits in order |
| Onboarding.FormatPhoneIdempotent | src/app/onboarding/page.tsx:40-46 | formatting an already formatted number changes nothing |
| Onboarding.FormatPhoneMatches | src/app/onboarding/page.tsx:40-46 | a formatted number matches the phone pattern of line 15 exactly when at least ten digits were typed |
| Onboarding.AgeIsPassedBirthdays | src/app/onboarding/page.tsx:27-33 | the computed age is the number of birthdays passed: that birthday is on or before today and the next is after it |
| Onboarding.Age | src/app/onboarding/page.tsx:27-33 | the year difference, one less when this year's birthday is still ahead (its meaning is `AgeIsPassedBirthdays`) |
| Onboarding.AdultIsPast | src/app/onboarding/page.tsx:26-33 | an age of 18 or more implies a birth date that is not in the future |
| Onboarding.DobError | src/app/onboarding/page.tsx:22-34 | no message exactly when the date is entered, parses and gives an age of 18 or more; otherwise the first failed check's message in schema order: required, invalid, future, under 18 |
| Percent.RoundDivExact | src/app/assets/page.tsx:35 | a multiple of the divisor rounds to its exact quotient |
| Percent.RoundDivMono | src/app/assets/page.tsx:35 | rounding a quotient is monotone in the numerator |
| Text.SkipSpaces | src/app/home/page.tsx:51 | the leading cut stops at the first non-blank at or after the start, or at the end, and everything it passes is blank |
| Text.BackSpaces | src/app/home/page.tsx:51 | the trailing cut stops just after the last non-blank, or at the leading cut, and everything it passes is blank |
| Text.TrimSlice | src/app/home/page.tsx:51 | `trim` returns a slice of its input with no white space at either end, having removed only blanks |
| Text.Trim | src/app/home/page.tsx:51 | `trim`: leading white space cut, then trailing white space (stated by `TrimSlice`, `TrimEmptyIffBlank`, `TrimIdempotent`) |
| Text.TrimEmptyIffBlank | src/app/home/page.tsx:92 | trimming gives the empty string exactly when the input is all white space |
| Text.TrimIdempotent | src/app/home/page.tsx:51 | trimming twice is trimming once |
| Home.Get | src/app/home/page.tsx:54-55 | None exactly when no alias holds a truthy value; otherwise the value of the first alias that does |
| Home.DecimalNat | src/app/home/page.tsx:86 | the decimal form of a number is a non-empty string of digits |
| Home.Present | src/app/home/page.tsx:57-63 | `filter(Boolean)` keeps at most the parts it is given: nothing when none was found, all of them, in order and written out, when all were; with `PresentAppend` and `PresentOne` it lists exactly the found parts, in order |
| Home.PresentAppend | src/app/home/page.tsx:57-63 | the filter works part by part: the parts of a joined list keep what each piece keeps, in order |
| Home.PresentOne | src/app/home/page.tsx:63 | an absent part gives nothing and a found part is written out with `String` |
| Home.Parts | src/app/home/page.tsx:57-63 | five parts, looked up in the order prefecture, city, town, street, building, each under its aliases |
| Home.PickFromProfile | src/app/home/page.tsx:47-66 | a missing or falsy profile gives ""; a string address with content wins, trimmed; otherwise the found alias parts, joined by single spaces |
| Home.ProfileWithoutBuilding | src/app/home/page.tsx:54-65 | a profile without an address text whose prefecture, city, town and street are found but whose building is not shows those four joined by single spaces |
| Home.FourOfFive | src/app/home/page.tsx:63-65 | four found parts followed by an absent one join to the four with single spaces |
| Home.PickFromAssets | src/app/home/page.tsx:68-87 | with neither assets record stored (or both falsy) the address is "" |
| Home.AssetsRecordPreferred | src/app/home/page.tsx:69-70 | a stored `ss_assets` record decides the address alone; without one the address is that of `ss_asset` |
| Home.AssetsZipPrefix | src/app/home/page.tsx:84-86 | a postal code found under any alias goes first after 〒, followed by one space and the joined parts |
| Home.ResolveAddress | src/app/home/page.tsx:90-95 | the trimmed profile address when it has content, the assets address otherwise |
| Home.ResolvePrefersProfile | src/app/home/page.tsx:89-95 | a non-blank profile address is preferred and comes out trimmed (trimming it again changes nothing); a blank one defers to the assets; with nothing stored the address is empty |
| Home.PhoneDigits | src/app/home/page.tsx:201-202 | the kept text is the first digits of the input, at most eleven of them, and has exactly eleven iff at least eleven digits were typed |
| Home.Recent | src/app/home/page.tsx:124 | the last five results (all, when fewer), newest first |
| Home.Reverse | src/app/home/page.tsx:124 | the k-th element of the reversal is the k-th from the end |
| Home.HomePage.EnterEdit | src/app/home/page.tsx:172-175 | the snapshot holds the current four fields and edit mode is on; nothing else changes |
| Home.HomePage.CancelEdit | src/app/home/page.tsx:176-189 | the snapshot's fields come back, the phone is the account's, else the session's, else ""; messages clear, edit mode ends, storage is untouched |
| Home.HomePage.SaveAll | src/app/home/page.tsx:191-229 | a birthday outside 1900-01-01..today or a phone without eleven digits sets its message and writes nothing; otherwise the profile is saved, the account's phone (and updatedAt) is set or a new account created, the session's phone synced when there is a session, and the saved message shown |
| Home.HomePage.WriteProfile | src/app/home/page.tsx:207-228 | the profile record is saved, the account phone and updatedAt are set (or a new account created), the session phone is synced when there is a session, edit mode ends and the saved message shows; the form fields are kept |
| Password.PwRuleIsStrong | src/app/account/password/page.tsx:19 | the pattern accepts exactly the strings of at least 8 ASCII letters and digits holding at least one letter and one digit |
| Password.PwRule | src/app/account/password/page.tsx:19 | the pattern clause by clause: a letter lookahead, a digit lookahead, and eight or more ASCII letters or digits (its meaning is `PwRuleIsStrong`) |
| Password.PasswordPage.OnSubmit | src/app/account/password/page.tsx:43-68 | a mismatch, then a weak password, then a failed update each set their own message and change nothing; on success the stored account (when there is one) gets the new hash and time, the message is shown and the three fields clear |
| Family.Expected | src/app/family/page.tsx:37-47 | the map has an entry for every listed member and every member a grant names, and each entry holds exactly the resources granted to that member |
| Family.BuildGrantMap | src/app/family/page.tsx:41-46 | the two loops build exactly the expected map |
| Family.ListStep | src/app/family/page.tsx:42 | one step of the first loop adds an empty entry for the member |
| Family.GrantStep | src/app/family/page.tsx:43-46 | one step of the second loop adds the row's resource to its member's entry, creating it when missing |
| Family.Step | src/app/family/page.tsx:89-107 | after the step the member has an entry, holding the resource exactly when it was added, keeping every other resource it had; every other member is unchanged |
| Family.RollbackRestores | src/app/family/page.tsx:87-111 | when the optimistic step changed the member's entry, the rollback restores the map exactly |
| Family.RollbackAfterNoOp | src/app/family/page.tsx:87-111 | when the box already showed the new value, a failed write flips the resource's membership away from it: the rollback does not restore |
| Family.Cell | src/app/family/page.tsx:155-167 | the box is ticked exactly when the member's set holds the resource, and enabled exactly for an active member |
| Family.FamilyPage.constructor | src/app/family/page.tsx:18-25 | loading, with no members, no grants and an empty form |
| Family.FamilyPage.Load | src/app/family/page.tsx:28-58 | loading ends in every case; the members are the rows and the grants the expected map (empty with no members, and then the empty notice shows); a throwing member call keeps members and grants, a throwing grant call keeps the grants |
| Family.FamilyPage.Invite | src/app/family/page.tsx:61-81 | nothing changes when the invitation call throws; otherwise the form is cleared and members and grants are reloaded as on mount, a throwing read keeping what it would have replaced |
| Family.FamilyPage.Toggle | src/app/family/page.tsx:87-111 | a successful write leaves the optimistic step; a failed one applies the inverse step after it |
| DataGateway.OtherSteps | src/lib/data-gateway.ts:24 | `Lists.Filter` on the step: the entries kept are exactly those for other steps |
| DataGateway.OtherStepsAppend | src/lib/data-gateway.ts:24 | the filter distributes over concatenation, so the other steps' entries keep their order and multiplicity |
| DataGateway.OtherStepsOne | src/lib/data-gateway.ts:24 | a single entry is kept exactly when it is for another step |
| DataGateway.CountOtherSteps | src/lib/data-gateway.ts:24 | no entry for the step survives the filter |
| DataGateway.OtherStepsUnchanged | src/lib/data-gateway.ts:24 | when no entry is for the step the filter changes nothing |
| DataGateway.RecordedOnce | src/lib/data-gateway.ts:23-26 | after recording, the step's entry is last and the only one for that step |
| DataGateway.CountAppend | src/lib/data-gateway.ts:23-26 | counting a step's entries distributes over concatenation |
| DataGateway.Kept | src/lib/data-gateway.ts:70-93 | what stays of the first n operations is at most n operations |
| DataGateway.KeptMembers | src/lib/data-gateway.ts:70-93 | an operation stays exactly when it is a queued operation whose write failed |
| DataGateway.KeptExtremes | src/lib/data-gateway.ts:70-94 | when every write succeeds the queue empties; when every write fails it stays whole |
| DataGateway.FailedPositions | src/lib/data-gateway.ts:70-93 | the failed positions are listed each once, in increasing order, and every failed position is listed |
| DataGateway.KeptInOrder | src/lib/data-gateway.ts:70-94 | the kept operations are, one for one and in order, the queue entries at the failed positions |
| DataGateway.Gateway.constructor | src/lib/data-gateway.ts:21-57 | no steps, no KYC record, no results, an empty queue |
| DataGateway.Gateway.Enqueue | src/lib/data-gateway.ts:56-59 | the operation goes to the end of the queue and nothing else changes |
| DataGateway.Gateway.RecordOnboarding | src/lib/data-gateway.ts:19-30 | the step's earlier entries are replaced by one new entry at the end, the other steps' entries kept in their order (`OtherStepsAppend`), and one onboarding operation is queued |
| DataGateway.Gateway.SubmitKyc | src/lib/data-gateway.ts:34-41 | the KYC record becomes the submitted data, and one KYC operation is queued |
| DataGateway.Gateway.SaveResult | src/lib/data-gateway.ts:45-51 | the new result goes first, and one result operation is queued |
| DataGateway.Gateway.FlushQueue | src/lib/data-gateway.ts:61-95 | an empty queue, a missing user or an offline browser leave the queue as it is; otherwise only the operations whose write failed stay, in order; the local blob is untouched |
| TypingGame.HiraganaOf | src/app/apps/deus00/page.tsx:21 | a katakana character moves down by 0x60, anything else is kept, and the result is never katakana |
| TypingGame.ToHiragana | src/app/apps/deus00/page.tsx:20-22 | the length is kept and no katakana remains |
| TypingGame.ToHiraganaIdempotent | src/app/apps/deus00/page.tsx:20-22 | converting twice is converting once |
| TypingGame.ReplaceEither | src/app/apps/deus00/page.tsx:25-26 | the length is kept; a position holding either of the two characters holds the replacement, and every other position keeps its character |
| TypingGame.DropIgnored | src/app/apps/deus00/page.tsx:27 | `Lists.Filter` on the ignored set: the output is no longer, holds no ignored character, and only characters of the input |
| TypingGame.DropIgnoredAppend | src/app/apps/deus00/page.tsx:27 | the removal distributes over concatenation, so the kept characters stay in their order |
| TypingGame.DropIgnoredOne | src/app/apps/deus00/page.tsx:27 | a single character is kept exactly when it is not ignored |
| TypingGame.Kana | src/app/apps/deus00/page.tsx:24-26 | the length is kept, no katakana, ゐ or ゑ remains, and each character is its hiragana with ゐ turned into い and ゑ into え |
| TypingGame.NormalizeClean | src/app/apps/deus00/page.tsx:23-29 | the normalised text holds no katakana, no ゐ or ゑ and none of the ignored characters |
| TypingGame.TrimKeepsClean | src/app/apps/deus00/page.tsx:28 | trimming a clean text leaves it clean |
| TypingGame.CleanSteps | src/app/apps/deus00/page.tsx:24-27 | on a clean text the replacement steps change nothing |
| TypingGame.DropNone | src/app/apps/deus00/page.tsx:27 | with no ignored character present the removal changes nothing |
| TypingGame.NormalizeIdempotent | src/app/apps/deus00/page.tsx:23-29 | normalising twice is normalising once |
| TypingGame.NormalizeJP | src/app/apps/deus00/page.tsx:23-29 | `normalizeJP`: the kana steps, the ignored characters dropped, surrounding white space trimmed (stated by `NormalizeClean`, `NormalizeIdempotent`) |
| TypingGame.Hits | src/app/apps/deus00/page.tsx:35-38 | the number of agreeing positions among the first m is at most m |
| TypingGame.AccuracyPercent | src/app/apps/deus00/page.tsx:30-40 | the score of the two normalised texts |
| TypingGame.PositionalScore | src/app/apps/deus00/page.tsx:33-39 | the counting loop computes the rounded share of target positions the input matches, 0 for an empty target |
| TypingGame.ScoreBounds | src/app/apps/deus00/page.tsx:30-40 | the score lies in 0..100, and is 0 for an empty target |
| TypingGame.Score | src/app/apps/deus00/page.tsx:30-40 | the rounded percentage of target positions the input matches, 0 for an empty target (stated by `ScoreBounds`, `ScoreSelf`, `ScoreIgnoresOverflow`) |
| TypingGame.HitsSelf | src/app/apps/deus00/page.tsx:36-38 | a text agrees with itself at every position |
| TypingGame.ScoreSelf | src/app/apps/deus00/page.tsx:30-40 | typing the target exactly scores 100 when it has any gradable character |
| TypingGame.HitsPrefix | src/app/apps/deus00/page.tsx:36-38 | only the compared prefix of the input matters for the count |
| TypingGame.ScoreIgnoresOverflow | src/app/apps/deus00/page.tsx:36 | characters typed past the target's length do not change the score |
| Draws.Index | src/app/apps/ex00/page.tsx:28 | `Math.floor(r * len)` with r in [0, 1) is a position below len |
| MemoryQuiz.Without | src/app/apps/ex00/page.tsx:25 | the pool holds exactly the entries of the array that are not excluded, and is no longer |
| MemoryQuiz.WithoutAppend | src/app/apps/ex00/page.tsx:25 | filtering a concatenation filters each part and keeps them in order |
| MemoryQuiz.WithoutOne | src/app/apps/ex00/page.tsx:25 | a single entry is kept exactly when it is not excluded |
| MemoryQuiz.WithoutNothing | src/app/apps/ex00/page.tsx:24-25 | with the default empty exclusion the pool is the whole array |
| MemoryQuiz.Splice | src/app/apps/ex00/page.tsx:30 | splicing an entry out of a duplicate-free pool leaves it duplicate-free and without that entry |
| MemoryQuiz.WithoutNoDup | src/app/apps/ex00/page.tsx:25 | filtering keeps a duplicate-free array duplicate-free |
| MemoryQuiz.WithoutLength | src/app/apps/ex00/page.tsx:25 | filtering a duplicate-free array removes at most as many entries as are excluded |
| MemoryQuiz.WithoutSkips | src/app/apps/ex00/page.tsx:25 | excluding a value the array does not hold changes nothing |
| MemoryQuiz.ElemsCard | src/app/apps/ex00/page.tsx:74 | the set made from a list has no more elements than the list |
| MemoryQuiz.SampleLength | src/app/apps/ex00/page.tsx:27-31 | the sample has n entries, or the whole pool when that is smaller |
| MemoryQuiz.Sample | src/app/apps/ex00/page.tsx:27-31 | n draws without replacement, each taking the drawn index out of the pool (stated by `SampleLength`, `SampleFromPool`, `SampleNoDup`) |
| MemoryQuiz.SampleFromPool | src/app/apps/ex00/page.tsx:27-31 | each pool position is taken at most once: the sample is a sub-multiset of the pool |
| MemoryQuiz.SampleNoDup | src/app/apps/ex00/page.tsx:24-33 | a duplicate-free pool gives a duplicate-free sample |
| MemoryQuiz.SampleMembers | src/app/apps/ex00/page.tsx:27-31 | every sampled entry comes from the pool |
| MemoryQuiz.SampleStep | src/app/apps/ex00/page.tsx:28-30 | one round moves the drawn entry from the pool to the output |
| MemoryQuiz.SampleUnique | src/app/apps/ex00/page.tsx:24-33 | the loop returns the sample of the filtered pool for the given draws, and reports one draw per entry |
| MemoryQuiz.TakeFrom | src/app/apps/ex00/page.tsx:26-32 | the `while` loop returns the sample its draws define |
| MemoryQuiz.NotSampled | src/app/apps/ex00/page.tsx:27-31 | a value missing from the pool is never sampled |
| MemoryQuiz.Shuffled | src/app/apps/ex00/page.tsx:34-41 | the result is a permutation of the input (same length, same multiset), duplicate-free when the input is, using one draw per index from the last down to 1 |
| MemoryQuiz.Defined | src/app/apps/ex00/page.tsx:75 | each wrong word appears, defined, in its place |
| MemoryQuiz.ShuffledQuestion | src/app/apps/ex00/page.tsx:72-75 | a permutation of the correct word and up to three pool words outside the memory set is a well-formed question |
| MemoryQuiz.EnoughWrongs | src/app/apps/ex00/page.tsx:74 | with distinct pool words, the memory set removes no more pool words than it has words |
| MemoryQuiz.PickCorrect | src/app/apps/ex00/page.tsx:72 | a picked word is a memory word not used yet; with distinct memory words and fewer used than memorised, a word is always picked |
| MemoryQuiz.PickWrongs | src/app/apps/ex00/page.tsx:74 | at most three wrong words, all pool words outside the memory set; exactly three when the pool is duplicate-free and has at least three words more than the set, and distinct when the pool is |
| MemoryQuiz.MakeQuestion | src/app/apps/ex00/page.tsx:72-75 | the question is well formed (its options are a permutation of the correct word and at most three pool words outside the memory set), its options are distinct when the pool is, its correct word is not used yet (and present when one is left), and it has four options when the pool has three distinct words outside the memory set |
| MemoryQuiz.CorrectCount | src/app/apps/ex00/page.tsx:115-121 | the count after n questions is at most n |
| MemoryQuiz.CorrectCountIsCard | src/app/apps/ex00/page.tsx:115-121 | the count is the number of questions whose given answer equals the correct word |
| MemoryQuiz.OnlyAnsweredCount | src/app/apps/ex00/page.tsx:117-119 | an unanswered question never counts |
| MemoryQuiz.GradeBounds | src/app/apps/ex00/page.tsx:114-122 | with questions, the score is a percentage: 100 when all are right and 0 when none is |
| MemoryQuiz.Grade | src/app/apps/ex00/page.tsx:114-122 | the rounded percentage of questions answered correctly, NaN with no questions (stated by `GradeBounds`) |
| MemoryQuiz.DrawMemorySet | src/app/apps/ex00/page.tsx:66 | six pool words (the whole pool when smaller), the sample for the given draws, distinct when the pool is |
| MemoryQuiz.BuildQuestions | src/app/apps/ex00/page.tsx:69-76 | five well-formed questions (each one's options a permutation of its correct word and its wrong words) whose defined correct words are pairwise distinct; all defined with four distinct options when the pool and the memory set are duplicate-free, the set has six words and the pool at least nine |
| MemoryQuiz.CorrectOnce | src/app/apps/ex00/page.tsx:72-75 | in a well-formed question the correct word appears exactly once among the options |
| MemoryQuiz.CorrectsStep | src/app/apps/ex00/page.tsx:72-73 | adding a well-formed question with an unused correct word records that word and keeps the questions well formed, their correct words distinct and, for a complete question, all complete |
| MemoryQuiz.MemoryGame.constructor | src/app/apps/ex00/page.tsx:44-57 | the game draws from the 93-word pool of lines 7-18; idle, nothing drawn, no answers, question 0, no score, 7 seconds |
| MemoryQuiz.MemoryGame.StartTest | src/app/apps/ex00/page.tsx:65-95 | a six-word memory set sampled from the pool, five well-formed questions, each one's options a permutation of its correct word and its wrong words, with distinct correct words (all defined with four distinct options when the pool is duplicate-free), five empty answers, the memorise phase with 7 seconds left; the question index and score are kept |
| MemoryQuiz.MemoryGame.Tick | src/app/apps/ex00/page.tsx:85-94 | at one second or less left the quiz phase begins and the count stops at 0; otherwise one second is taken off; nothing else changes |
| MemoryQuiz.MemoryGame.Choose | src/app/apps/ex00/page.tsx:103-107 | only the current question's answer is set; a write past the end grows the array with unanswered holes |
| MemoryQuiz.MemoryGame.NextOrFinish | src/app/apps/ex00/page.tsx:109-137 | before the last question the index advances; on the last the score is graded from the answers and the result phase begins |
| MemoryQuiz.MemoryGame.Restart | src/app/apps/ex00/page.tsx:139-148 | back to the initial state |
| GridGame.Diff | src/app/apps/machina00/page.tsx:17-24 | square boards of 4, 5 and 6 cells a side, one more step than the side, and 100 ms less per step for each larger side |
| GridGame.DiffFits | src/app/apps/machina00/page.tsx:17-24 | every board has at least two steps and more cells than steps |
| GridGame.Pick | src/app/apps/machina00/page.tsx:31-32 | the cell is on the board, is the draw when that differs from the previous cell, and differs from the previous cell on a board of two or more |
| GridGame.Trail | src/app/apps/machina00/page.tsx:27-37 | the trail has one cell per step |
| GridGame.TrailCells | src/app/apps/machina00/page.tsx:27-37 | every cell is on the board; on a board of two cells or more no cell is lit twice in a row |
| GridGame.TrailKeepsDraw | src/app/apps/machina00/page.tsx:31-32 | a draw different from the previous cell is lit as drawn |
| GridGame.MakeSequence | src/app/apps/machina00/page.tsx:27-37 | the loop builds the trail for the given draws: one on-board cell per step, never the same cell twice in a row |
| GridGame.Hits | src/app/apps/machina00/page.tsx:158 | the hits are at most the log entries |
| GridGame.HitsAppend | src/app/apps/machina00/page.tsx:130-158 | one more log entry adds one hit exactly when it is a hit |
| GridGame.AccuracyBounds | src/app/apps/machina00/page.tsx:159 | the accuracy is a percentage, 100 when every step is a hit and, on boards of fewer than 200 steps, only then |
| GridGame.Accuracy | src/app/apps/machina00/page.tsx:159 | `Math.round((hits / rounds) * 100)` (stated by `AccuracyBounds`) |
| GridGame.StaleRecordedScore | src/app/apps/machina00/page.tsx:143-159 | as written, five hits on the easy board are recorded as 80 while the panel shows 100 |
| GridGame.RecordedAsWritten | src/app/apps/machina00/page.tsx:143-159 | the accuracy of the log as it stood before the final click, which is what the source records |
| GridGame.Game.constructor | src/app/apps/machina00/page.tsx:40-65 | idle on the 4×4 board with 5 steps, nothing lit, nothing logged |
| GridGame.Game.Start | src/app/apps/machina00/page.tsx:72-118 | the board of the chosen difficulty, exactly the trail `Trail` draws from the stream (one on-board cell per step, no cell twice in a row), an empty log, the first cell lit, running |
| GridGame.Game.SetBoard | src/app/apps/machina00/page.tsx:73-78 | the difficulty and the board settings become those of `DIFF[d]`; nothing else changes |
| GridGame.Game.ResetRun | src/app/apps/machina00/page.tsx:81-86 | the new trail is stored, the log emptied, the step at 0, memorise mode, no lit cell and no click lock; the board settings are kept |
| GridGame.Game.EndPreview | src/app/apps/machina00/page.tsx:96-102 | the light goes off, replay begins, clicks unlock; nothing else changes |
| GridGame.Game.OnCellClick | src/app/apps/machina00/page.tsx:120-159 | a click outside the unlocked replay changes nothing; otherwise the step's entry is logged, a hit exactly when the clicked cell is the lit one, other entries kept; the game advances, or on the last step finishes and records the accuracy including this click |
| GridGame.Logged | src/app/apps/machina00/page.tsx:130-139 | the copied log holds the new entry at the step, keeps every other entry, and a write past the end grows it with empty slots in between |
| GridGame.Game.Restart | src/app/apps/machina00/page.tsx:192-201 | back to the start screen with an empty trail and log; board size and click lock are kept |

## Left out

- Number arithmetic: share, score and accuracy formulas divide in double precision. The model divides exactly and rounds half up, so a result could differ where the double quotient lands on the other side of a .5 tie. Percents, amounts and counts are integers throughout.
- `resetAll` (src/lib/store.ts:106-109) also merges the no-op setter placeholders of the default state into the live store. Only its effect on the data fields is modelled, and nothing is stated about setter calls made after a reset.
- The wizard store and the data gateway's local blob share the storage key `seizensetup_store_v1`. The model keeps them as separate objects, and neither sees the other's writes.
- Slider dragging in the beneficiary form (`beginDrag`, `applyDrag`, `onTrackPointerDown`) works on pointer coordinates and `barStyle` is presentation. The percent text field's `Number()` parsing is not modelled either: the parsed integer is an input.
- `BeneficiariesForm.RebalanceAround`: requires the edited index to be in the list, as every caller passes a rendered row's index. The source's behaviour for an index outside the list is not modelled.
- `AssetsPage.AddBeneficiary` and `HeritagePage.Heritage.AddOne` take the new id as a parameter, standing in for the random `uid()`. `HeritagePage.Heritage.Load` takes the fresh ids for rows without one in the same way.
- The heritage page's hosted load and save, the KYC verification call, `supabase.auth.updateUser`, the family repository calls (rows, or `None` for a call that throws) and the gateway's database writes are outcome parameters. So is `navigator.onLine`.
- `hashPassword` (SHA-256 through the Web Crypto API) is a value the caller supplies.
- `flushQueue` is called without `await` after each gateway write. The model does not start a flush from `RecordOnboarding`, `SubmitKyc` or `SaveResult`, and concurrent or re-entrant flushes are not modelled.
- The gateway calls `new Date()` twice per write; the model uses one `now` for both timestamps. A local blob whose `onboarding` object lacks `steps` makes `recordOnboarding` throw; this is not modelled.
- Stored JSON is a value of the model's types: a missing or unparsable asset list reads as the empty list. `zod`'s `uuid` check is an 8-4-4-4-12 hexadecimal pattern, and its `finite()` check is implied by integer amounts.
- The legal-check deadlines (src/lib/legalChecks.ts:50-58) depend on JavaScript `Date` month overflow and the wall clock. They are two boolean inputs, consulted only when a date of death is given.
- Date parsing in the onboarding schema (`Date.parse`, UTC versus local time) is not modelled. The parsed date is a (year, month, day) input, or none when parsing fails. The onboarding `onSubmit` (store writes, gateway call, navigation) is not modelled.
- Strings are sequences of Dafny `char`s, which are Unicode scalar values, while JavaScript strings are sequences of UTF-16 code units. The two agree inside the Basic Multilingual Plane, and every character the typing game normalises lies there. A character outside it, such as an emoji, is one `char` in the model but two code units in the source. Lengths and positions then differ, in the two places listed next.
- `AssetStorage.Parse`: the 1000-character limit on `note` counts `char`s, while `z.string().max(1000)` counts UTF-16 code units. For example, a note of 600 emoji is rejected by the source and accepted by the model.
- `TypingGame.Score`: characters are compared position by position as `char`s, while `accuracyPercent` compares UTF-16 code units. For example, the target "あい" typed as "😀い" scores 0 in the source and 50 in the model. `TypingGame.PositionalScore` and `TypingGame.AccuracyPercent` share this difference.
- The home page's mount effect is not modelled: it hydrates the form from storage and writes a resolved address back into the profile. `HomePage` starts from a given state. `handleLogout` and the 1.5-second message timer are not modelled.
- `Home.PickFromAssets`: its own contract states only the case with nothing stored. `Home.AssetsRecordPreferred` states the choice between the two records, and `Home.AssetsZipPrefix` states the 〒 prefix. The nested-address lookup is stated only by the body, which is built from `Home.Get` and `Home.Present`, whose contracts are stated. `String()` is modelled for the JSON values an address part can hold, with integer numbers.
- The family invitation payload (`inviteMember`) and the `mounted` guard against updates after unmount are not modelled. Overlapping toggles whose writes resolve out of order are not modelled either.
- Timers are not modelled: the scheduling of the memory quiz's countdown ticks, the grid game's preview on and off timings, and the redirect delays. `MemoryQuiz.MemoryGame.Tick` is one countdown callback and `GridGame.Game.EndPreview` the last preview callback; the intermediate preview steps, which only switch the lit cell on and off, are not modelled.
- `charsPerMinute` in the typing game, the grid game's reaction-time averages and `fmtMoney`'s locale formatting are floating-point or locale code and are not modelled. The typing game's poem choice is a draw the model does not make.
- `GridGame.MakeSequence`: requires at least one cell. Every caller passes a board of 16, 25 or 36 cells; with no cells the source would produce `NaN` entries.
- `GridGame.AccuracyBounds`: "100 only when every step is a hit" is proved for boards of fewer than 200 steps. With more steps, rounding makes 100 reachable with one miss; the source's boards have 5 to 7 steps.
- `MemoryQuiz.PickWrongs`, `MemoryQuiz.MakeQuestion`, `MemoryQuiz.BuildQuestions`, `MemoryQuiz.DrawMemorySet`, `MemoryQuiz.MemoryGame.StartTest`: these take the word pool as a parameter or, in the game, as a constant set to `WORD_POOL`. The counts "exactly three wrong words", "four options" and "six distinct memory words" are stated under the hypothesis that the pool has no duplicate word. The distinctness of the 93 words is not proved in Dafny.
- `MemoryQuiz.Shuffled` copies its input into a fresh array and swaps in place. It states the permutation (same multiset) and the number of draws, not which permutation a given stream produces.
- `Home.HomePage.SaveAll` and `Password.PasswordPage.OnSubmit` set the message but do not model the follow-up timers that clear it or navigate away.

## Findings

| source | as written | input that shows it | evidently intended | confidence | as-written member | corrected member |
|---|---|---|---|---|---|---|
| src/app/apps/machina00/page.tsx:53-54, 143-159 | `finishGame` counts hits in `logsRef.current`, which an effect copies from `logs` only after the next render, so the final click's entry is missing from the recorded score | easy board, five hits: the result panel shows 100, while `appendResult` records 80 | the recorded accuracy counts every click, as the result panel does | not executed | GridGame.StaleRecordedScore | GridGame.Game.OnCellClick |
