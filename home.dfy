/**
 * The home dashboard (src/app/home/page.tsx): the address shown on the profile card, built
 * from whatever was stored under `ss_profile` or `ss_assets`/`ss_asset`; the profile save
 * with its birthday and phone checks; and the list of recent results.
 */
module Home {
  import opened Wrappers
  import opened Text

  /** A parsed JSON value. Numbers are integers here. */
  datatype Json = JNull | JBool(b: bool) | JNum(n: int) | JStr(s: string)
                | JObj(fields: map<string, Json>) | JArr(items: seq<Json>)

  /** JavaScript truthiness of a JSON value. */
  predicate Truthy(v: Json) {
    match v
    case JNull => false
    case JBool(b) => b
    case JNum(n) => n != 0
    case JStr(s) => s != ""
    case JObj(_) => true
    case JArr(_) => true
  }

  /** `obj?.[k]`: a present key of an object; anything else reads as undefined. */
  function Lookup(obj: Json, k: string): Option<Json> {
    if obj.JObj? && k in obj.fields then Some(obj.fields[k]) else None
  }

  predicate TruthyAt(obj: Json, k: string) {
    Lookup(obj, k).Some? && Truthy(Lookup(obj, k).value)
  }

  /** `get(obj, names)`: the value of the first alias whose value is truthy. */
  function Get(obj: Json, names: seq<string>): (r: Option<Json>)
    ensures r.None? <==> forall i :: 0 <= i < |names| ==> !TruthyAt(obj, names[i])
    ensures r.Some? ==> exists i :: 0 <= i < |names| && TruthyAt(obj, names[i]) && r == Lookup(obj, names[i])
                          && forall j :: 0 <= j < i ==> !TruthyAt(obj, names[j])
  {
    if names == [] then None
    else if TruthyAt(obj, names[0]) then Lookup(obj, names[0])
    else
      var r := Get(obj, names[1..]);
      assert forall i :: 1 <= i < |names| ==> names[1..][i - 1] == names[i];
      if r.Some? then
        var i :| 0 <= i < |names| - 1 && TruthyAt(obj, names[1..][i]) && r == Lookup(obj, names[1..][i])
                 && forall j :: 0 <= j < i ==> !TruthyAt(obj, names[1..][j]);
        assert forall j :: 0 <= j < i + 1 ==> !TruthyAt(obj, names[j]) by {
          forall j | 0 <= j < i + 1
            ensures !TruthyAt(obj, names[j])
          {
            if j > 0 {
              assert names[j] == names[1..][j - 1];
            }
          }
        }
        r
      else
        r
  }

  const PrefectureKeys := ["prefecture", "都道府県"]
  const CityKeys := ["city", "ward", "区", "市"]
  const TownKeys := ["town", "丁目", "町", "大字", "字"]
  const StreetKeys := ["street", "address1", "line1", "番地"]
  const BuildingKeys := ["building", "address2", "line2"]
  const ZipKeys := ["postalCode", "zip", "zipcode", "郵便", "郵便番号"]

  /** The decimal form of an integer, as `String(n)` writes it. */
  function DecimalNat(n: nat): (r: string)
    ensures AllDigits(r) && r != []
  {
    if n < 10 then [(('0' as int) + n) as char] else DecimalNat(n / 10) + DecimalNat(n % 10)
  }

  function Decimal(n: int): string {
    if n < 0 then "-" + DecimalNat(-n) else DecimalNat(n)
  }

  /** `String(v)` for the values an address part can hold. */
  function Show(v: Json): string
    decreases v, 0
  {
    match v
    case JNull => "null"
    case JBool(b) => if b then "true" else "false"
    case JNum(n) => Decimal(n)
    case JStr(s) => s
    case JObj(_) => "[object Object]"
    case JArr(items) => Join(seq(|items|, k requires 0 <= k < |items| => ShowElement(items[k])), ",")
  }

  /** An array element as `Array.prototype.join` writes it: null becomes empty. */
  function ShowElement(v: Json): string
    decreases v, 1
  {
    if v.JNull? then "" else Show(v)
  }

  /** `[...].filter(Boolean)` over the looked-up parts, written out as strings. */
  function Present(parts: seq<Option<Json>>): (r: seq<string>)
    ensures |r| <= |parts|
    ensures (forall k :: 0 <= k < |parts| ==> parts[k].None?) ==> r == []
    ensures (forall k :: 0 <= k < |parts| ==> parts[k].Some?) ==>
              |r| == |parts| && forall k :: 0 <= k < |parts| ==> r[k] == Show(parts[k].value)
  {
    if parts == [] then []
    else (if parts[0].Some? then [Show(parts[0].value)] else []) + Present(parts[1..])
  }

  /** The filter works part by part: a list of parts keeps what each of its pieces keeps, in
      order, so an absent part is skipped and a found one is written out where it stands. */
  lemma {:induction false} PresentAppend(a: seq<Option<Json>>, b: seq<Option<Json>>)
    ensures Present(a + b) == Present(a) + Present(b)
  {
    if a == [] {
      assert a + b == b;
    } else {
      var head := if a[0].Some? then [Show(a[0].value)] else [];
      assert (a + b)[0] == a[0] && (a + b)[1..] == a[1..] + b;
      assert Present(a + b) == head + Present(a[1..] + b);
      PresentAppend(a[1..], b);
      assert Present(a) == head + Present(a[1..]);
    }
  }

  /** A one-part list: an absent part gives nothing, a found one is written out. */
  lemma PresentOne(o: Option<Json>)
    ensures Present([o]) == if o.Some? then [Show(o.value)] else []
  {
    assert [o][1..] == [];
  }

  /** The five address parts of a record, in order: prefecture, city, town, street, building. */
  function Parts(obj: Json): (r: seq<Option<Json>>)
    ensures |r| == 5
  {
    [Get(obj, PrefectureKeys), Get(obj, CityKeys), Get(obj, TownKeys), Get(obj, StreetKeys), Get(obj, BuildingKeys)]
  }

  /** Whether a record's `address` is a string with content, which is then used alone. */
  predicate HasAddressText(p: Json) {
    var a := Lookup(p, "address");
    a.Some? && a.value.JStr? && Trim(a.value.s) != []
  }

  /** `pickAddressFromProfile()`; `stored` is what `loadJSON("ss_profile")` gave, `None` for
      a missing or unparsable key. */
  function PickFromProfile(stored: Option<Json>): (r: string)
    ensures stored.None? || !Truthy(stored.value) ==> r == ""
    ensures stored.Some? && Truthy(stored.value) && HasAddressText(stored.value)
            ==> r == Trim(Lookup(stored.value, "address").value.s)
    ensures stored.Some? && Truthy(stored.value) && !HasAddressText(stored.value)
            ==> r == Join(Present(Parts(stored.value)), " ")
  {
    if stored.None? || !Truthy(stored.value) then ""
    else
      var p := stored.value;
      var a := Lookup(p, "address");
      if a.Some? && a.value.JStr? && Trim(a.value.s) != [] then Trim(a.value.s)
      else Join(Present(Parts(p)), " ")
  }

  /** A profile without an address text that has prefecture, city, town and street under
      any of their aliases, but no building, shows those four joined by single spaces. */
  lemma ProfileWithoutBuilding(p: Json, pref: string, city: string, town: string, street: string)
    requires p.JObj? && !HasAddressText(p)
    requires Get(p, PrefectureKeys) == Some(JStr(pref)) && Get(p, CityKeys) == Some(JStr(city))
    requires Get(p, TownKeys) == Some(JStr(town)) && Get(p, StreetKeys) == Some(JStr(street))
    requires Get(p, BuildingKeys) == None
    ensures PickFromProfile(Some(p)) == pref + " " + city + " " + town + " " + street
  {
    assert Parts(p) == [Some(JStr(pref)), Some(JStr(city)), Some(JStr(town)), Some(JStr(street)), None];
    FourOfFive(pref, city, town, street);
  }

  /** Four texts found and the fifth part absent: the four joined by single spaces. */
  lemma FourOfFive(a: string, b: string, c: string, d: string)
    ensures Join(Present([Some(JStr(a)), Some(JStr(b)), Some(JStr(c)), Some(JStr(d)), None]), " ")
            == a + " " + b + " " + c + " " + d
  {
    var parts := [Some(JStr(a)), Some(JStr(b)), Some(JStr(c)), Some(JStr(d)), None];
    assert parts == [Some(JStr(a)), Some(JStr(b)), Some(JStr(c)), Some(JStr(d))] + [None];
    PresentAppend([Some(JStr(a)), Some(JStr(b)), Some(JStr(c)), Some(JStr(d))], [None]);
    PresentOne(None);
    var found := Present([Some(JStr(a)), Some(JStr(b)), Some(JStr(c)), Some(JStr(d))]);
    assert found == [a, b, c, d] by {
      assert |found| == 4 && found[0] == a && found[1] == b && found[2] == c && found[3] == d;
    }
    assert Present(parts) == [a, b, c, d] + [];
    assert [a, b, c, d] + [] == [a, b, c, d];
    JoinFour(a, b, c, d, " ");
  }

  lemma JoinFour(a: string, b: string, c: string, d: string, sep: string)
    ensures Join([a, b, c, d], sep) == a + sep + b + sep + c + sep + d
  {
    assert [a, b, c, d][1..] == [b, c, d] && [b, c, d][1..] == [c, d] && [c, d][1..] == [d];
    assert Join([c, d], sep) == c + sep + d;
    assert Join([b, c, d], sep) == b + sep + (c + sep + d);
    assert Join([a, b, c, d], sep) == a + sep + (b + sep + (c + sep + d));
  }

  /** `ss_asset` is read only when `ss_assets` is missing or falsy: a stored `ss_assets`
      record decides the address alone, and without one the address is that of `ss_asset`. */
  lemma AssetsRecordPreferred(assets: Option<Json>, asset: Option<Json>, other: Option<Json>)
    ensures assets.Some? && Truthy(assets.value) ==> PickFromAssets(assets, asset) == PickFromAssets(assets, other)
    ensures assets.None? || !Truthy(assets.value) ==> PickFromAssets(assets, asset) == PickFromAssets(asset, None)
  {
  }

  /** A postal code found under any of its aliases goes in front with the 〒 mark, separated
      from the joined parts by one space. */
  lemma AssetsZipPrefix(a: Json, code: string)
    requires Truthy(a) && Get(AddressObject(a), ZipKeys) == Some(JStr(code))
    ensures var r := PickFromAssets(Some(a), None);
      r[0] == '〒' && r[1..|code| + 1] == code && r[|code| + 1] == ' '
      && r[|code| + 2..] == Join(Present(Parts(AddressObject(a))), " ")
  {
    var joined := Join(Present(Parts(AddressObject(a))), " ");
    assert PickFromAssets(Some(a), None) == "〒" + code + " " + joined;
    PrefixLayout(code, joined);
  }

  lemma PrefixLayout(code: string, joined: string)
    ensures var r := "〒" + code + " " + joined;
      r[0] == '〒' && r[1..|code| + 1] == code && r[|code| + 1] == ' ' && r[|code| + 2..] == joined
  {
  }

  /** The object the assets record keeps its address in: a nested `address` object when
      there is one (arrays count, null does not), otherwise the record itself. */
  function AddressObject(a: Json): Json {
    var nested := Lookup(a, "address");
    if nested.Some? && (nested.value.JObj? || nested.value.JArr?) then nested.value else a
  }

  /** `pickAddressFromAssets()`, reading `ss_assets` and then `ss_asset`. */
  function PickFromAssets(assets: Option<Json>, asset: Option<Json>): (r: string)
    ensures (assets.None? || !Truthy(assets.value)) && (asset.None? || !Truthy(asset.value)) ==> r == ""
  {
    var a := if assets.Some? && Truthy(assets.value) then assets else asset;
    if a.None? || !Truthy(a.value) then ""
    else
      var addr := AddressObject(a.value);
      var joined := Join(Present(Parts(addr)), " ");
      var zip := Get(addr, ZipKeys);
      if zip.Some? then "〒" + Show(zip.value) + " " + joined else joined
  }

  /** `resolveAddress()`: the trimmed profile address when it is not blank, else the assets one. */
  function ResolveAddress(profile: Option<Json>, assets: Option<Json>, asset: Option<Json>): (r: string)
    ensures Trim(PickFromProfile(profile)) != [] ==> r == Trim(PickFromProfile(profile))
    ensures Trim(PickFromProfile(profile)) == [] ==> r == PickFromAssets(assets, asset)
  {
    var fromProfile := PickFromProfile(profile);
    if fromProfile != "" && Trim(fromProfile) != "" then Trim(fromProfile)
    else PickFromAssets(assets, asset)
  }

  /** A profile address is preferred whenever it has non-blank content, and comes out trimmed;
      with nothing stored anywhere the address is empty. */
  lemma ResolvePrefersProfile(profile: Option<Json>, assets: Option<Json>, asset: Option<Json>)
    ensures var r := ResolveAddress(profile, assets, asset);
      && (!IsBlank(PickFromProfile(profile)) ==> r == Trim(PickFromProfile(profile)) && Trim(r) == r)
      && (IsBlank(PickFromProfile(profile)) ==> r == PickFromAssets(assets, asset))
      && (profile.None? && assets.None? && asset.None? ==> r == "")
  {
    TrimEmptyIffBlank(PickFromProfile(profile));
    TrimIdempotent(PickFromProfile(profile));
  }

  datatype ProfileRecord = ProfileRecord(fullName: string, birthday: string, email: string, address: string)
  datatype Account = Account(phone: string, passwordHash: string, createdAt: Option<string>, updatedAt: Option<string>)
  datatype Session = Session(phone: string, loggedInAt: string)

  const MinBirthday := "1900-01-01"
  const BirthdayOutOfRange := "誕生日は1900-01-01〜今日の範囲で入力してください。"
  const PhoneNot11 := "電話番号は11桁で入力してください。"
  const Saved := "保存しました。"

  /** `phoneEdit.replace(/\D/g, "").slice(0, 11)` */
  function PhoneDigits(s: string): (r: string)
    ensures AllDigits(r) && |r| <= 11 && |r| <= |Digits(s)|
    ensures r == Digits(s)[..|r|]
    ensures |r| == 11 <==> |Digits(s)| >= 11
  {
    var d := Digits(s);
    if |d| <= 11 then d else d[..11]
  }

  /** The birthday check: empty is allowed, otherwise it must sort between 1900-01-01 and today. */
  predicate BirthdayOk(birthday: string, todayStr: string) {
    birthday == "" || !(LexLess(birthday, MinBirthday) || LexLess(todayStr, birthday))
  }

  /** `recent`: the last five results, newest first. */
  function Recent<T>(results: seq<T>): (r: seq<T>)
    ensures |r| == if |results| < 5 then |results| else 5
    ensures forall k :: 0 <= k < |r| ==> r[k] == results[|results| - 1 - k]
  {
    var tail := if |results| <= 5 then results else results[|results| - 5..];
    Reverse(tail)
  }

  function Reverse<T>(s: seq<T>): (r: seq<T>)
    ensures |r| == |s| && forall k :: 0 <= k < |s| ==> r[k] == s[|s| - 1 - k]
  {
    if s == [] then [] else Reverse(s[1..]) + [s[0]]
  }

  class HomePage {
    var fullName: string
    var birthday: string
    var email: string
    var address: string
    var phoneEdit: string
    var editMode: bool
    var snapshot: Option<ProfileRecord>
    var msg: Option<string>
    var err: Option<string>
    var sessionPhone: Option<string>
    /** The `ss_profile`, `ss_account` and `ss_session` storage keys. */
    var storedProfile: Option<ProfileRecord>
    var account: Option<Account>
    var session: Option<Session>

    /** `enterEdit()`: remember the fields to come back to. */
    method EnterEdit()
      modifies this
      ensures snapshot == Some(ProfileRecord(fullName, birthday, email, address)) && editMode
      ensures fullName == old(fullName) && birthday == old(birthday) && email == old(email) && address == old(address)
      ensures phoneEdit == old(phoneEdit) && msg == old(msg) && err == old(err) && sessionPhone == old(sessionPhone)
      ensures storedProfile == old(storedProfile) && account == old(account) && session == old(session)
    {
      snapshot := Some(ProfileRecord(fullName, birthday, email, address));
      editMode := true;
    }

    /** `cancelEdit()`: the remembered fields come back, the phone is reloaded from the account
        (or the session), and messages clear. Storage is untouched. */
    method CancelEdit()
      modifies this
      ensures old(snapshot).Some? ==>
                ProfileRecord(fullName, birthday, email, address) == old(snapshot).value
      ensures old(snapshot).None? ==>
                fullName == old(fullName) && birthday == old(birthday) && email == old(email) && address == old(address)
      ensures phoneEdit == if account.Some? then account.value.phone else sessionPhone.GetOr("")
      ensures err == None && msg == None && !editMode && snapshot == old(snapshot)
      ensures storedProfile == old(storedProfile) && account == old(account) && session == old(session)
      ensures sessionPhone == old(sessionPhone)
    {
      if snapshot.Some? {
        var snap := snapshot.value;
        fullName, birthday, email, address := snap.fullName, snap.birthday, snap.email, snap.address;
      }
      phoneEdit := if account.Some? then account.value.phone else sessionPhone.GetOr("");
      err, msg := None, None;
      editMode := false;
    }

    /** `saveAll()`: two checks, then the profile, the account phone and the session phone are
        written. `todayStr` is today as YYYY-MM-DD and `now` the current ISO timestamp. */
    method SaveAll(todayStr: string, now: string)
      modifies this
      ensures fullName == old(fullName) && birthday == old(birthday) && email == old(email)
      ensures address == old(address) && phoneEdit == old(phoneEdit) && snapshot == old(snapshot)
      ensures !BirthdayOk(birthday, todayStr) ==>
                err == Some(BirthdayOutOfRange) && msg == None && editMode == old(editMode)
                && storedProfile == old(storedProfile) && account == old(account) && session == old(session)
                && sessionPhone == old(sessionPhone)
      ensures BirthdayOk(birthday, todayStr) && |PhoneDigits(phoneEdit)| != 11 ==>
                err == Some(PhoneNot11) && msg == None && editMode == old(editMode)
                && storedProfile == old(storedProfile) && account == old(account) && session == old(session)
                && sessionPhone == old(sessionPhone)
      ensures BirthdayOk(birthday, todayStr) && |PhoneDigits(phoneEdit)| == 11 ==>
                var pd := PhoneDigits(phoneEdit);
                && err == None && msg == Some(Saved) && !editMode
                && storedProfile == Some(ProfileRecord(fullName, birthday, email, address))
                && (old(account).Some? ==> account == Some(old(account).value.(phone := pd, updatedAt := Some(now))))
                && (old(account).None? ==> account == Some(Account(pd, "", Some(now), Some(now))))
                && (old(session).Some? ==> session == Some(old(session).value.(phone := pd)) && sessionPhone == Some(pd))
                && (old(session).None? ==> session == None && sessionPhone == old(sessionPhone))
    {
      err, msg := None, None;
      if birthday != "" && (LexLess(birthday, MinBirthday) || LexLess(todayStr, birthday)) {
        err := Some(BirthdayOutOfRange);
        return;
      }
      var phoneDigits := PhoneDigits(phoneEdit);
      if |phoneDigits| != 11 {
        err := Some(PhoneNot11);
        return;
      }
      WriteProfile(phoneDigits, now);
    }

    /** The writes of `saveAll` once both checks pass: the profile, the account phone and,
        with a session, the session phone; then the form leaves edit mode. */
    method WriteProfile(pd: string, now: string)
      modifies this
      ensures fullName == old(fullName) && birthday == old(birthday) && email == old(email)
      ensures address == old(address) && phoneEdit == old(phoneEdit) && snapshot == old(snapshot)
      ensures err == old(err) && msg == Some(Saved) && !editMode
      ensures storedProfile == Some(ProfileRecord(fullName, birthday, email, address))
      ensures old(account).Some? ==> account == Some(old(account).value.(phone := pd, updatedAt := Some(now)))
      ensures old(account).None? ==> account == Some(Account(pd, "", Some(now), Some(now)))
      ensures old(session).Some? ==> session == Some(old(session).value.(phone := pd)) && sessionPhone == Some(pd)
      ensures old(session).None? ==> session == None && sessionPhone == old(sessionPhone)
    {
      var acc := if account.Some? then account.value.(phone := pd, updatedAt := Some(now))
                 else Account(pd, "", Some(now), Some(now));
      var sess, shown := session, sessionPhone;
      if session.Some? {
        sess, shown := Some(session.value.(phone := pd)), Some(pd);
      }
      storedProfile, account, session, sessionPhone := Some(ProfileRecord(fullName, birthday, email, address)), Some(acc), sess, shown;
      editMode, msg := false, Some(Saved);
    }
  }
}
