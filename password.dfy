/**
 * The password change page (src/app/account/password/page.tsx): the strength rule and the
 * submit handler. The hosted password update and the hash are outside the model: the first
 * is an outcome parameter, the second a value the caller supplies.
 */
module Password {
  import opened Wrappers
  import Home
  import Text

  predicate IsLetter(c: char) {
    ('A' <= c <= 'Z') || ('a' <= c <= 'z')
  }

  /** The characters `.` does not match: the JavaScript line terminators. */
  predicate IsLineTerminator(c: char) {
    c == '\n' || c == '\r' || c == '\U{2028}' || c == '\U{2029}'
  }

  /** `(?=.*[class])` at the start of s: some character of the class is reached without
      crossing a line terminator. */
  predicate Lookahead(s: string, inClass: char -> bool) {
    exists i | 0 <= i < |s| :: inClass(s[i]) && forall k | 0 <= k < i :: !IsLineTerminator(s[k])
  }

  /** `/^(?=.*[A-Za-z])(?=.*\d)[A-Za-z\d]{8,}$/.test(s)`, clause by clause. */
  predicate PwRule(s: string) {
    && Lookahead(s, IsLetter)
    && Lookahead(s, Text.IsDigit)
    && |s| >= 8 && forall k | 0 <= k < |s| :: IsLetter(s[k]) || Text.IsDigit(s[k])
  }

  /** The rule in plain words: at least 8 characters, all ASCII letters or digits, with at
      least one letter and at least one digit. */
  predicate Strong(s: string) {
    && |s| >= 8
    && (forall k | 0 <= k < |s| :: IsLetter(s[k]) || Text.IsDigit(s[k]))
    && (exists k | 0 <= k < |s| :: IsLetter(s[k]))
    && (exists k | 0 <= k < |s| :: Text.IsDigit(s[k]))
  }

  lemma PwRuleIsStrong(s: string)
    ensures PwRule(s) <==> Strong(s)
  {
    if Strong(s) {
      var i :| 0 <= i < |s| && IsLetter(s[i]);
      var j :| 0 <= j < |s| && Text.IsDigit(s[j]);
      assert forall k | 0 <= k < i :: !IsLineTerminator(s[k]);
      assert forall k | 0 <= k < j :: !IsLineTerminator(s[k]);
      assert Lookahead(s, IsLetter);
      assert Lookahead(s, Text.IsDigit);
    }
  }

  const Mismatch := "確認用パスワードが一致しません。"
  const TooWeak := "パスワードは8文字以上で英数字を含めてください。"
  const Updated := "パスワードを更新しました。"
  const UpdateFailed := "更新に失敗しました。"

  /** What `supabase.auth.updateUser` did: no error, or an error perhaps carrying a message. */
  datatype UpdateOutcome = UpdateOk | UpdateError(message: Option<string>)

  class PasswordPage {
    var current: string
    var next: string
    var confirm: string
    var msg: Option<string>
    var err: Option<string>
    /** The `ss_account` storage key. */
    var account: Option<Home.Account>

    /** `onSubmit()`. `newHash` is `hashPassword(next)` and `now` the current ISO timestamp. */
    method OnSubmit(outcome: UpdateOutcome, newHash: string, now: string)
      modifies this
      ensures old(next) != old(confirm) ==>
                err == Some(Mismatch) && msg == None && account == old(account)
                && current == old(current) && next == old(next) && confirm == old(confirm)
      ensures old(next) == old(confirm) && !Strong(old(next)) ==>
                err == Some(TooWeak) && msg == None && account == old(account)
                && current == old(current) && next == old(next) && confirm == old(confirm)
      ensures old(next) == old(confirm) && Strong(old(next)) && outcome.UpdateError? ==>
                err == Some(outcome.message.GetOr(UpdateFailed)) && msg == None && account == old(account)
                && current == old(current) && next == old(next) && confirm == old(confirm)
      ensures old(next) == old(confirm) && Strong(old(next)) && outcome.UpdateOk? ==>
                && msg == Some(Updated) && err == None
                && current == "" && next == "" && confirm == ""
                && (old(account).None? ==> account == None)
                && (old(account).Some? ==>
                      account == Some(old(account).value.(passwordHash := newHash, updatedAt := Some(now))))
    {
      msg, err := None, None;
      if next != confirm {
        err := Some(Mismatch);
        return;
      }
      PwRuleIsStrong(next);
      if !PwRule(next) {
        err := Some(TooWeak);
        return;
      }
      if outcome.UpdateError? {
        err := Some(outcome.message.GetOr(UpdateFailed));
        return;
      }
      if account.Some? {
        account := Some(account.value.(passwordHash := newHash, updatedAt := Some(now)));
      }
      msg := Some(Updated);
      current, next, confirm := "", "", "";
    }
  }
}
