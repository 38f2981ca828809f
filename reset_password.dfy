/**
 * reset-password.php: the reset-token check, the validation chain on the
 * new password, the update that stores the hash and clears the token, and
 * the page's client-side strength meter.
 */
module ResetPassword {
  import opened Wrappers
  import opened PhpText
  import opened Storage

  /** A `users` row as far as the reset flow touches it; `resetExpires` is a
      timestamp on the clock `now` is read from. */
  datatype User = User(
    id: int, email: string, password: string,
    resetToken: Option<string>, resetExpires: Option<int>)

  /** `$_GET['token']`, and for a POST the two password fields ("" when missing). */
  datatype ResetRequest = ResetRequest(
    isPost: bool, token: Option<string>, password: string, confirm: string)

  datatype ResetOutcome = ResetOutcome(
    validToken: bool, message: string, error: string, users: seq<User>)

  const Success := "Your password has been reset successfully. You can now login with your new password."

  /** Some row holds the token with an expiry later than `now`. */
  predicate TokenValid(users: seq<User>, token: string, now: int) {
    exists i | 0 <= i < |users| ::
      users[i].resetToken == Some(token) && users[i].resetExpires.Some? &&
      users[i].resetExpires.value > now
  }

  /** The validation chain on the two fields; the first failure wins. */
  function CheckNewPassword(password: string, confirm: string): (r: Option<string>)
    ensures r == Some("Please enter both passwords") <==> Empty(password) || Empty(confirm)
    ensures r == Some("Passwords do not match") <==>
      !Empty(password) && !Empty(confirm) && password != confirm
    ensures r == Some("Password must be at least 8 characters long") <==>
      !Empty(password) && password == confirm && |password| < 8
    ensures r.None? <==> !Empty(password) && password == confirm && |password| >= 8
  {
    if Empty(password) || Empty(confirm) then Some("Please enter both passwords")
    else if password != confirm then Some("Passwords do not match")
    else if |password| < 8 then Some("Password must be at least 8 characters long")
    else None
  }

  /** The reset update: every row holding the token gets the new hash and
      loses its token and expiry. */
  function ResetUsers(users: seq<User>, token: string, hashed: string): (r: seq<User>)
    ensures |r| == |users|
    ensures forall i :: 0 <= i < |users| && users[i].resetToken == Some(token) ==>
      r[i] == users[i].(password := hashed, resetToken := None, resetExpires := None)
    ensures forall i :: 0 <= i < |users| && users[i].resetToken != Some(token) ==> r[i] == users[i]
  {
    seq(|users|, i requires 0 <= i < |users| =>
      if users[i].resetToken == Some(token)
      then users[i].(password := hashed, resetToken := None, resetExpires := None)
      else users[i])
  }

  /** The page's server side (reset-password.php:5-67). The token query is
      statement 0 and the update statement 1; `hash` is password_hash. */
  function HandleReset(users: seq<User>, req: ResetRequest, now: int,
                       hash: string -> string, fault: Fault): (r: ResetOutcome)
    // the token is accepted only when the query ran and found an unexpired row
    ensures r.validToken <==>
      req.token.Some? && !Empty(req.token.value) && !Fails(fault, 0) &&
      TokenValid(users, req.token.value, now)
    // the table changes only when a valid-token POST passes every check
    ensures r.users != users ==>
      r.validToken && req.isPost && CheckNewPassword(req.password, req.confirm).None? &&
      !Fails(fault, 1)
    ensures r.validToken && req.isPost && CheckNewPassword(req.password, req.confirm).None? &&
            !Fails(fault, 1) ==>
      r.users == ResetUsers(users, req.token.value, hash(req.password)) &&
      r.message == Success && r.error == ""
    // a failed check reports its own message
    ensures r.validToken && req.isPost && CheckNewPassword(req.password, req.confirm).Some? ==>
      r.error == CheckNewPassword(req.password, req.confirm).value && r.message == ""
    ensures r.validToken && req.isPost && CheckNewPassword(req.password, req.confirm).None? &&
            Fails(fault, 1) ==>
      r.error == "Error resetting password. Please try again."
    // the token problems
    ensures req.token.Some? && !Empty(req.token.value) && Fails(fault, 0) ==>
      r.error == "Error verifying reset token"
    ensures req.token.Some? && !Empty(req.token.value) && !Fails(fault, 0) &&
            !TokenValid(users, req.token.value, now) ==>
      r.error == "Invalid or expired reset link"
  {
    var token := if req.token.Some? then req.token.value else "";
    var checked := !Empty(token);
    var valid := checked && !Fails(fault, 0) && TokenValid(users, token, now);
    var tokenError :=
      if !checked || valid then ""
      else if Fails(fault, 0) then "Error verifying reset token"
      else "Invalid or expired reset link";
    if !(req.isPost && valid) then ResetOutcome(valid, "", tokenError, users)
    else
      var check := CheckNewPassword(req.password, req.confirm);
      if check.Some? then ResetOutcome(valid, "", check.value, users)
      else if Fails(fault, 1) then
        ResetOutcome(valid, "", "Error resetting password. Please try again.", users)
      else ResetOutcome(valid, Success, "", ResetUsers(users, token, hash(req.password)))
  }

  /** A reset link works once: after the update no row carries the token,
      so the same link is rejected at any later time. */
  lemma ResetLinkIsSingleUse(users: seq<User>, token: string, hashed: string, later: int)
    ensures !TokenValid(ResetUsers(users, token, hashed), token, later)
  {
    var r := ResetUsers(users, token, hashed);
    forall i | 0 <= i < |r| ensures r[i].resetToken != Some(token) {
    }
  }

  /** The row that was found gets the new hash; rows with another token or
      none keep every field. */
  lemma ResetChangesOnlyTokenRows(users: seq<User>, req: ResetRequest, now: int,
                                  hash: string -> string, fault: Fault, i: int)
    requires 0 <= i < |users|
    ensures var r := HandleReset(users, req, now, hash, fault);
            |r.users| == |users| &&
            (r.users[i] != users[i] ==>
               req.token.Some? && users[i].resetToken == req.token &&
               r.users[i].password == hash(req.password) && r.users[i].resetToken.None?)
  {
  }

  // ---- the client-side strength meter (reset-password.php:165-196) ----

  predicate IsDigit(ch: char) { '0' <= ch <= '9' }

  predicate IsAsciiLetter(ch: char) { 'a' <= ch <= 'z' || 'A' <= ch <= 'Z' }

  predicate HasDigit(p: string) { exists i | 0 <= i < |p| :: IsDigit(p[i]) }

  predicate HasLetter(p: string) { exists i | 0 <= i < |p| :: IsAsciiLetter(p[i]) }

  /** `/[^A-Za-z0-9]/`: a character that is neither a letter nor a digit. */
  predicate HasSpecial(p: string) {
    exists i | 0 <= i < |p| :: !IsAsciiLetter(p[i]) && !IsDigit(p[i])
  }

  /** The set of criteria a password meets. */
  function Criteria(p: string): set<string> {
    (if |p| >= 8 then {"length"} else {}) + (if HasDigit(p) then {"digit"} else {}) +
    (if HasLetter(p) then {"letter"} else {}) + (if HasSpecial(p) then {"special"} else {})
  }

  /** `checkPasswordStrength`: one increment per criterion met. */
  method CheckPasswordStrength(password: string) returns (strength: int)
    ensures strength == |Criteria(password)|
    ensures 0 <= strength <= 4
  {
    strength := 0;
    if |password| >= 8 {
      strength := strength + 1;
    }
    if exists i | 0 <= i < |password| :: IsDigit(password[i]) {
      strength := strength + 1;
    }
    if exists i | 0 <= i < |password| :: IsAsciiLetter(password[i]) {
      strength := strength + 1;
    }
    if exists i | 0 <= i < |password| :: !IsAsciiLetter(password[i]) && !IsDigit(password[i]) {
      strength := strength + 1;
    }
    CriteriaCount(password);
  }

  /** The four criteria are distinct, so the count is the number of those that hold. */
  lemma CriteriaCount(p: string)
    ensures |Criteria(p)| ==
      (if |p| >= 8 then 1 else 0) + (if HasDigit(p) then 1 else 0) +
      (if HasLetter(p) then 1 else 0) + (if HasSpecial(p) then 1 else 0)
  {
    var a := if |p| >= 8 then {"length"} else {};
    var b := if HasDigit(p) then {"digit"} else {};
    var c := if HasLetter(p) then {"letter"} else {};
    var d := if HasSpecial(p) then {"special"} else {};
    assert "length" != "digit" && "length" != "letter" && "length" != "special";
    assert "digit" != "letter" && "digit" != "special" && "letter" != "special";
    assert |a + b| == |a| + |b|;
    assert |a + b + c| == |a + b| + |c|;
    assert |a + b + c + d| == |a + b + c| + |d|;
  }

  /** The password field's border colour. */
  method StrengthColour(strength: int) returns (color: string)
    ensures color == "green" <==> strength >= 4
    ensures color == "orange" <==> 2 <= strength < 4
    ensures color == "red" <==> strength < 2
  {
    color := "red";
    if strength >= 4 {
      color := "green";
    } else if strength >= 2 {
      color := "orange";
    }
  }

  /** The confirm field's border colour. */
  function ConfirmColour(confirm: string, password: string): (color: string)
    ensures color == "green" <==> confirm == password
    ensures color == "red" <==> confirm != password
  {
    if confirm == password then "green" else "red"
  }

  /** A green password passes the server's checks once it is confirmed. */
  lemma GreenPasswordIsAccepted(p: string)
    requires |Criteria(p)| >= 4
    ensures CheckNewPassword(p, p).None?
  {
    CriteriaCount(p);
  }

  /** The meter and the server disagree: eight lower-case letters are
      accepted by the server but meet only two criteria (orange). */
  lemma AcceptedButOrange()
    ensures CheckNewPassword("abcdefgh", "abcdefgh").None?
    ensures |Criteria("abcdefgh")| == 2
  {
    var p := "abcdefgh";
    assert IsAsciiLetter(p[0]);
    assert !HasDigit(p) by {
      forall i | 0 <= i < |p| ensures !IsDigit(p[i]) {
      }
    }
    assert !HasSpecial(p) by {
      forall i | 0 <= i < |p| ensures IsAsciiLetter(p[i]) {
      }
    }
    CriteriaCount(p);
  }
}
