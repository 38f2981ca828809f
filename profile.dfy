/**
 * profile.php's `update_profile` action: the optional password change with
 * its ordered checks, the two shapes of the users update, and the session
 * name. No statement runs in a transaction. They are numbered in execution
 * order:
 * - 0 reads the user row at the top of the page;
 * - 1 reads the user's orders;
 * - 2 is the update;
 * - 3 refreshes the user row after the update.
 */
module Profile {
  import opened Wrappers
  import opened PhpText
  import opened Storage

  /** A `users` row as far as the profile page touches it. */
  datatype Account = Account(
    id: int, firstName: string, lastName: string, email: string, password: string)

  /** The POST fields; the three passwords are raw, the rest are sanitized
      before use. */
  datatype ProfileRequest = ProfileRequest(
    isPost: bool, action: Option<string>,
    firstName: string, lastName: string, email: string,
    current: string, newPassword: string, confirm: string)

  datatype ProfileOutcome = ProfileOutcome(
    users: seq<Account>, sessionName: string, message: string, error: string)

  function FindAccount(users: seq<Account>, id: int): (r: Option<Account>)
    ensures r.Some? ==> r.value in users && r.value.id == id
    ensures r.None? ==> forall a :: a in users ==> a.id != id
  {
    if users == [] then None
    else if users[0].id == id then Some(users[0])
    else FindAccount(users[1..], id)
  }

  /** The checks of a password change; the first failure throws its message.
      `verified` is password_verify of the current password against the
      stored hash. */
  function PasswordCheck(verified: bool, newPassword: string, confirm: string): (r: Option<string>)
    ensures r == Some("Current password is incorrect") <==> !verified
    ensures r == Some("New password is required") <==> verified && Empty(newPassword)
    ensures r == Some("New passwords do not match") <==>
      verified && !Empty(newPassword) && newPassword != confirm
    ensures r == Some("New password must be at least 8 characters long") <==>
      verified && !Empty(newPassword) && newPassword == confirm && |newPassword| < 8
    ensures r.None? <==> verified && !Empty(newPassword) && newPassword == confirm && |newPassword| >= 8
  {
    if !verified then Some("Current password is incorrect")
    else if Empty(newPassword) then Some("New password is required")
    else if newPassword != confirm then Some("New passwords do not match")
    else if |newPassword| < 8 then Some("New password must be at least 8 characters long")
    else None
  }

  /** The update of the user's row: names and email, and the password hash
      when `hashed` is given (None is the shape without the password). */
  function UpdateAccount(users: seq<Account>, id: int, first: string, last: string,
                         email: string, hashed: Option<string>): (r: seq<Account>)
    ensures |r| == |users|
    ensures forall i :: 0 <= i < |users| && users[i].id != id ==> r[i] == users[i]
    ensures forall i :: 0 <= i < |users| && users[i].id == id ==>
      r[i] == Account(id, first, last, email, hashed.GetOr(users[i].password))
  {
    seq(|users|, i requires 0 <= i < |users| =>
      if users[i].id == id
      then users[i].(firstName := first, lastName := last, email := email,
                     password := if hashed.Some? then hashed.value else users[i].password)
      else users[i])
  }

  /** The page's first try block: a failure of either read leaves this
      message in the error, which nothing clears before the action runs. */
  function ReadError(fault: Fault): (e: string)
    ensures e != "" <==> fault.FailAt? && fault.step <= 1
  {
    if fault.FailAt? && fault.step <= 1 then "Error fetching user data: " + fault.message else ""
  }

  /** The user row the password check sees: none when the first read threw
      (the variable is then unset) or found no row. */
  function StoredAccount(users: seq<Account>, userId: int, fault: Fault): (r: Option<Account>)
    ensures Fails(fault, 0) ==> r.None?
    ensures !Fails(fault, 0) ==> r == FindAccount(users, userId)
  {
    if Fails(fault, 0) then None else FindAccount(users, userId)
  }

  /** The check outcome of a request: no check at all when the current
      password field is empty, otherwise the chain. Without a stored row the
      current password never verifies. */
  function RequestCheck(users: seq<Account>, userId: int, req: ProfileRequest,
                        verify: (string, string) -> bool, fault: Fault): Option<string> {
    if Empty(req.current) then None
    else
      var stored := StoredAccount(users, userId, fault);
      PasswordCheck(stored.Some? && verify(req.current, stored.value.password),
                    req.newPassword, req.confirm)
  }

  /** The page's reads and the action handler (profile.php:16-97).
      `sanitize`, `hash` and `verify` stand for sanitize, password_hash and
      password_verify. */
  function UpdateProfile(users: seq<Account>, userId: int, sessionName: string,
                         req: ProfileRequest, sanitize: string -> string,
                         hash: string -> string, verify: (string, string) -> bool,
                         fault: Fault): (r: ProfileOutcome)
    // any other request changes nothing and shows only a read failure
    ensures !(req.isPost && req.action == Some("update_profile")) ==>
      r == ProfileOutcome(users, sessionName, "", ReadError(fault))
    // a failed check: its message, and no write to the table or the session
    ensures req.isPost && req.action == Some("update_profile") &&
            RequestCheck(users, userId, req, verify, fault).Some? ==>
      r == ProfileOutcome(users, sessionName, "", RequestCheck(users, userId, req, verify, fault).value)
    // the update throws: its message, and no write
    ensures req.isPost && req.action == Some("update_profile") &&
            RequestCheck(users, userId, req, verify, fault).None? && Fails(fault, 2) ==>
      r == ProfileOutcome(users, sessionName, "", fault.message)
    // the update ran: the row, the session name and the message; the error
    // is the refresh's failure, or still the failure of a read before it
    ensures req.isPost && req.action == Some("update_profile") &&
            RequestCheck(users, userId, req, verify, fault).None? && !Fails(fault, 2) ==>
      && r.users == UpdateAccount(users, userId, sanitize(req.firstName), sanitize(req.lastName),
                                  sanitize(req.email),
                                  if Empty(req.current) then None else Some(hash(req.newPassword)))
      && r.sessionName == sanitize(req.firstName) + " " + sanitize(req.lastName)
      && r.message == "Profile updated successfully"
      && r.error == (if Fails(fault, 3) then fault.message else ReadError(fault))
  {
    var readError := if fault.FailAt? && fault.step <= 1 then "Error fetching user data: " + fault.message else "";
    if !(req.isPost && req.action == Some("update_profile")) then
      ProfileOutcome(users, sessionName, "", readError)
    else
      var first, last, email := sanitize(req.firstName), sanitize(req.lastName), sanitize(req.email);
      var check := RequestCheck(users, userId, req, verify, fault);
      if check.Some? then ProfileOutcome(users, sessionName, "", check.value)
      else if Fails(fault, 2) then ProfileOutcome(users, sessionName, "", fault.message)
      else
        var hashed := if Empty(req.current) then None else Some(hash(req.newPassword));
        var updated := UpdateAccount(users, userId, first, last, email, hashed);
        // the refresh query after the message and the session name are set
        ProfileOutcome(updated, first + " " + last, "Profile updated successfully",
                       if Fails(fault, 3) then fault.message else readError)
  }

  /** When the first read throws, every password change is refused as if
      the current password were wrong, and nothing is written. */
  lemma FailedReadRefusesPasswordChange(users: seq<Account>, userId: int, sessionName: string,
                                        req: ProfileRequest, sanitize: string -> string,
                                        hash: string -> string, verify: (string, string) -> bool,
                                        fault: Fault)
    requires Fails(fault, 0)
    requires req.isPost && req.action == Some("update_profile") && !Empty(req.current)
    ensures UpdateProfile(users, userId, sessionName, req, sanitize, hash, verify, fault) ==
      ProfileOutcome(users, sessionName, "", "Current password is incorrect")
  {
  }

  /** Only the signed-in user's row changes, and its password changes only
      through the password branch, to the hash of the new password. */
  lemma ProfileTouchesOwnRow(users: seq<Account>, userId: int, sessionName: string,
                             req: ProfileRequest, sanitize: string -> string,
                             hash: string -> string, verify: (string, string) -> bool,
                             fault: Fault, i: int)
    requires 0 <= i < |users|
    ensures var r := UpdateProfile(users, userId, sessionName, req, sanitize, hash, verify, fault);
            |r.users| == |users| &&
            (users[i].id != userId ==> r.users[i] == users[i]) &&
            (r.users[i].password != users[i].password ==>
               !Empty(req.current) && r.users[i].password == hash(req.newPassword))
  {
  }

  /** A password change needs the stored hash to accept the current
      password, and a new password of at least 8 bytes typed twice. */
  lemma PasswordChangeNeedsProof(users: seq<Account>, userId: int, sessionName: string,
                                 req: ProfileRequest, sanitize: string -> string,
                                 hash: string -> string, verify: (string, string) -> bool,
                                 fault: Fault, i: int)
    requires 0 <= i < |users|
    requires UpdateProfile(users, userId, sessionName, req, sanitize, hash, verify, fault).users[i].password
             != users[i].password
    ensures users[i].id == userId
    ensures !Fails(fault, 0) && FindAccount(users, userId).Some?
    ensures verify(req.current, FindAccount(users, userId).value.password)
    ensures req.newPassword == req.confirm && |req.newPassword| >= 8
  {
  }

  /** With the current-password field empty, nothing is checked and no
      password changes, whatever the other two fields hold. */
  lemma EmptyCurrentKeepsPasswords(users: seq<Account>, userId: int, sessionName: string,
                                   req: ProfileRequest, sanitize: string -> string,
                                   hash: string -> string, verify: (string, string) -> bool,
                                   fault: Fault)
    requires Empty(req.current)
    ensures var r := UpdateProfile(users, userId, sessionName, req, sanitize, hash, verify, fault);
            r.error != "" ==>
              fault.FailAt? &&
              (r.error == fault.message || r.error == "Error fetching user data: " + fault.message)
    ensures var r := UpdateProfile(users, userId, sessionName, req, sanitize, hash, verify, fault);
            |r.users| == |users| && forall i :: 0 <= i < |users| ==> r.users[i].password == users[i].password
  {
  }
}
