/** Two-factor authentication of one user: backup codes kept as one comma-joined string, and e-mail
    codes kept with their time in the column of the TOTP secret. */
module TwoFactor {
  import opened Prelude
  import opened Strings

  /** The columns of user_security. */
  datatype Security = Security(secret: Option<string>, enabled: bool, codes: Option<string>)

  /** What the TOTP library makes of a code. */
  datatype Totp = Matches | Differs | Raises

  datatype Method = ByTotp | ByEmail | ByBackup | Otherwise

  /** A call of the service, with the secrets it draws and the time it reads. */
  datatype Call =
    | SetupTotp(secret: string)
    | VerifyTotpSetup(totp: Totp, drawn: seq<string>)
    | DisableTotp(code: string, totp: Totp)
    | SendEmailCode(drawnCode: string, now: int)
    | VerifyEmailCode(code: string, now: int)
    | Verify2fa(how: Method, code: string, totp: Totp, now: int)
    | RegenerateBackupCodes(totp: Totp, drawn: seq<string>)

  /** The answer of a call that does not raise: the new row, and whether a code was accepted. */
  datatype Reply = Reply(row: Security, accepted: bool)

  /** Python's truth of an optional string. */
  predicate Truthy(s: Option<string>) {
    s.Some? && s.value != ""
  }

  const PREFIX := "email_code:"

  predicate StartsWith(s: string, prefix: string) {
    |prefix| <= |s| && s[..|prefix|] == prefix
  }

  function EmailSecret(code: string, now: int): string {
    PREFIX + code + ":" + Str(now)
  }

  /** list.remove */
  function RemoveFirst(s: seq<string>, x: string): seq<string> {
    if s == [] then [] else if s[0] == x then s[1..] else [s[0]] + RemoveFirst(s[1..], x)
  }

  function BackupList(row: Security): seq<string> {
    if Truthy(row.codes) then Split(row.codes.value, ',') else []
  }

  function UseBackup(row: Security, code: string): Security {
    row.(codes := Some(Join(RemoveFirst(BackupList(row), code), ",")))
  }

  function VerifyEmail(row: Security, code: string, now: int): Result<Reply> {
    if !Truthy(row.secret) || !StartsWith(row.secret.value, PREFIX) then Err(ValueError)
    else
      var parts := Split(row.secret.value, ':');
      if |parts| != 3 then Err(ValueError)
      else
        var timestamp := ParseInt(parts[2]);
        if timestamp.None? then Err(ValueError)
        else if now - timestamp.value > 600 then Err(ValueError)
        else if parts[1] != code then Err(ValueError)
        else Ok(Reply(row.(secret := None), true))
  }

  function Apply(row: Security, call: Call): Result<Reply> {
    match call
    case SetupTotp(secret) => Ok(Reply(row.(secret := Some(secret), enabled := false), false))
    case VerifyTotpSetup(totp, drawn) =>
      if !Truthy(row.secret) || totp != Matches then Err(ValueError)
      else Ok(Reply(row.(enabled := true, codes := Some(Join(drawn, ","))), true))
    case DisableTotp(code, totp) =>
      if !row.enabled then Err(ValueError)
      else if code in BackupList(row) || (Truthy(row.secret) && totp == Matches) then Ok(Reply(Security(None, false, None), true))
      else Err(ValueError)
    case SendEmailCode(code, now) => Ok(Reply(row.(secret := Some(EmailSecret(code, now))), false))
    case VerifyEmailCode(code, now) => VerifyEmail(row, code, now)
    case Verify2fa(how, code, totp, now) =>
      (match how
       case ByTotp =>
         if !Truthy(row.secret) || !row.enabled || totp == Raises then Err(ValueError) else Ok(Reply(row, totp == Matches))
       case ByBackup =>
         if !Truthy(row.codes) then Err(ValueError)
         else if code in BackupList(row) then Ok(Reply(UseBackup(row, code), true))
         else Ok(Reply(row, false))
       case ByEmail => VerifyEmail(row, code, now)
       case Otherwise => Ok(Reply(row, false)))
    case RegenerateBackupCodes(totp, drawn) =>
      if !row.enabled || (Truthy(row.secret) && totp != Matches) then Err(ValueError)
      else Ok(Reply(row.(codes := Some(Join(drawn, ","))), true))
  }

  function Step(row: Security, call: Call): Security {
    var r := Apply(row, call);
    if r.Ok? then r.value.row else row
  }

  // ----- backup codes are conserved -----

  /** secrets.token_hex(4) */
  predicate BackupCode(s: string) {
    |s| == 8 && forall i :: 0 <= i < |s| ==> IsDigit(s[i]) || 'a' <= s[i] <= 'f'
  }

  ghost predicate BackupCodes(codes: seq<string>) {
    forall i :: 0 <= i < |codes| ==> BackupCode(codes[i])
  }

  /** The calls that draw codes draw ten of them. */
  ghost predicate Drawn(call: Call) {
    call.VerifyTotpSetup? || call.RegenerateBackupCodes? ==> |call.drawn| == 10 && BackupCodes(call.drawn)
  }

  predicate IssuesCodes(row: Security, call: Call) {
    (call.VerifyTotpSetup? || call.RegenerateBackupCodes?) && Apply(row, call).Ok?
  }

  predicate AcceptsBackup(row: Security, call: Call) {
    call.Verify2fa? && call.how == ByBackup && Apply(row, call).Ok? && Apply(row, call).value.accepted
  }

  /** The batch that was issued last and the backup codes accepted since. */
  datatype Ledger = Ledger(issued: seq<string>, accepted: seq<string>)

  ghost function Noted(row: Security, ledger: Ledger, call: Call): Ledger {
    if IssuesCodes(row, call) then Ledger(call.drawn, [])
    else if call.DisableTotp? && Apply(row, call).Ok? then Ledger([], [])
    else if AcceptsBackup(row, call) then ledger.(accepted := ledger.accepted + [call.code])
    else ledger
  }

  /** The column holds the codes that are left, and with the accepted ones they make up the batch. */
  ghost predicate Balanced(row: Security, ledger: Ledger, left: seq<string>) {
    && BackupCodes(left) && |ledger.issued| <= 10
    && (row.codes == Some(Join(left, ",")) || (row.codes == None && left == []))
    && multiset(ledger.issued) == multiset(left) + multiset(ledger.accepted)
  }

  lemma JoinOfCodes(codes: seq<string>)
    requires BackupCodes(codes)
    ensures Join(codes, ",") == "" <==> codes == []
    ensures codes != [] ==> Split(Join(codes, ","), ',') == codes
  {
    if codes != [] {
      assert BackupCode(codes[0]);
      forall i | 0 <= i < |codes| ensures ',' !in codes[i] {
        assert BackupCode(codes[i]);
      }
      SplitJoin(codes, ',');
    }
  }

  /** The list that a call reads back is the list of the codes that are left. */
  lemma BackupListIsLeft(row: Security, ledger: Ledger, left: seq<string>)
    requires Balanced(row, ledger, left)
    ensures BackupList(row) == left
  {
    JoinOfCodes(left);
  }

  lemma {:induction false} RemoveFirstBalance(s: seq<string>, x: string)
    requires x in s && BackupCodes(s)
    ensures multiset(RemoveFirst(s, x)) + multiset{x} == multiset(s) && BackupCodes(RemoveFirst(s, x))
  {
    assert s == [s[0]] + s[1..];
    if s[0] != x {
      RemoveFirstBalance(s[1..], x);
    }
  }

  /** The only calls that touch the backup codes. */
  lemma CodesAfter(row: Security, call: Call)
    ensures Step(row, call).codes
         == if IssuesCodes(row, call) then Some(Join(call.drawn, ","))
            else if call.DisableTotp? && Apply(row, call).Ok? then None
            else if AcceptsBackup(row, call) then Some(Join(RemoveFirst(BackupList(row), call.code), ","))
            else row.codes
    ensures AcceptsBackup(row, call) ==> call.code in BackupList(row)
  {
    hide Join, RemoveFirst, BackupList, EmailSecret;
  }

  lemma StepKeepsBalance(row: Security, ledger: Ledger, left: seq<string>, call: Call) returns (next: seq<string>)
    requires Balanced(row, ledger, left) && Drawn(call)
    ensures Balanced(Step(row, call), Noted(row, ledger, call), next)
  {
    BackupListIsLeft(row, ledger, left);
    CodesAfter(row, call);
    hide Join, RemoveFirst, BackupList, Apply, Step, BackupCode;
    if IssuesCodes(row, call) {
      next := call.drawn;
    } else if call.DisableTotp? && Apply(row, call).Ok? {
      next := [];
    } else if AcceptsBackup(row, call) {
      RemoveFirstBalance(left, call.code);
      next := RemoveFirst(left, call.code);
    } else {
      next := left;
    }
  }

  ghost function RunRow(row: Security, calls: seq<Call>): Security {
    if calls == [] then row else Step(RunRow(row, calls[..|calls| - 1]), calls[|calls| - 1])
  }

  ghost function RunLedger(row: Security, calls: seq<Call>): Ledger {
    if calls == [] then Ledger([], [])
    else
      var n := |calls| - 1;
      Noted(RunRow(row, calls[..n]), RunLedger(row, calls[..n]), calls[n])
  }

  /** From a row without codes, after any run: issued = left + accepted. */
  lemma {:induction false} RunIsBalanced(row: Security, calls: seq<Call>) returns (left: seq<string>)
    requires row.codes == None && forall i :: 0 <= i < |calls| ==> Drawn(calls[i])
    ensures Balanced(RunRow(row, calls), RunLedger(row, calls), left)
  {
    if calls == [] {
      left := [];
    } else {
      var n := |calls| - 1;
      var before := RunIsBalanced(row, calls[..n]);
      left := StepKeepsBalance(RunRow(row, calls[..n]), RunLedger(row, calls[..n]), before, calls[n]);
    }
  }

  /** The codes of a batch, read back through the encoding, are those not yet accepted; so each is
      accepted at most as often as it was issued, and ten are accepted at most. */
  lemma BackupCodesAreConserved(row: Security, calls: seq<Call>, code: string)
    requires row.codes == None && forall i :: 0 <= i < |calls| ==> Drawn(calls[i])
    ensures
      var ledger := RunLedger(row, calls);
      && multiset(ledger.issued) == multiset(BackupList(RunRow(row, calls))) + multiset(ledger.accepted)
      && multiset(ledger.accepted)[code] <= multiset(ledger.issued)[code]
      && |ledger.accepted| <= 10
  {
    var left := RunIsBalanced(row, calls);
    var ledger := RunLedger(row, calls);
    BackupListIsLeft(RunRow(row, calls), ledger, left);
    assert |multiset(ledger.issued)| == |ledger.issued| && |multiset(ledger.accepted)| == |ledger.accepted|;
  }

  /** A backup code is accepted exactly if it is one of those left; the empty string never is. */
  lemma BackupAcceptedIff(row: Security, calls: seq<Call>, call: Call)
    requires row.codes == None && forall i :: 0 <= i < |calls| ==> Drawn(calls[i])
    requires call.Verify2fa? && call.how == ByBackup
    ensures AcceptsBackup(RunRow(row, calls), call) <==>
              call.code in multiset(RunLedger(row, calls).issued) - multiset(RunLedger(row, calls).accepted)
    ensures call.code == "" ==> !AcceptsBackup(RunRow(row, calls), call)
  {
    hide RunRow, RunLedger, AcceptsBackup, BackupCodes, Drawn;
    var left := RunIsBalanced(row, calls);
    AcceptsWhatIsLeft(RunRow(row, calls), RunLedger(row, calls), left, call);
    LeftOver(left, RunLedger(row, calls));
  }

  lemma AcceptsWhatIsLeft(row: Security, ledger: Ledger, left: seq<string>, call: Call)
    requires Balanced(row, ledger, left) && call.Verify2fa? && call.how == ByBackup
    ensures AcceptsBackup(row, call) <==> call.code in left
    ensures call.code == "" ==> call.code !in left
  {
    hide Join, Split, UseBackup;
    BackupListIsLeft(row, ledger, left);
    if call.code in left {
      var i :| 0 <= i < |left| && left[i] == call.code;
      assert BackupCode(left[i]);
    }
  }

  // ----- e-mail codes -----

  /** secrets.token_hex(3) */
  predicate EmailCode(s: string) {
    |s| == 6 && forall i :: 0 <= i < |s| ==> IsDigit(s[i]) || 'a' <= s[i] <= 'f'
  }

  lemma {:induction false} NaturalHasNoColon(n: nat)
    ensures ':' !in Natural(n)
  {
  }

  lemma ThreeParts(a: string, b: string, c: string)
    requires ':' !in a && ':' !in b && ':' !in c
    ensures Split(a + [':'] + (b + [':'] + c), ':') == [a, b, c]
  {
    SplitConcat(a, ':', b + [':'] + c);
    SplitConcat(b, ':', c);
    SplitSingle(a, ':');
    SplitSingle(b, ':');
    SplitSingle(c, ':');
  }

  /** The stored string splits back into its three parts. */
  lemma EmailSecretParts(code: string, now: int)
    requires EmailCode(code)
    ensures Split(EmailSecret(code, now), ':') == ["email_code", code, Str(now)]
    ensures StartsWith(EmailSecret(code, now), PREFIX)
  {
    var m: nat := if now < 0 then -now else now;
    NaturalHasNoColon(m);
    assert EmailSecret(code, now) == "email_code" + [':'] + (code + [':'] + Str(now));
    ThreeParts("email_code", code, Str(now));
  }

  /** A pending code is accepted exactly if it is the one sent and at most ten minutes old, and it
      is gone once it has been accepted. */
  lemma EmailAcceptedIff(row: Security, sent: string, at: int, code: string, now: int)
    requires EmailCode(sent) && row.secret == Some(EmailSecret(sent, at))
    ensures VerifyEmail(row, code, now).Ok? <==> code == sent && now - at <= 600
    ensures VerifyEmail(row, code, now).Ok? ==> VerifyEmail(row, code, now).value == Reply(row.(secret := None), true)
  {
    EmailSecretParts(sent, at);
    ParseIntStr(at);
  }

  predicate AcceptsEmail(row: Security, call: Call) {
    (call.VerifyEmailCode? || (call.Verify2fa? && call.how == ByEmail)) && Apply(row, call).Ok?
  }

  ghost function EmailsAccepted(row: Security, calls: seq<Call>): nat {
    if calls == [] then 0
    else
      var n := |calls| - 1;
      EmailsAccepted(row, calls[..n]) + if AcceptsEmail(RunRow(row, calls[..n]), calls[n]) then 1 else 0
  }

  function EmailsSent(calls: seq<Call>): nat {
    if calls == [] then 0
    else EmailsSent(calls[..|calls| - 1]) + if calls[|calls| - 1].SendEmailCode? then 1 else 0
  }

  predicate Pending(row: Security) {
    row.secret.Some? && StartsWith(row.secret.value, PREFIX)
  }

  lemma PendingAfter(row: Security, call: Call)
    requires call.SetupTotp? ==> !StartsWith(call.secret, PREFIX)
    ensures Pending(Step(row, call)) ==> call.SendEmailCode? || Pending(row)
    ensures AcceptsEmail(row, call) ==> Pending(row) && !Pending(Step(row, call)) && !call.SendEmailCode?
  {
    hide Join, Split, RemoveFirst, BackupList, StartsWith, EmailSecret, ParseInt;
  }

  /** Every e-mail sent pays for one accepted code: no code is accepted twice. */
  lemma {:induction false} EmailCodesAreUsedOnce(row: Security, calls: seq<Call>)
    requires !Pending(row)
    requires forall i :: 0 <= i < |calls| && calls[i].SetupTotp? ==> !StartsWith(calls[i].secret, PREFIX)
    ensures EmailsAccepted(row, calls) + (if Pending(RunRow(row, calls)) then 1 else 0) <= EmailsSent(calls)
  {
    if calls != [] {
      var n := |calls| - 1;
      EmailCodesAreUsedOnce(row, calls[..n]);
      PendingAfter(RunRow(row, calls[..n]), calls[n]);
      hide Pending, AcceptsEmail, Step;
    }
  }

  // ----- when the TOTP secret survives -----

  predicate Disables(row: Security, call: Call) {
    call.DisableTotp? && Apply(row, call).Ok?
  }

  /** The TOTP secret set up last, unless it has been disabled since. */
  ghost function Enrolled(row: Security, calls: seq<Call>): Option<string> {
    if calls == [] then row.secret
    else
      var n := |calls| - 1;
      if calls[n].SetupTotp? then Some(calls[n].secret)
      else if Disables(RunRow(row, calls[..n]), calls[n]) then None
      else Enrolled(row, calls[..n])
  }

  /** An e-mail code has been sent since then. */
  ghost predicate Mailed(row: Security, calls: seq<Call>) {
    calls != [] &&
    var n := |calls| - 1;
    var call := calls[n];
    !call.SetupTotp? && !Disables(RunRow(row, calls[..n]), call) && (call.SendEmailCode? || Mailed(row, calls[..n]))
  }

  lemma SecretAfter(row: Security, call: Call)
    ensures
      var after := Step(row, call).secret;
      if call.SetupTotp? then after == Some(call.secret)
      else if Disables(row, call) then after == None
      else if call.SendEmailCode? then after.Some? && StartsWith(after.value, PREFIX)
      else after == row.secret || (Pending(row) && after == None)
  {
    hide Join, Split, RemoveFirst, BackupList, ParseInt, Str;
  }

  ghost predicate PlainSecrets(row: Security, calls: seq<Call>) {
    !Pending(row) && forall i :: 0 <= i < |calls| && calls[i].SetupTotp? ==> !StartsWith(calls[i].secret, PREFIX)
  }

  /** Until an e-mail code is sent the stored secret is the enrolled one; from then on it is a pending
      code or nothing. */
  lemma {:induction false} StoredSecret(row: Security, calls: seq<Call>)
    requires PlainSecrets(row, calls)
    ensures
      var after := RunRow(row, calls);
      if Mailed(row, calls) then Pending(after) || after.secret == None
      else after.secret == Enrolled(row, calls) && !Pending(after)
  {
    if calls != [] {
      var n := |calls| - 1;
      StoredSecret(row, calls[..n]);
      SecretAfter(RunRow(row, calls[..n]), calls[n]);
      hide Step, Disables, StartsWith;
    }
  }

  lemma {:induction false} EnrolledIsPlain(row: Security, calls: seq<Call>)
    requires PlainSecrets(row, calls) && Enrolled(row, calls).Some?
    ensures !StartsWith(Enrolled(row, calls).value, PREFIX)
  {
    if calls != [] {
      var n := |calls| - 1;
      if !calls[n].SetupTotp? {
        EnrolledIsPlain(row, calls[..n]);
      }
    }
  }

  /** Over every run, an enrolled TOTP secret is still the stored one exactly if no e-mail code has been
      sent since it was set up. */
  lemma TotpSurvivesIff(row: Security, calls: seq<Call>)
    requires PlainSecrets(row, calls) && Enrolled(row, calls).Some?
    ensures RunRow(row, calls).secret == Enrolled(row, calls) <==> !Mailed(row, calls)
  {
    StoredSecret(row, calls);
    EnrolledIsPlain(row, calls);
  }

  /** In particular, a code that is sent and accepted leaves two-factor enabled, but no TOTP code is
      accepted any more, however right it is. */
  lemma EmailCodeDisplacesTotp(row: Security, sent: string, at: int, code: string, totp: Totp, now: int)
    requires row.enabled && EmailCode(sent) && row.secret.Some? && !Pending(row)
    ensures
      var calls := [SendEmailCode(sent, at), VerifyEmailCode(sent, at)];
      var after := RunRow(row, calls);
      && after.secret != Enrolled(row, calls) == row.secret
      && after.enabled && Apply(after, Verify2fa(ByTotp, code, totp, now)) == Err(ValueError)
  {
    var calls := [SendEmailCode(sent, at), VerifyEmailCode(sent, at)];
    var pending := Step(row, calls[0]);
    assert calls[..1] == [calls[0]] && calls[..1][..0] == [];
    assert RunRow(row, calls[..1]) == pending;
    assert Enrolled(row, calls[..1]) == row.secret && Mailed(row, calls[..1]);
    EmailAcceptedIff(pending, sent, at, sent, at);
    TotpSurvivesIff(row, calls);
  }

  // ----- which codes the calls accept -----

  ghost predicate HasSecret(row: Security) {
    row.secret.Some? && row.secret.value != ""
  }

  /** After every run a TOTP code is accepted exactly if two-factor is enabled, a secret is stored and the
      library says that the code matches; the call raises exactly if it is not enabled, there is no
      secret, or the library raises; and it never changes the row. */
  lemma TotpAnswers(row: Security, calls: seq<Call>, code: string, totp: Totp, now: int)
    ensures
      var before, call := RunRow(row, calls), Verify2fa(ByTotp, code, totp, now);
      var answer := Apply(before, call);
      && (answer.Ok? && answer.value.accepted <==> before.enabled && HasSecret(before) && totp == Matches)
      && (answer.Ok? && !answer.value.accepted <==> before.enabled && HasSecret(before) && totp == Differs)
      && (answer == Err(ValueError) <==> !before.enabled || !HasSecret(before) || totp == Raises)
      && Step(before, call) == before
  {
    assert totp == Matches || totp == Differs || totp == Raises;
  }

  predicate TurnsOn(row: Security, call: Call) {
    call.VerifyTotpSetup? && Apply(row, call).Ok?
  }

  predicate TurnsOff(row: Security, call: Call) {
    call.SetupTotp? || Disables(row, call)
  }

  lemma EnabledAfter(row: Security, call: Call)
    ensures Step(row, call).enabled == if TurnsOn(row, call) then true else if TurnsOff(row, call) then false else row.enabled
  {
    hide Join, Split, RemoveFirst, BackupList, ParseInt, EmailSecret, StartsWith;
  }

  ghost predicate OffSince(row: Security, calls: seq<Call>, k: nat) {
    exists m :: k <= m < |calls| && TurnsOff(RunRow(row, calls[..m]), calls[m])
  }

  /** A set-up was verified, and not undone since. */
  ghost predicate OnStill(row: Security, calls: seq<Call>) {
    exists k :: 0 <= k < |calls| && TurnsOn(RunRow(row, calls[..k]), calls[k]) && !OffSince(row, calls, k + 1)
  }

  /** Two-factor is enabled exactly if a set-up was verified, or it was enabled to begin with, and since
      then no new set-up was begun and it was not disabled. */
  lemma {:induction false} EnabledIff(row: Security, calls: seq<Call>)
    ensures RunRow(row, calls).enabled <==> (row.enabled && !OffSince(row, calls, 0)) || OnStill(row, calls)
  {
    if calls != [] {
      hide TurnsOn, TurnsOff, Step, OffSince, OnStill;
      var n := |calls| - 1;
      EnabledIff(row, calls[..n]);
      EnabledAfter(RunRow(row, calls[..n]), calls[n]);
      OffOneMore(row, calls, 0);
      OnOneMore(row, calls);
    }
  }

  lemma OnOneMore(row: Security, calls: seq<Call>)
    requires calls != []
    ensures
      var n := |calls| - 1;
      var before := RunRow(row, calls[..n]);
      && (OnStill(row, calls) <==> TurnsOn(before, calls[n]) || (OnStill(row, calls[..n]) && !TurnsOff(before, calls[n])))
      && !(TurnsOn(before, calls[n]) && TurnsOff(before, calls[n]))
  {
    hide RunRow, Apply, OffSince;
    var n := |calls| - 1;
    assert forall k :: 0 <= k < n ==> calls[..n][..k] == calls[..k] && calls[..n][k] == calls[k];
    forall k: nat | k <= n
      ensures OffSince(row, calls, k) <==> OffSince(row, calls[..n], k) || TurnsOff(RunRow(row, calls[..n]), calls[n])
    {
      OffOneMore(row, calls, k);
    }
    NothingAfter(row, calls);
    if OnStill(row, calls[..n]) && !TurnsOff(RunRow(row, calls[..n]), calls[n]) {
      var k :| 0 <= k < n && TurnsOn(RunRow(row, calls[..n][..k]), calls[..n][k]) && !OffSince(row, calls[..n], k + 1);
      assert TurnsOn(RunRow(row, calls[..k]), calls[k]) && !OffSince(row, calls, k + 1);
    }
  }

  lemma NothingAfter(row: Security, calls: seq<Call>)
    ensures !OffSince(row, calls, |calls|)
  {
  }

  lemma OffOneMore(row: Security, calls: seq<Call>, k: nat)
    requires calls != [] && k < |calls|
    ensures
      var n := |calls| - 1;
      OffSince(row, calls, k) <==> OffSince(row, calls[..n], k) || TurnsOff(RunRow(row, calls[..n]), calls[n])
  {
    hide TurnsOff, RunRow;
    var n := |calls| - 1;
    assert forall m :: 0 <= m < n ==> calls[..n][..m] == calls[..m] && calls[..n][m] == calls[m];
    if m :| k <= m < n && TurnsOff(RunRow(row, calls[..n][..m]), calls[..n][m]) {
      assert TurnsOff(RunRow(row, calls[..m]), calls[m]);
    }
  }

  /** Verifying a set-up takes a matching code for a stored secret, and issues the drawn codes. */
  lemma VerifySetupAnswers(row: Security, totp: Totp, drawn: seq<string>)
    requires BackupCodes(drawn)
    ensures
      var call := VerifyTotpSetup(totp, drawn);
      var after := Step(row, call);
      && (Apply(row, call).Ok? <==> HasSecret(row) && totp == Matches)
      && (Apply(row, call).Ok? ==> after.enabled && after.secret == row.secret && BackupList(after) == drawn)
      && (Apply(row, call) == Err(ValueError) || Apply(row, call).Ok?) && (Apply(row, call).Err? ==> after == row)
  {
    JoinOfCodes(drawn);
  }

  /** New backup codes take an enabled two-factor and, as long as a secret is stored, a matching code. */
  lemma RegenerateAnswers(row: Security, totp: Totp, drawn: seq<string>)
    requires BackupCodes(drawn)
    ensures
      var call := RegenerateBackupCodes(totp, drawn);
      var after := Step(row, call);
      && (Apply(row, call).Ok? <==> row.enabled && (HasSecret(row) ==> totp == Matches))
      && (Apply(row, call).Ok? ==> after.enabled && after.secret == row.secret && BackupList(after) == drawn)
      && (Apply(row, call) == Err(ValueError) || Apply(row, call).Ok?) && (Apply(row, call).Err? ==> after == row)
  {
    JoinOfCodes(drawn);
  }

  /** After any run, disabling takes a backup code that is left or a matching code for a stored secret,
      and leaves neither secret nor codes. */
  lemma DisableAnswers(row: Security, calls: seq<Call>, code: string, totp: Totp)
    requires row.codes == None && forall i :: 0 <= i < |calls| ==> Drawn(calls[i])
    ensures
      var before, ledger, call := RunRow(row, calls), RunLedger(row, calls), DisableTotp(code, totp);
      var after := Step(before, call);
      && (Apply(before, call).Ok? <==>
            before.enabled && (code in multiset(ledger.issued) - multiset(ledger.accepted) || (HasSecret(before) && totp == Matches)))
      && (Apply(before, call).Ok? ==> after == Security(None, false, None))
      && (Apply(before, call) == Err(ValueError) || Apply(before, call).Ok?) && (Apply(before, call).Err? ==> after == before)
  {
    hide RunRow, RunLedger, Join, Split;
    var left := RunIsBalanced(row, calls);
    var ledger := RunLedger(row, calls);
    BackupListIsLeft(RunRow(row, calls), ledger, left);
    LeftOver(left, ledger);
  }

  lemma LeftOver(left: seq<string>, ledger: Ledger)
    requires multiset(ledger.issued) == multiset(left) + multiset(ledger.accepted)
    ensures multiset(ledger.issued) - multiset(ledger.accepted) == multiset(left)
    ensures forall code :: code in left <==> code in multiset(left)
  {
  }

  /** What each other call leaves alone. */
  lemma OtherCallsFrame(row: Security, call: Call)
    ensures call.SetupTotp? ==>
      Apply(row, call).Ok? && Step(row, call) == Security(Some(call.secret), false, row.codes)
    ensures call.SendEmailCode? ==>
      Apply(row, call).Ok? && Step(row, call).enabled == row.enabled && Step(row, call).codes == row.codes
    ensures call.VerifyEmailCode? || (call.Verify2fa? && call.how == ByEmail) ==>
      Step(row, call).enabled == row.enabled && Step(row, call).codes == row.codes
    ensures call.Verify2fa? && call.how == ByBackup ==>
      Step(row, call).enabled == row.enabled && Step(row, call).secret == row.secret
    ensures call.Verify2fa? && call.how == Otherwise ==>
      Apply(row, call) == Ok(Reply(row, false))
  {
  }
}
