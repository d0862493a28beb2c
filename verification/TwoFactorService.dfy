/** The two-factor service over the stored row of one user. */
module TwoFactorService {
  import opened Prelude
  import opened Strings
  import opened TwoFactor

  class Service {
    /** None if there is no such user or the user has no security row. */
    var stored: Option<Security>

    constructor (stored: Option<Security>)
      ensures this.stored == stored
    {
      this.stored := stored;
    }

    /** The stored row and the answer are those of the specification; without a row the call raises. */
    ghost predicate Answers(before: Option<Security>, call: Call, r: Result<bool>)
      reads this
    {
      match before
      case None => r == Err(ValueError) && stored == None
      case Some(row) =>
        stored == Some(Step(row, call)) && r.Ok? == Apply(row, call).Ok?
        && (r.Ok? ==> r.value == Apply(row, call).value.accepted) && (r.Err? ==> r.error == ValueError)
    }

    method SetupTotp(secret: string) returns (r: Result<bool>)
      modifies this
      ensures Answers(old(stored), Call.SetupTotp(secret), r)
    {
      if stored.None? {
        return Err(ValueError);
      }
      stored := Some(stored.value.(secret := Some(secret), enabled := false));
      return Ok(false);
    }

    method VerifyTotpSetup(totp: Totp, drawn: seq<string>) returns (r: Result<bool>)
      modifies this
      ensures Answers(old(stored), Call.VerifyTotpSetup(totp, drawn), r)
    {
      if stored.None? || !Truthy(stored.value.secret) {
        return Err(ValueError);
      }
      if totp != Matches {
        return Err(ValueError);
      }
      stored := Some(stored.value.(enabled := true, codes := Some(Join(drawn, ","))));
      return Ok(true);
    }

    method DisableTotp(code: string, totp: Totp) returns (r: Result<bool>)
      modifies this
      ensures Answers(old(stored), Call.DisableTotp(code, totp), r)
    {
      if stored.None? || !stored.value.enabled {
        return Err(ValueError);
      }
      var security := stored.value;
      var verified := false;
      if Truthy(security.codes) {
        var backupCodes := Split(security.codes.value, ',');
        if code in backupCodes {
          backupCodes := RemoveFirst(backupCodes, code);
          security := security.(codes := Some(Join(backupCodes, ",")));
          verified := true;
        }
      }
      if !verified && Truthy(security.secret) {
        verified := totp == Matches;
      }
      if !verified {
        return Err(ValueError);
      }
      security := security.(enabled := false, secret := None, codes := None);
      stored := Some(security);
      return Ok(true);
    }

    method SendEmailCode(drawn: string, now: int) returns (r: Result<bool>)
      modifies this
      ensures Answers(old(stored), Call.SendEmailCode(drawn, now), r)
    {
      if stored.None? {
        return Err(ValueError);
      }
      stored := Some(stored.value.(secret := Some(PREFIX + drawn + ":" + Str(now))));
      return Ok(false);
    }

    method VerifyEmailCode(code: string, now: int) returns (r: Result<bool>)
      modifies this
      ensures Answers(old(stored), Call.VerifyEmailCode(code, now), r)
    {
      if stored.None? {
        return Err(ValueError);
      }
      var secret := stored.value.secret;
      if !Truthy(secret) || !StartsWith(secret.value, PREFIX) {
        return Err(ValueError);
      }
      var parts := Split(secret.value, ':');
      if |parts| != 3 {
        return Err(ValueError);
      }
      var timestamp := ParseInt(parts[2]);
      if timestamp.None? || now - timestamp.value > 600 || parts[1] != code {
        return Err(ValueError);
      }
      stored := Some(stored.value.(secret := None));
      return Ok(true);
    }

    method Verify2faCode(how: Method, code: string, totp: Totp, now: int) returns (r: Result<bool>)
      modifies this
      ensures Answers(old(stored), Call.Verify2fa(how, code, totp, now), r)
    {
      if stored.None? {
        return Err(ValueError);
      }
      var security := stored.value;
      match how {
        case ByTotp =>
          if !Truthy(security.secret) || !security.enabled || totp == Raises {
            return Err(ValueError);
          }
          return Ok(totp == Matches);
        case ByBackup =>
          if !Truthy(security.codes) {
            return Err(ValueError);
          }
          var backupCodes := Split(security.codes.value, ',');
          if code in backupCodes {
            backupCodes := RemoveFirst(backupCodes, code);
            stored := Some(security.(codes := Some(Join(backupCodes, ","))));
            return Ok(true);
          }
          return Ok(false);
        case ByEmail =>
          r := VerifyEmailCode(code, now);
        case Otherwise =>
          return Ok(false);
      }
    }

    method RegenerateBackupCodes(totp: Totp, drawn: seq<string>) returns (r: Result<bool>)
      modifies this
      ensures Answers(old(stored), Call.RegenerateBackupCodes(totp, drawn), r)
    {
      if stored.None? || !stored.value.enabled {
        return Err(ValueError);
      }
      if Truthy(stored.value.secret) && totp != Matches {
        return Err(ValueError);
      }
      stored := Some(stored.value.(codes := Some(Join(drawn, ","))));
      return Ok(true);
    }
  }
}
