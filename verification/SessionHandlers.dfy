/** The handlers of login, refresh and logout, statement by statement inside the unit of work. */
module SessionHandlers {
  import opened Prelude
  import opened Sessions
  import opened Denylist

  /** A database session: changes are made in `working` and become durable with a commit. */
  class UnitOfWork {
    var committed: Table
    var working: Table
    var done: bool

    constructor ()
      ensures committed == working == []
    {
      committed, working, done := [], [], false;
    }

    method Enter()
      modifies `done
      ensures !done
    {
      done := false;
    }

    method Commit(raises: bool) returns (r: Result<()>)
      modifies `committed, `done
      ensures r == if raises then Err(IntegrityError) else Ok(())
      ensures committed == (if raises then old(committed) else working) && done == (!raises || old(done))
    {
      if raises {
        return Err(IntegrityError);
      }
      committed := working;
      done := true;
      return Ok(());
    }

    method Rollback()
      modifies `working
      ensures working == committed
    {
      working := committed;
    }

    /** Leaving the block undoes whatever was not committed, with or without an exception. */
    method Exit(raised: bool)
      modifies `working
      ensures working == if raised || !done then committed else old(working)
    {
      if raised || !done {
        Rollback();
      }
    }
  }

  datatype Answer = Issued(token: Token) | Done | Refused(why: Refusal) | Raised

  class Handlers {
    const db: UnitOfWork
    const revocation: TokenRevocationService
    const life: int

    constructor (db: UnitOfWork, revocation: TokenRevocationService, life: int)
      ensures this.db == db && this.revocation == revocation && this.life == life
    {
      this.db, this.revocation, this.life := db, revocation, life;
    }

    /** merge: a row with this id is overwritten, a row without one is added. */
    method Save(id: Option<nat>, session: Session, raises: bool) returns (r: Result<()>)
      modifies db`working
      ensures r == if raises then Err(IntegrityError) else Ok(())
      ensures db.working
           == if raises then old(db.working)
              else if id.Some? && id.value < |old(db.working)| then old(db.working)[id.value := session]
              else old(db.working) + [session]
    {
      if raises {
        return Err(IntegrityError);
      }
      if id.Some? && id.value < |db.working| {
        db.working := db.working[id.value := session];
      } else {
        db.working := db.working + [session];
      }
      return Ok(());
    }

    method RevokeByUserId(user: int)
      modifies db`working
      ensures db.working == RevokedAll(old(db.working), user)
    {
      var rows := db.working;
      db.working := seq(|rows|, i requires 0 <= i < |rows| => if rows[i].user == user then rows[i].(revoked := true) else rows[i]);
      assert db.working == RevokedAll(rows, user);
    }

    // Each handler is told at which of its statements an exception strikes, if at all. What it then
    // leaves behind is what it found.

    method Login(user: int, now: int, raiseAt: Option<nat>) returns (answer: Answer)
      requires db.working == db.committed
      modifies db
      ensures db.working == db.committed == Step(life, old(db.committed), Event.Login(user, now, raiseAt.None?))
      ensures answer == if raiseAt.Some? then Raised else Issued(Token(|old(db.committed)|, user))
    {
      db.Enter();
      var session := NewSession(db.working, user, now + life);
      var saved := Save(None, session, raiseAt == Some(0));
      if saved.Err? {
        db.Exit(true);
        return Raised;
      }
      var committed := db.Commit(raiseAt.Some?);
      db.Exit(committed.Err?);
      return if committed.Err? then Raised else Issued(session.token);
    }

    method Refresh(token: Token, decodes: bool, now: int, raiseAt: Option<nat>) returns (answer: Answer)
      requires db.working == db.committed
      modifies db
      ensures db.working == db.committed == Step(life, old(db.committed), Event.Refresh(token, decodes, now, raiseAt.None?))
      ensures
        var admission := Admit(old(db.committed), token, decodes, now);
        match admission
        case Denied(why) => answer == Refused(why)
        case Admitted(i) =>
          answer == if raiseAt.Some? then Raised else Issued(Token(|old(db.committed)|, old(db.committed)[i].user))
    {
      var found := FindToken(db.working, token);
      if found.None? {
        return Refused(Unknown);
      }
      var stored := db.working[found.value];
      if stored.revoked {
        return Refused(Revoked);
      }
      if stored.expires < now {
        return Refused(Expired);
      }
      if !decodes {
        return Refused(Undecodable);
      }
      if token.sub != stored.user {
        return Refused(NotTheOwner);
      }
      db.Enter();
      stored := stored.(revoked := true);
      var saved := Save(found, stored, raiseAt == Some(0));
      if saved.Err? {
        db.Exit(true);
        return Raised;
      }
      var renewed := NewSession(db.working, stored.user, now + life);
      saved := Save(None, renewed, raiseAt == Some(1));
      if saved.Err? {
        db.Exit(true);
        return Raised;
      }
      var committed := db.Commit(raiseAt.Some?);
      db.Exit(committed.Err?);
      return if committed.Err? then Raised else Issued(renewed.token);
    }

    /** The denylist is not part of the transaction: once it is written, a failing commit leaves the
        access token denied and the sessions as they were. */
    method Logout(user: int, claims: Option<Claims>, now: real, setAt: real, raiseAt: Option<nat>) returns (answer: Answer)
      requires db.working == db.committed
      modifies db, revocation
      ensures db.working == db.committed == Step(life, old(db.committed), Event.Logout(user, raiseAt.None?))
      ensures revocation.denied
           == if raiseAt == Some(0) then old(revocation.denied) else WithRevoked(old(revocation.denied), Revocation(claims, now, setAt))
      ensures answer == if raiseAt.Some? then Raised else Done
    {
      db.Enter();
      RevokeByUserId(user);
      if raiseAt == Some(0) {
        db.Exit(true);
        return Raised;
      }
      revocation.RevokeAccessToken(claims, now, setAt);
      var committed := db.Commit(raiseAt.Some?);
      db.Exit(committed.Err?);
      return if committed.Err? then Raised else Done;
    }
  }
}
