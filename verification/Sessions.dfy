/** Login sessions: rotation of refresh tokens, logout, and the unit of work around them. */
module Sessions {
  import opened Prelude

  /** A refresh token; the code stores its hash, which stands for the token itself. */
  datatype Token = Token(serial: nat, sub: int)

  /** A row of user_sessions. Its place in the table is its id. */
  datatype Session = Session(user: int, token: Token, expires: int, revoked: bool)

  type Table = seq<Session>

  /** What a client asks for. `completes` is false if an exception stops the handler before its
      commit has succeeded. */
  datatype Event =
    | Login(user: int, now: int, completes: bool)
    | Refresh(token: Token, decodes: bool, now: int, completes: bool)
    | Logout(user: int, completes: bool)

  datatype Refusal = Unknown | Revoked | Expired | Undecodable | NotTheOwner

  datatype Admission = Admitted(row: nat) | Denied(why: Refusal)

  function FindToken(rows: Table, token: Token): (r: Option<nat>)
    ensures r.Some? ==> r.value < |rows| && rows[r.value].token == token
    ensures r.None? ==> forall i :: 0 <= i < |rows| ==> rows[i].token != token
  {
    if rows == [] then None
    else if rows[|rows| - 1].token == token then Some(|rows| - 1)
    else FindToken(rows[..|rows| - 1], token)
  }

  /** A new token is one that no row holds. */
  function NewSession(rows: Table, user: int, expires: int): Session {
    Session(user, Token(|rows|, user), expires, false)
  }

  /** The checks of the refresh handler, in their order. */
  function Admit(rows: Table, token: Token, decodes: bool, now: int): (r: Admission)
    ensures r.Admitted? ==> r.row < |rows| && !rows[r.row].revoked && rows[r.row].token == token
  {
    match FindToken(rows, token)
    case None => Denied(Unknown)
    case Some(i) =>
      if rows[i].revoked then Denied(Revoked)
      else if rows[i].expires < now then Denied(Expired)
      else if !decodes then Denied(Undecodable)
      else if token.sub != rows[i].user then Denied(NotTheOwner)
      else Admitted(i)
  }

  function Rotated(rows: Table, i: nat, expires: int): Table
    requires i < |rows|
  {
    rows[i := rows[i].(revoked := true)] + [NewSession(rows, rows[i].user, expires)]
  }

  function RevokedAll(rows: Table, user: int): Table {
    seq(|rows|, i requires 0 <= i < |rows| => if rows[i].user == user then rows[i].(revoked := true) else rows[i])
  }

  /** The committed table after one request; `life` is the lifetime of a refresh token. */
  function Step(life: int, rows: Table, e: Event): Table {
    if !e.completes then rows
    else
      match e
      case Login(user, now, _) => rows + [NewSession(rows, user, now + life)]
      case Refresh(token, decodes, now, _) =>
        var admission := Admit(rows, token, decodes, now);
        if admission.Admitted? then Rotated(rows, admission.row, now + life) else rows
      case Logout(user, _) => RevokedAll(rows, user)
  }

  function Run(life: int, events: seq<Event>): Table {
    if events == [] then [] else Step(life, Run(life, events[..|events| - 1]), events[|events| - 1])
  }

  /** The request is answered with a new pair of tokens. */
  predicate Refreshes(rows: Table, e: Event) {
    e.Refresh? && e.completes && Admit(rows, e.token, e.decodes, e.now).Admitted?
  }

  // ----- tokens are told apart -----

  ghost predicate Numbered(rows: Table) {
    forall i :: 0 <= i < |rows| ==> rows[i].token == Token(i, rows[i].user)
  }

  lemma {:induction false} FindTokenIs(rows: Table, token: Token)
    requires Numbered(rows)
    ensures FindToken(rows, token)
         == if token.serial < |rows| && rows[token.serial].user == token.sub then Some(token.serial) else None
  {
    if rows != [] {
      FindTokenIs(rows[..|rows| - 1], token);
    }
  }

  lemma AdmitIs(rows: Table, token: Token, decodes: bool, now: int)
    requires Numbered(rows)
    ensures Admit(rows, token, decodes, now).Admitted? <==>
              token.serial < |rows| && rows[token.serial].token == token && !rows[token.serial].revoked
              && now <= rows[token.serial].expires && decodes
    ensures Admit(rows, token, decodes, now).Admitted? ==> Admit(rows, token, decodes, now).row == token.serial
  {
    FindTokenIs(rows, token);
  }

  lemma {:induction false} RunIsNumbered(life: int, events: seq<Event>)
    ensures Numbered(Run(life, events))
  {
    if events != [] {
      var before := Run(life, events[..|events| - 1]);
      RunIsNumbered(life, events[..|events| - 1]);
      var e := events[|events| - 1];
      if e.Refresh? {
        AdmitIs(before, e.token, e.decodes, e.now);
      }
    }
  }

  // ----- a token refreshes once, and not after a logout -----

  /** Rows stay, and a revoked one stays revoked. */
  ghost predicate Grown(before: Table, after: Table) {
    && |before| <= |after|
    && forall i :: 0 <= i < |before| ==>
         after[i].token == before[i].token && after[i].user == before[i].user && (before[i].revoked ==> after[i].revoked)
  }

  lemma {:induction false} RunGrows(life: int, events: seq<Event>, n: nat)
    requires n <= |events|
    ensures Grown(Run(life, events[..n]), Run(life, events))
  {
    if n < |events| {
      var last := |events| - 1;
      RunGrows(life, events[..last], n);
      assert events[..last][..n] == events[..n];
    } else {
      assert events[..n] == events;
    }
  }

  /** No two requests of a run are both answered for the same token. */
  lemma RefreshesOnce(life: int, events: seq<Event>, i: nat, j: nat)
    requires i < j < |events| && events[i].Refresh? && events[j].Refresh? && events[i].token == events[j].token
    requires Refreshes(Run(life, events[..i]), events[i])
    ensures !Refreshes(Run(life, events[..j]), events[j])
  {
    var before, token := Run(life, events[..i]), events[i].token;
    RunIsNumbered(life, events[..i]);
    RunIsNumbered(life, events[..j]);
    AdmitIs(before, token, events[i].decodes, events[i].now);
    assert events[..i + 1][..i] == events[..i];
    assert Run(life, events[..i + 1])[token.serial].revoked;
    RunGrows(life, events[..j], i + 1);
    assert events[..j][..i + 1] == events[..i + 1];
    AdmitIs(Run(life, events[..j]), token, events[j].decodes, events[j].now);
  }

  /** A token issued before its owner's logout is never accepted after it. */
  lemma NeverAfterLogout(life: int, events: seq<Event>, i: nat, j: nat)
    requires i < j < |events| && events[i].Logout? && events[i].completes && events[j].Refresh?
    requires
      var issued := Run(life, events[..i]);
      events[j].token.serial < |issued| && issued[events[j].token.serial].user == events[i].user
    ensures !Refreshes(Run(life, events[..j]), events[j])
  {
    var token := events[j].token;
    assert events[..i + 1][..i] == events[..i];
    assert Run(life, events[..i + 1])[token.serial].revoked;
    RunGrows(life, events[..j], i + 1);
    assert events[..j][..i + 1] == events[..i + 1];
    RunIsNumbered(life, events[..j]);
    AdmitIs(Run(life, events[..j]), token, events[j].decodes, events[j].now);
  }

  /** Every session comes from one completed request: a login of its user, or a refresh of a token of
      its user. */
  lemma {:induction false} SessionHasSource(life: int, events: seq<Event>, k: nat) returns (i: nat)
    requires k < |Run(life, events)|
    ensures i < |events| && events[i].completes && |Run(life, events[..i])| == k && !events[i].Logout?
    ensures
      var session, e := Run(life, events)[k], events[i];
      && session.expires == e.now + life
      && (e.Login? ==> session.user == e.user)
      && (e.Refresh? ==> Refreshes(Run(life, events[..i]), e) && session.user == e.token.sub)
  {
    var n := |events| - 1;
    var rows := Run(life, events[..n]);
    RunIsNumbered(life, events[..n]);
    if events[n].Refresh? {
      AdmitIs(rows, events[n].token, events[n].decodes, events[n].now);
    }
    if k < |rows| {
      i := SessionHasSource(life, events[..n], k);
      assert events[..n][..i] == events[..i];
    } else {
      i := n;
    }
  }

  /** A refresh is answered exactly if the token is one that was issued and not yet rotated or revoked,
      its lifetime is not over and it decodes. */
  lemma AcceptedIff(life: int, events: seq<Event>, token: Token, decodes: bool, now: int)
    ensures
      var rows := Run(life, events);
      Refreshes(rows, Refresh(token, decodes, now, true))
      <==> token.serial < |rows| && rows[token.serial].token == token && !rows[token.serial].revoked
           && now <= rows[token.serial].expires && decodes
  {
    RunIsNumbered(life, events);
    AdmitIs(Run(life, events), token, decodes, now);
  }

  /** Why a refresh is refused, by the first of the checks that fails; a token that was issued always
      belongs to its session's owner. */
  lemma RefusedBecause(life: int, events: seq<Event>, token: Token, decodes: bool, now: int)
    ensures
      var rows := Run(life, events);
      var issued := token.serial < |rows| && rows[token.serial].token == token;
      match Admit(rows, token, decodes, now)
      case Denied(Unknown) => !issued
      case Denied(Revoked) => issued && rows[token.serial].revoked
      case Denied(Expired) => issued && !rows[token.serial].revoked && rows[token.serial].expires < now
      case Denied(Undecodable) => issued && !rows[token.serial].revoked && now <= rows[token.serial].expires && !decodes
      case Denied(NotTheOwner) => false
      case Admitted(_) => issued
  {
    RunIsNumbered(life, events);
    FindTokenIs(Run(life, events), token);
  }

  /** A session is revoked only by a refresh of its token or by a logout of its user after it began. */
  lemma {:induction false} RevokedHasCause(life: int, events: seq<Event>, k: nat) returns (j: nat)
    requires k < |Run(life, events)| && Run(life, events)[k].revoked
    ensures j < |events| && events[j].completes && k < |Run(life, events[..j])|
    ensures
      || (events[j].Refresh? && events[j].token.serial == k && Refreshes(Run(life, events[..j]), events[j]))
      || (events[j].Logout? && events[j].user == Run(life, events)[k].user)
  {
    var n := |events| - 1;
    var rows, e := Run(life, events[..n]), events[n];
    RunIsNumbered(life, events[..n]);
    if e.Refresh? {
      AdmitIs(rows, e.token, e.decodes, e.now);
    }
    if k < |rows| && rows[k].revoked {
      j := RevokedHasCause(life, events[..n], k);
      assert events[..n][..j] == events[..j];
    } else {
      j := n;
    }
  }

  // ----- chains -----

  /** The session with this id is succeeded by a new one: it is the last of its chain. */
  ghost function Extended(chains: seq<seq<nat>>, id: nat, next: nat): seq<seq<nat>> {
    seq(|chains|, c requires 0 <= c < |chains| =>
      if chains[c] != [] && chains[c][|chains[c]| - 1] == id then chains[c] + [next] else chains[c])
  }

  /** Every login starts a chain; every rotation lengthens the chain of the token it was asked for. */
  ghost function Chains(life: int, events: seq<Event>): seq<seq<nat>> {
    if events == [] then []
    else Lengthened(Chains(life, events[..|events| - 1]), Run(life, events[..|events| - 1]), events[|events| - 1])
  }

  ghost function Lengthened(chains: seq<seq<nat>>, rows: Table, e: Event): seq<seq<nat>> {
    if e.Login? && e.completes then chains + [[|rows|]]
    else if Refreshes(rows, e) then Extended(chains, Admit(rows, e.token, e.decodes, e.now).row, |rows|)
    else chains
  }

  ghost predicate Holds(rows: Table, chains: seq<seq<nat>>) {
    && Covers(|rows|, chains) && Disjoint(chains) && TailsOnly(rows, chains)
  }

  /** Every session is in a chain, and chains are not empty. */
  ghost predicate Covers(n: nat, chains: seq<seq<nat>>) {
    && (forall c :: 0 <= c < |chains| ==> chains[c] != [] && forall k :: 0 <= k < |chains[c]| ==> chains[c][k] < n)
    && (forall i: nat :: i < n ==> InSome(chains, i))
  }

  ghost predicate InSome(chains: seq<seq<nat>>, i: nat) {
    exists c :: 0 <= c < |chains| && i in chains[c]
  }

  /** No session is in two chains, or twice in one. */
  ghost predicate Disjoint(chains: seq<seq<nat>>) {
    && (forall c, d, i :: 0 <= c < d < |chains| && i in chains[c] ==> i !in chains[d])
    && (forall c :: 0 <= c < |chains| ==> NoDup(chains[c]))
  }

  /** A chain belongs to one user, and only its last session may be unrevoked. */
  ghost predicate TailsOnly(rows: Table, chains: seq<seq<nat>>)
    requires Covers(|rows|, chains)
  {
    forall c, k :: 0 <= c < |chains| && 0 <= k < |chains[c]| ==>
      && rows[chains[c][k]].user == rows[chains[c][0]].user
      && (k < |chains[c]| - 1 ==> rows[chains[c][k]].revoked)
  }

  lemma LoginKeepsChains(rows: Table, chains: seq<seq<nat>>, session: Session)
    requires Holds(rows, chains)
    ensures Holds(rows + [session], chains + [[|rows|]])
  {
    var more := chains + [[|rows|]];
    forall i: nat | i < |rows| + 1 ensures InSome(more, i) {
      if i < |rows| {
        assert InSome(chains, i);
        var c :| 0 <= c < |chains| && i in chains[c];
        assert i in more[c];
      } else {
        assert i in more[|chains|];
      }
    }
  }

  /** An unrevoked session is the last of the one chain it is in. */
  lemma UnrevokedIsTail(rows: Table, chains: seq<seq<nat>>, i: nat) returns (c: nat)
    requires Holds(rows, chains) && i < |rows| && !rows[i].revoked
    ensures c < |chains| && chains[c] != [] && chains[c][|chains[c]| - 1] == i
    ensures forall d :: 0 <= d < |chains| && i in chains[d] ==> d == c
  {
    assert InSome(chains, i);
    c :| 0 <= c < |chains| && i in chains[c];
    var k :| 0 <= k < |chains[c]| && chains[c][k] == i;
  }

  lemma RotationKeepsChains(rows: Table, chains: seq<seq<nat>>, i: nat, expires: int)
    requires Holds(rows, chains) && i < |rows| && !rows[i].revoked
    ensures Holds(Rotated(rows, i, expires), Extended(chains, i, |rows|))
  {
    var more, next := Extended(chains, i, |rows|), Rotated(rows, i, expires);
    var tail := UnrevokedIsTail(rows, chains, i);
    assert forall c :: 0 <= c < |chains| ==> more[c] == if c == tail then chains[c] + [|rows|] else chains[c];
    hide Extended;
    LengthenedCovers(|rows|, chains, more, tail);
    LengthenedDisjoint(|rows|, chains, more, tail);
  }

  ghost predicate LengthenedAt(chains: seq<seq<nat>>, more: seq<seq<nat>>, tail: nat, id: nat) {
    && |more| == |chains| && tail < |chains|
    && forall c :: 0 <= c < |chains| ==> more[c] == if c == tail then chains[c] + [id] else chains[c]
  }

  lemma LengthenedCovers(n: nat, chains: seq<seq<nat>>, more: seq<seq<nat>>, tail: nat)
    requires Covers(n, chains) && LengthenedAt(chains, more, tail, n)
    ensures Covers(n + 1, more)
  {
    forall j: nat | j < n + 1 ensures InSome(more, j) {
      if j < n {
        assert InSome(chains, j);
        var c :| 0 <= c < |chains| && j in chains[c];
        assert j in more[c];
      } else {
        assert j in more[tail];
      }
    }
  }

  lemma LengthenedDisjoint(n: nat, chains: seq<seq<nat>>, more: seq<seq<nat>>, tail: nat)
    requires Covers(n, chains) && Disjoint(chains) && LengthenedAt(chains, more, tail, n)
    ensures Disjoint(more)
  {
    assert forall c :: 0 <= c < |chains| ==> n !in chains[c];
  }

  lemma RevokingKeepsChains(rows: Table, chains: seq<seq<nat>>, user: int)
    requires Holds(rows, chains)
    ensures Holds(RevokedAll(rows, user), chains)
  {
  }

  function CompletedLogins(events: seq<Event>): nat {
    if events == [] then 0
    else CompletedLogins(events[..|events| - 1]) + if events[|events| - 1].Login? && events[|events| - 1].completes then 1 else 0
  }

  lemma StepKeepsChains(life: int, rows: Table, chains: seq<seq<nat>>, e: Event)
    requires Holds(rows, chains)
    ensures Holds(Step(life, rows, e), Lengthened(chains, rows, e))
  {
    hide Holds, Admit, FindToken, Rotated, Extended, RevokedAll, Covers, Disjoint, TailsOnly, InSome;
    if e.completes {
      match e {
        case Login(user, now, _) =>
          LoginKeepsChains(rows, chains, NewSession(rows, user, now + life));
        case Refresh(token, decodes, now, _) =>
          if Refreshes(rows, e) {
            RotationKeepsChains(rows, chains, Admit(rows, token, decodes, now).row, now + life);
          }
        case Logout(user, _) =>
          RevokingKeepsChains(rows, chains, user);
      }
    }
  }

  /** The sessions form disjoint chains, one per completed login, with at most the last session of
      each unrevoked. */
  lemma {:induction false} SessionsFormChains(life: int, events: seq<Event>)
    ensures Holds(Run(life, events), Chains(life, events))
    ensures |Chains(life, events)| == CompletedLogins(events)
  {
    if events != [] {
      var n := |events| - 1;
      SessionsFormChains(life, events[..n]);
      StepKeepsChains(life, Run(life, events[..n]), Chains(life, events[..n]), events[n]);
      hide Holds, Step, Admit;
    }
  }

  // ----- unrevoked sessions are counted by logins -----

  function Unrevoked(rows: Table, user: int): nat {
    if rows == [] then 0
    else
      var last := rows[|rows| - 1];
      Unrevoked(rows[..|rows| - 1], user) + if last.user == user && !last.revoked then 1 else 0
  }

  /** The logins of a user that completed after the user's last completed logout. */
  function LoginsSinceLogout(events: seq<Event>, user: int): nat {
    if events == [] then 0
    else
      var e, before := events[|events| - 1], LoginsSinceLogout(events[..|events| - 1], user);
      if e.Login? && e.user == user && e.completes then before + 1
      else if e.Logout? && e.user == user && e.completes then 0
      else before
  }

  lemma {:induction false} UnrevokedAfterRevoking(rows: Table, i: nat, user: int)
    requires i < |rows| && !rows[i].revoked
    ensures Unrevoked(rows[i := rows[i].(revoked := true)], user) + (if rows[i].user == user then 1 else 0) == Unrevoked(rows, user)
  {
    var n := |rows| - 1;
    var changed := rows[i := rows[i].(revoked := true)];
    if i == n {
      assert changed[..n] == rows[..n];
    } else {
      assert changed[..n] == rows[..n][i := rows[i].(revoked := true)];
      UnrevokedAfterRevoking(rows[..n], i, user);
    }
  }

  lemma {:induction false} UnrevokedAfterLogout(rows: Table, gone: int, user: int)
    ensures Unrevoked(RevokedAll(rows, gone), user) == if user == gone then 0 else Unrevoked(rows, user)
  {
    if rows != [] {
      var n := |rows| - 1;
      UnrevokedAfterLogout(rows[..n], gone, user);
      assert RevokedAll(rows, gone)[..n] == RevokedAll(rows[..n], gone);
    }
  }

  lemma UnrevokedAppend(rows: Table, session: Session, user: int)
    ensures Unrevoked(rows + [session], user) == Unrevoked(rows, user) + if session.user == user && !session.revoked then 1 else 0
  {
    assert (rows + [session])[..|rows|] == rows;
  }

  /** In every committed state a user has as many unrevoked sessions as logins since the last logout. */
  lemma {:induction false} SessionsAreConserved(life: int, events: seq<Event>, user: int)
    ensures Unrevoked(Run(life, events), user) == LoginsSinceLogout(events, user)
  {
    if events != [] {
      var n := |events| - 1;
      var rows, e := Run(life, events[..n]), events[n];
      SessionsAreConserved(life, events[..n], user);
      if e.completes {
        match e {
          case Login(u, now, _) =>
            UnrevokedAppend(rows, NewSession(rows, u, now + life), user);
          case Refresh(token, decodes, now, _) =>
            if Refreshes(rows, e) {
              var i := Admit(rows, token, decodes, now).row;
              UnrevokedAfterRevoking(rows, i, user);
              UnrevokedAppend(rows[i := rows[i].(revoked := true)], NewSession(rows, rows[i].user, now + life), user);
            }
          case Logout(u, _) =>
            UnrevokedAfterLogout(rows, u, user);
        }
      }
    }
  }
}
