/** Refresh tokens: each rotates once, and presenting a spent one revokes the
    whole family. Requests are atomic; `lifetime` is the configured validity. */
module TokenRotation {

  /** A stored row; its position stands for the hash of its raw token. */
  datatype Token = Token(user: string, expiresAt: int, revoked: bool)

  /** `active` holds the users there are; `rotated` logs every successful
      rotation and `since` counts a user's logins after its latest family
      revocation. */
  datatype State = State(tokens: seq<Token>, active: map<string, bool>, rotated: seq<nat>, since: map<string, nat>)

  /** A raw token that was never issued is a number past the table. */
  datatype Step =
    | Login(user: string, now: int)
    | Rotate(token: nat, now: int)
    | Logout(token: nat, now: int)
    | SetActive(user: string, isActive: bool, now: int)

  const EMPTY := State([], map[], [], map[])

  function Since(s: State, user: string): nat {
    if user in s.since then s.since[user] else 0
  }

  predicate IsActive(s: State, user: string) {
    user in s.active && s.active[user]
  }

  function RevokedAll(tokens: seq<Token>, user: string): (r: seq<Token>)
    ensures |r| == |tokens|
    ensures forall i :: 0 <= i < |r| ==> r[i] == if tokens[i].user == user then tokens[i].(revoked := true) else tokens[i]
  {
    seq(|tokens|, i requires 0 <= i < |tokens| =>
      if tokens[i].user == user then tokens[i].(revoked := true) else tokens[i])
  }

  predicate Spent(t: Token, now: int) {
    t.revoked || t.expiresAt <= now
  }

  predicate Rotates(s: State, i: nat, now: int) {
    i < |s.tokens| && !Spent(s.tokens[i], now) && IsActive(s, s.tokens[i].user)
  }

  predicate Alarms(s: State, step: Step) {
    step.Rotate? && step.token < |s.tokens| && Spent(s.tokens[step.token], step.now)
  }

  function Apply(lifetime: nat, s: State, step: Step): State {
    match step
    case Login(u, now) =>
      if IsActive(s, u)
      then s.(tokens := s.tokens + [Token(u, now + lifetime, false)], since := s.since[u := Since(s, u) + 1]) else s
    case Rotate(i, now) =>
      if i >= |s.tokens| then s
      else if Spent(s.tokens[i], now)
      then s.(tokens := RevokedAll(s.tokens, s.tokens[i].user), since := s.since[s.tokens[i].user := 0])
      else if !IsActive(s, s.tokens[i].user) then s
      else s.(tokens := s.tokens[i := s.tokens[i].(revoked := true)] + [Token(s.tokens[i].user, now + lifetime, false)],
              rotated := s.rotated + [i])
    case Logout(i, _) => if i < |s.tokens| then s.(tokens := s.tokens[i := s.tokens[i].(revoked := true)]) else s
    case SetActive(u, a, _) => s.(active := s.active[u := a])
  }

  function Run(lifetime: nat, s: State, steps: seq<Step>): State {
    if steps == [] then s else Apply(lifetime, Run(lifetime, s, steps[..|steps| - 1]), steps[|steps| - 1])
  }

  // ---------------------------------------------------------------- what only grows

  /** A row keeps its user and expiry, and once revoked stays revoked. */
  ghost predicate Ages(s: State, t: State) {
    && |s.tokens| <= |t.tokens|
    && s.rotated <= t.rotated
    && forall i :: 0 <= i < |s.tokens| ==>
         && t.tokens[i].user == s.tokens[i].user
         && t.tokens[i].expiresAt == s.tokens[i].expiresAt
         && (s.tokens[i].revoked ==> t.tokens[i].revoked)
  }

  lemma StepAges(lifetime: nat, s: State, step: Step)
    ensures Ages(s, Apply(lifetime, s, step))
  {
  }

  lemma {:induction false} RunAges(lifetime: nat, s: State, steps: seq<Step>)
    ensures Ages(s, Run(lifetime, s, steps))
  {
    hide Apply;
    if steps != [] {
      RunAges(lifetime, s, steps[..|steps| - 1]);
      StepAges(lifetime, Run(lifetime, s, steps[..|steps| - 1]), steps[|steps| - 1]);
    }
  }

  // ---------------------------------------------------------------- one rotation per token

  ghost predicate RotatedOnce(s: State) {
    && (forall k :: 0 <= k < |s.rotated| ==> s.rotated[k] < |s.tokens| && s.tokens[s.rotated[k]].revoked)
    && forall j, k :: 0 <= j < k < |s.rotated| ==> s.rotated[j] != s.rotated[k]
  }

  /** No refresh token rotates successfully twice. */
  lemma {:induction false} NoTokenRotatesTwice(lifetime: nat, steps: seq<Step>)
    ensures RotatedOnce(Run(lifetime, EMPTY, steps))
  {
    hide Apply;
    if steps != [] {
      var s, step := Run(lifetime, EMPTY, steps[..|steps| - 1]), steps[|steps| - 1];
      NoTokenRotatesTwice(lifetime, steps[..|steps| - 1]);
      StepRotatesOnce(lifetime, s, step);
    }
  }

  lemma StepRotatesOnce(lifetime: nat, s: State, step: Step)
    requires RotatedOnce(s)
    ensures RotatedOnce(Apply(lifetime, s, step))
  {
  }

  // ---------------------------------------------------------------- replay kills the family

  /** Presenting a revoked or expired token makes every token its user had been
      issued unusable, for good: whatever follows, none of them ever rotates. */
  lemma {:induction false} ReplayRevokesTheFamily(lifetime: nat, s: State, replay: Step, after: seq<Step>, i: nat, now: int)
    requires Alarms(s, replay) && i < |s.tokens| && s.tokens[i].user == s.tokens[replay.token].user
    ensures var t := Run(lifetime, Apply(lifetime, s, replay), after);
            !Rotates(t, i, now) && i < |t.tokens| && t.tokens[i].revoked
  {
    RunAges(lifetime, Apply(lifetime, s, replay), after);
  }

  /** A token that was refused as spent is refused forever. */
  lemma {:induction false} SpentStaysSpent(lifetime: nat, s: State, i: nat, now: int, after: seq<Step>, later: int)
    requires i < |s.tokens| && Spent(s.tokens[i], now) && now <= later
    ensures !Rotates(Run(lifetime, s, after), i, later)
  {
    RunAges(lifetime, s, after);
  }

  // ---------------------------------------------------------------- live tokens are paid for by logins

  function Unrevoked(tokens: seq<Token>, user: string): nat {
    if tokens == [] then 0
    else
      var last := tokens[|tokens| - 1];
      Unrevoked(tokens[..|tokens| - 1], user) + (if last.user == user && !last.revoked then 1 else 0)
  }

  lemma UnrevokedSnoc(tokens: seq<Token>, t: Token, user: string)
    ensures Unrevoked(tokens + [t], user) == Unrevoked(tokens, user) + (if t.user == user && !t.revoked then 1 else 0)
  {
    assert (tokens + [t])[..|tokens|] == tokens;
  }

  lemma {:induction false} RevokeOne(tokens: seq<Token>, i: nat, user: string)
    requires i < |tokens|
    ensures Unrevoked(tokens[i := tokens[i].(revoked := true)], user) ==
            Unrevoked(tokens, user) - (if tokens[i].user == user && !tokens[i].revoked then 1 else 0)
    decreases |tokens|
  {
    var n := |tokens| - 1;
    var changed := tokens[i := tokens[i].(revoked := true)];
    if i == n {
      assert changed[..n] == tokens[..n];
    } else {
      RevokeOne(tokens[..n], i, user);
      assert changed[..n] == tokens[..n][i := tokens[i].(revoked := true)];
    }
  }

  lemma {:induction false} RevokeFamily(tokens: seq<Token>, owner: string, user: string)
    ensures Unrevoked(RevokedAll(tokens, owner), user) == if user == owner then 0 else Unrevoked(tokens, user)
  {
    if tokens != [] {
      var n := |tokens| - 1;
      RevokeFamily(tokens[..n], owner, user);
      assert RevokedAll(tokens, owner)[..n] == RevokedAll(tokens[..n], owner);
    }
  }

  /** A user's unrevoked tokens never exceed its logins since the latest
      revocation of its family: rotation never multiplies them. */
  lemma {:induction false} LiveTokensWithinLogins(lifetime: nat, steps: seq<Step>, user: string)
    ensures Unrevoked(Run(lifetime, EMPTY, steps).tokens, user) <= Since(Run(lifetime, EMPTY, steps), user)
  {
    hide Apply, Unrevoked, Since;
    if steps == [] {
      NoTokens(user);
    } else {
      LiveTokensWithinLogins(lifetime, steps[..|steps| - 1], user);
      StepWithinLogins(lifetime, Run(lifetime, EMPTY, steps[..|steps| - 1]), steps[|steps| - 1], user);
    }
  }

  lemma NoTokens(user: string)
    ensures Unrevoked([], user) == 0
  {
  }

  lemma StepWithinLogins(lifetime: nat, s: State, step: Step, user: string)
    requires Unrevoked(s.tokens, user) <= Since(s, user)
    ensures Unrevoked(Apply(lifetime, s, step).tokens, user) <= Since(Apply(lifetime, s, step), user)
  {
    hide Unrevoked;
    match step
    case Login(u, now) => UnrevokedSnoc(s.tokens, Token(u, now + lifetime, false), user);
    case Rotate(i, now) =>
      if i < |s.tokens| {
        var owner := s.tokens[i].user;
        RevokeFamily(s.tokens, owner, user);
        RevokeOne(s.tokens, i, user);
        UnrevokedSnoc(s.tokens[i := s.tokens[i].(revoked := true)], Token(owner, now + lifetime, false), user);
      }
    case Logout(i, _) => if i < |s.tokens| { RevokeOne(s.tokens, i, user); }
    case SetActive(_, _, _) =>
  }

  // ---------------------------------------------------------------- the service

  datatype Answer = Issued(token: nat) | InvalidToken | RevokedOrExpired | NoActiveUser

  /** The token table, its rows changed in place. */
  class AuthService {
    const lifetime: nat
    var tokens: seq<Token>
    var active: map<string, bool>
    ghost var rotated: seq<nat>
    ghost var since: map<string, nat>

    ghost function Abstract(): State
      reads this
    {
      State(tokens, active, rotated, since)
    }

    constructor (validFor: nat)
      ensures lifetime == validFor && Abstract() == EMPTY
    {
      lifetime, tokens, active, rotated, since := validFor, [], map[], [], map[];
    }

    /** Adds a row; the caller accounts for it as a login or a rotation. */
    method IssueTokens(user: string, now: int) returns (token: nat)
      modifies this`tokens
      ensures token == |old(tokens)| && tokens == old(tokens) + [Token(user, now + lifetime, false)]
    {
      token := |tokens|;
      tokens := tokens + [Token(user, now + lifetime, false)];
    }

    method RevokeAllUserTokens(user: string)
      modifies this`tokens
      ensures tokens == RevokedAll(old(tokens), user)
    {
      for i := 0 to |tokens|
        invariant |tokens| == |old(tokens)|
        invariant forall k :: 0 <= k < |tokens| ==>
                    tokens[k] == if k < i && old(tokens)[k].user == user then old(tokens)[k].(revoked := true) else old(tokens)[k]
      {
        if tokens[i].user == user && !tokens[i].revoked {
          tokens := tokens[i := tokens[i].(revoked := true)];
        }
      }
    }

    method LogIn(user: string, now: int) returns (r: Answer)
      modifies this
      ensures Abstract() == Apply(lifetime, old(Abstract()), Login(user, now))
      ensures r == if user in active && active[user] then Issued(|old(tokens)|) else NoActiveUser
      ensures tokens == if r.Issued? then old(tokens) + [Token(user, now + lifetime, false)] else old(tokens)
    {
      if user !in active || !active[user] {
        return NoActiveUser;
      }
      var token := IssueTokens(user, now);
      since := since[user := Since(Abstract(), user) + 1];
      r := Issued(token);
    }

    method RotateRefreshToken(presented: nat, now: int) returns (r: Answer)
      modifies this
      ensures Abstract() == Apply(lifetime, old(Abstract()), Rotate(presented, now))
      ensures r.Issued? <==> Rotates(old(Abstract()), presented, now)
      ensures r.Issued? ==> r.token == |old(tokens)| && |tokens| == r.token + 1
      ensures r.RevokedOrExpired? <==> Alarms(old(Abstract()), Rotate(presented, now))
      ensures r.InvalidToken? <==> presented >= |old(tokens)|
      ensures presented < |old(tokens)| ==>
                var row := old(tokens)[presented];
                && (r.RevokedOrExpired? <==> row.revoked || row.expiresAt <= now)
                && (r.NoActiveUser? <==> !row.revoked && now < row.expiresAt && !(row.user in active && active[row.user]))
                && (r.Issued? ==> tokens == old(tokens)[presented := row.(revoked := true)] + [Token(row.user, now + lifetime, false)])
                && (r.RevokedOrExpired? ==> |tokens| == |old(tokens)| && forall i :: 0 <= i < |tokens| ==>
                      tokens[i] == if old(tokens)[i].user == row.user then old(tokens)[i].(revoked := true) else old(tokens)[i])
      ensures r.InvalidToken? || r.NoActiveUser? ==> tokens == old(tokens)
    {
      if presented >= |tokens| {
        return InvalidToken;
      }
      var stored := tokens[presented];
      if stored.revoked || stored.expiresAt <= now {
        RevokeAllUserTokens(stored.user);
        since := since[stored.user := 0];
        return RevokedOrExpired;
      }
      if stored.user !in active || !active[stored.user] {
        return NoActiveUser;
      }
      tokens := tokens[presented := stored.(revoked := true)];
      var token := IssueTokens(stored.user, now);
      rotated := rotated + [presented];
      r := Issued(token);
    }

    method RevokeRefreshToken(presented: nat, now: int)
      modifies this`tokens
      ensures Abstract() == Apply(lifetime, old(Abstract()), Logout(presented, now))
      ensures tokens == if presented < |old(tokens)| then old(tokens)[presented := old(tokens)[presented].(revoked := true)]
                        else old(tokens)
    {
      if presented < |tokens| && !tokens[presented].revoked {
        tokens := tokens[presented := tokens[presented].(revoked := true)];
      }
    }
  }
}
