/** auth_usecase.py: refresh tokens, rotated on use. Tokens stand for their hashes. */
module RefreshTokens {
  import opened Wrappers

  datatype Token = Token(user: nat, expiresAt: int, revokedAt: Option<int>)

  /** Secrets are random and never repeat, so the n-th one generated is modelled as `n`. */
  datatype TokenStore = TokenStore(tokens: map<nat, Token>, users: set<nat>, next: nat)

  const LIFETIME_SECONDS := 14 * 86400

  predicate Live(s: TokenStore, token: nat) {
    token in s.tokens && s.tokens[token].revokedAt.None?
  }

  /** What refresh accepts. */
  predicate Accepted(s: TokenStore, token: nat, now: int) {
    Live(s, token) && s.tokens[token].expiresAt >= now && s.tokens[token].user in s.users
  }

  function Revoke(s: TokenStore, token: nat, now: int): TokenStore
    requires token in s.tokens
  {
    s.(tokens := s.tokens[token := s.tokens[token].(revokedAt := Some(now))])
  }

  function Issue(s: TokenStore, user: nat, now: int): TokenStore {
    s.(tokens := s.tokens[s.next := Token(user, now + LIFETIME_SECONDS, None)], next := s.next + 1)
  }

  class AuthUsecase {
    var committed: TokenStore
    var work: TokenStore

    constructor (s: TokenStore)
      ensures committed == s && Idle()
    {
      committed, work := s, s;
    }

    ghost predicate Idle()
      reads this
    {
      work == committed
    }

    /** Creates the new token, good for 14 days, and commits everything done so far. */
    method IssueTokens(user: nat, now: int) returns (token: nat)
      modifies this
      ensures Idle() && token == old(work).next
      ensures committed == old(work).(
        tokens := old(work).tokens[token := Token(user, now + 14 * 86400, None)],
        next := token + 1)
    {
      token := work.next;
      work := work.(tokens := work.tokens[token := Token(user, now + LIFETIME_SECONDS, None)], next := token + 1);
      committed := work;
    }

    /** After Google has vouched for a known user. */
    method Login(user: nat, now: int) returns (r: Result<nat>)
      requires Idle()
      modifies this
      ensures Idle() && committed == Do(old(committed), Op.Login(user, now))
      ensures r == if user in old(committed).users then Ok(old(committed).next) else Err(Unauthorized)
      ensures r.Ok? ==> committed == old(committed).(
        tokens := old(committed).tokens[r.value := Token(user, now + 14 * 86400, None)],
        next := r.value + 1)
      ensures r.Err? ==> committed == old(committed)
    {
      if user !in work.users {
        return Err(Unauthorized);
      }
      var token := IssueTokens(user, now);
      return Ok(token);
    }

    /**
     Exchanges a token that is stored, not revoked, not past its expiry and of a known user; it is
     revoked and a new one of the same user issued. Anything else is rejected and commits nothing.
     */
    method Refresh(raw: Option<nat>, now: int) returns (r: Result<nat>)
      requires Idle()
      modifies this
      ensures Idle()
      ensures raw.Some? ==> committed == Do(old(committed), Op.Refresh(raw.value, now))
      ensures r.Ok? <==>
        && raw.Some? && raw.value in old(committed).tokens
        && var token := old(committed).tokens[raw.value];
           token.revokedAt == None && now <= token.expiresAt && token.user in old(committed).users
      ensures r.Ok? ==>
        && r.value == old(committed).next
        && var token := old(committed).tokens[raw.value];
           committed == old(committed).(
             tokens := old(committed).tokens
               [raw.value := token.(revokedAt := Some(now))]
               [r.value := Token(token.user, now + 14 * 86400, None)],
             next := r.value + 1)
      ensures r.Err? ==> r.error == Unauthorized && committed == old(committed)
    {
      if raw.None? {
        return Err(Unauthorized);
      }
      var token := raw.value;
      if token !in work.tokens || work.tokens[token].revokedAt.Some? || work.tokens[token].expiresAt < now {
        return Err(Unauthorized);
      }
      var user := work.tokens[token].user;
      work := work.(tokens := work.tokens[token := work.tokens[token].(revokedAt := Some(now))]);
      if user !in work.users {
        // The session is closed without a commit.
        work := committed;
        return Err(Unauthorized);
      }
      var rotated := IssueTokens(user, now);
      return Ok(rotated);
    }

    /** Revokes a token that is stored and not revoked, and leaves everything else alone. */
    method Logout(raw: Option<nat>, now: int)
      requires Idle()
      modifies this
      ensures Idle()
      ensures committed == if raw.Some? then Do(old(committed), Op.Logout(raw.value, now)) else old(committed)
      ensures committed ==
        if raw.Some? && raw.value in old(committed).tokens && old(committed).tokens[raw.value].revokedAt == None
        then
          old(committed).(tokens :=
            old(committed).tokens[raw.value := old(committed).tokens[raw.value].(revokedAt := Some(now))])
        else old(committed)
    {
      if raw.None? {
        return;
      }
      var token := raw.value;
      if token in work.tokens && work.tokens[token].revokedAt.None? {
        work := work.(tokens := work.tokens[token := work.tokens[token].(revokedAt := Some(now))]);
      }
      committed := work;
    }
  }

  datatype Op =
    | Login(user: nat, now: int)
    | Refresh(token: nat, now: int)
    | Logout(token: nat, now: int)
    | AddUser(user: nat)
    | DeleteUser(user: nat)

  function Do(s: TokenStore, op: Op): TokenStore {
    match op
    case Login(user, now) => if user in s.users then Issue(s, user, now) else s
    case Refresh(token, now) =>
      if Accepted(s, token, now) then Issue(Revoke(s, token, now), s.tokens[token].user, now) else s
    case Logout(token, now) => if Live(s, token) then Revoke(s, token, now) else s
    case AddUser(user) => s.(users := s.users + {user})
    case DeleteUser(user) =>
      // The foreign key cascades to the user's tokens.
      s.(users := s.users - {user}, tokens := map t | t in s.tokens && s.tokens[t].user != user :: s.tokens[t])
  }

  function Run(s: TokenStore, ops: seq<Op>): TokenStore {
    if ops == [] then s else Do(Run(s, ops[..|ops| - 1]), ops[|ops| - 1])
  }

  /** The tokens a run exchanges successfully, in order. */
  function Exchanged(s: TokenStore, ops: seq<Op>): seq<nat> {
    if ops == [] then []
    else
      var init, last := ops[..|ops| - 1], ops[|ops| - 1];
      Exchanged(s, init) + if last.Refresh? && Accepted(Run(s, init), last.token, last.now) then [last.token] else []
  }

  /**
   What each token was exchanged for, and where its chain of rotations began: at a login, or at a
   token there was before the run.
   */
  datatype History = History(successor: map<nat, nat>, root: map<nat, nat>)

  function StepHistory(s: TokenStore, h: History, op: Op): History {
    if op.Login? && op.user in s.users then h.(root := h.root[s.next := s.next])
    else if op.Refresh? && Accepted(s, op.token, op.now) && op.token in h.root then
      History(h.successor[op.token := s.next], h.root[s.next := h.root[op.token]])
    else h
  }

  function HistoryOf(s: TokenStore, ops: seq<Op>): History {
    if ops == [] then History(map[], map t | t in s.tokens :: t)
    else
      var init := ops[..|ops| - 1];
      StepHistory(Run(s, init), HistoryOf(s, init), ops[|ops| - 1])
  }

  function Logins(s: TokenStore, ops: seq<Op>): nat {
    if ops == [] then 0
    else
      var init, last := ops[..|ops| - 1], ops[|ops| - 1];
      Logins(s, init) + if last.Login? && last.user in Run(s, init).users then 1 else 0
  }

  /** Logouts that revoked something. */
  function Logouts(s: TokenStore, ops: seq<Op>): nat {
    if ops == [] then 0
    else
      var init, last := ops[..|ops| - 1], ops[|ops| - 1];
      Logouts(s, init) + if last.Logout? && Live(Run(s, init), last.token) then 1 else 0
  }

  function LiveTokens(s: TokenStore): set<nat> {
    set t | t in s.tokens && s.tokens[t].revokedAt.None?
  }

  predicate StoreOk(s: TokenStore) {
    forall t | t in s.tokens :: t < s.next && s.tokens[t].user in s.users
  }

  lemma OkKept(s: TokenStore, op: Op)
    requires StoreOk(s)
    ensures StoreOk(Do(s, op)) && s.next <= Do(s, op).next
  {
  }

  lemma {:induction false} OkOverRun(s: TokenStore, ops: seq<Op>)
    requires StoreOk(s)
    ensures StoreOk(Run(s, ops)) && s.next <= Run(s, ops).next
  {
    if ops != [] {
      OkOverRun(s, ops[..|ops| - 1]);
      OkKept(Run(s, ops[..|ops| - 1]), ops[|ops| - 1]);
    }
  }

  /** A token that is not live, once it was generated, never becomes live again. */
  lemma {:induction false} DeadStaysDead(s: TokenStore, ops: seq<Op>, token: nat)
    requires StoreOk(s) && token < s.next && !Live(s, token)
    ensures !Live(Run(s, ops), token)
    ensures forall now :: !Accepted(Run(s, ops), token, now)
  {
    OkOverRun(s, ops);
    if ops != [] {
      DeadStaysDead(s, ops[..|ops| - 1], token);
      OkOverRun(s, ops[..|ops| - 1]);
    }
  }

  /** Each token is exchanged at most once. */
  lemma {:induction false} ExchangedOnce(s: TokenStore, ops: seq<Op>)
    requires StoreOk(s)
    ensures forall i, j | 0 <= i < j < |Exchanged(s, ops)| :: Exchanged(s, ops)[i] != Exchanged(s, ops)[j]
    ensures forall t | t in Exchanged(s, ops) :: !Live(Run(s, ops), t) && t < Run(s, ops).next
  {
    if ops != [] {
      var init, last := ops[..|ops| - 1], ops[|ops| - 1];
      ExchangedOnce(s, init);
      OkOverRun(s, init);
      OkKept(Run(s, init), last);
      forall t | t in Exchanged(s, init) ensures !Live(Run(s, ops), t) {
        DeadStaysDead(Run(s, init), [last], t);
        assert [last][..0] == [];
        assert Run(Run(s, init), [last]) == Do(Run(s, init), last);
      }
    }
  }

  /**
   Rotation chains: every token has a root; successors are newer, never shared, and keep the root; a
   token with a successor is dead; and no root has two tokens without successor.
   */
  ghost predicate ChainsOk(s: TokenStore, h: History) {
    && (forall t | t in s.tokens :: t in h.root)
    && (forall t | t in h.root :: t < s.next && h.root[t] < s.next)
    && (forall t | t in h.successor :: t < h.successor[t] && !Live(s, t))
    && (forall t | t in h.successor :: t in h.root && h.successor[t] in h.root && h.root[h.successor[t]] == h.root[t])
    && (forall t, u | t in h.successor && u in h.successor && h.successor[t] == h.successor[u] :: t == u)
    && (forall t, u |
          t in h.root && u in h.root && h.root[t] == h.root[u] && t !in h.successor && u !in h.successor :: t == u)
  }

  lemma ChainsStep(s: TokenStore, h: History, op: Op)
    requires StoreOk(s) && ChainsOk(s, h)
    ensures ChainsOk(Do(s, op), StepHistory(s, h, op))
  {
    if op.Login? && op.user in s.users {
      LoginKeepsChains(s, h, op.user, op.now);
    } else if op.Refresh? && Accepted(s, op.token, op.now) {
      RotationKeepsChains(s, h, op.token, op.now);
    }
  }

  lemma LoginKeepsChains(s: TokenStore, h: History, user: nat, now: int)
    requires StoreOk(s) && ChainsOk(s, h)
    ensures ChainsOk(Issue(s, user, now), h.(root := h.root[s.next := s.next]))
  {
  }

  lemma RotationKeepsChains(s: TokenStore, h: History, token: nat, now: int)
    requires StoreOk(s) && ChainsOk(s, h) && Accepted(s, token, now)
    ensures ChainsOk(Issue(Revoke(s, token, now), s.tokens[token].user, now),
                     History(h.successor[token := s.next], h.root[s.next := h.root[token]]))
  {
  }

  /** In every run each chain is linear and has at most one live token: its last. */
  lemma {:induction false} OneLiveTokenPerChain(s: TokenStore, ops: seq<Op>)
    requires StoreOk(s)
    ensures ChainsOk(Run(s, ops), HistoryOf(s, ops))
    ensures forall t, u | Live(Run(s, ops), t) && Live(Run(s, ops), u) ::
      && t in HistoryOf(s, ops).root && u in HistoryOf(s, ops).root
      && (HistoryOf(s, ops).root[t] == HistoryOf(s, ops).root[u] ==> t == u)
  {
    if ops != [] {
      var init := ops[..|ops| - 1];
      OkOverRun(s, init);
      OneLiveTokenPerChain(s, init);
      ChainsStep(Run(s, init), HistoryOf(s, init), ops[|ops| - 1]);
    }
  }

  lemma LiveStep(s: TokenStore, op: Op)
    requires StoreOk(s) && !op.DeleteUser?
    ensures LiveTokens(Do(s, op)) == match op
      case Login(user, now) => LiveTokens(s) + if user in s.users then {s.next} else {}
      case Refresh(token, now) => if Accepted(s, token, now) then LiveTokens(s) - {token} + {s.next} else LiveTokens(s)
      case Logout(token, now) => LiveTokens(s) - {token}
      case _ => LiveTokens(s)
    ensures s.next !in LiveTokens(s)
  {
  }

  /** While no user is deleted, live tokens are the logins less the logouts that took effect. */
  lemma {:induction false} LiveTokensCount(s: TokenStore, ops: seq<Op>)
    requires StoreOk(s) && forall op | op in ops :: !op.DeleteUser?
    ensures |LiveTokens(Run(s, ops))| + Logouts(s, ops) == |LiveTokens(s)| + Logins(s, ops)
  {
    if ops != [] {
      var init, last := ops[..|ops| - 1], ops[|ops| - 1];
      assert last in ops;
      assert forall op | op in init :: op in ops;
      LiveTokensCount(s, init);
      OkOverRun(s, init);
      var before := Run(s, init);
      LiveStep(before, last);
      if last.Logout? {
        assert Live(before, last.token) <==> last.token in LiveTokens(before);
      } else if last.Refresh? && Accepted(before, last.token, last.now) {
        assert last.token in LiveTokens(before);
      }
    }
  }

  // How long a token is good for.

  /** Nothing in the run ends the token before its time. */
  predicate LeavesToken(op: Op, token: nat, user: nat) {
    match op
    case Logout(t, _) => t != token
    case DeleteUser(u) => u != user
    case _ => true
  }

  /** A token that is not exchanged, logged out or deleted with its user stays as it was issued. */
  lemma {:induction false} TokenStays(s: TokenStore, ops: seq<Op>, token: nat)
    requires StoreOk(s) && Live(s, token)
    requires token !in Exchanged(s, ops)
    requires forall op | op in ops :: LeavesToken(op, token, s.tokens[token].user)
    ensures token in Run(s, ops).tokens && Run(s, ops).tokens[token] == s.tokens[token]
    ensures s.tokens[token].user in Run(s, ops).users
  {
    if ops != [] {
      var init, last := ops[..|ops| - 1], ops[|ops| - 1];
      assert last in ops;
      assert forall op | op in init :: op in ops;
      TokenStays(s, init, token);
      OkOverRun(s, init);
    }
  }

  /**
   A token issued at time `t` by a login, and since then neither exchanged nor logged out, its user not
   deleted, is exchanged at `now` if and only if at most 14 days have passed.
   */
  lemma GoodForFourteenDays(s: TokenStore, user: nat, t: int, ops: seq<Op>, now: int)
    requires StoreOk(s) && user in s.users
    requires s.next !in Exchanged(Do(s, Login(user, t)), ops)
    requires forall op | op in ops :: LeavesToken(op, s.next, user)
    ensures Accepted(Run(Do(s, Login(user, t)), ops), s.next, now) <==> now <= t + 14 * 86400
  {
    var issued := Do(s, Login(user, t));
    OkKept(s, Login(user, t));
    TokenStays(issued, ops, s.next);
  }

  /** So is one issued at `t` by an exchange. */
  lemma RotatedForFourteenDays(s: TokenStore, token: nat, t: int, ops: seq<Op>, now: int)
    requires StoreOk(s) && Accepted(s, token, t)
    requires s.next !in Exchanged(Do(s, Refresh(token, t)), ops)
    requires forall op | op in ops :: LeavesToken(op, s.next, s.tokens[token].user)
    ensures Accepted(Run(Do(s, Refresh(token, t)), ops), s.next, now) <==> now <= t + 14 * 86400
  {
    var issued := Do(s, Refresh(token, t));
    OkKept(s, Refresh(token, t));
    TokenStays(issued, ops, s.next);
  }
}
