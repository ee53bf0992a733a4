/**
 * The login endpoint's rate limit: at most five attempts per client address
 * in a fixed 60-second window, counted before the credentials are checked.
 * Checking the credentials (password hash, token issue) is outside the model
 * and arrives as a boolean.
 */
module AuthRouter {
  import opened Prelude
  import opened KeyValue
  import opened RateLimit
  import MessageStore
  import Coherence

  const LoginAttemptsPerWindow: nat := 5

  /** The counter key of a client address, in the "rl:login:" namespace. */
  function BucketKey(ip: string): (key: string)
    ensures |key| == 9 + |ip| && key[..9] == "rl:login:" && key[9..] == ip
  {
    "rl:login:" + ip
  }

  /** The address counted against: the client's host, or "unknown" when there is none. */
  function ClientIp(client: Option<string>): (ip: string)
  {
    if client.Some? then client.value else "unknown"
  }

  /** 200 with a token, 429, 401, or the server error an unreadable counter causes. */
  datatype LoginResponse = TokenIssued | TooManyAttempts | InvalidCredentials | ServerError(error: string)

  function LoginResult(verdict: Verdict, credentialsValid: bool): (r: LoginResponse)
    ensures r == TooManyAttempts <==> verdict == Rejected
    ensures r == TokenIssued <==> verdict == Allowed && credentialsValid
    ensures r == InvalidCredentials <==> verdict == Allowed && !credentialsValid
    ensures verdict.Failed? ==> r == ServerError(verdict.error)
  {
    match verdict
    case Rejected => TooManyAttempts
    case Failed(e) => ServerError(e)
    case Allowed => if credentialsValid then TokenIssued else InvalidCredentials
  }

  /** One login request: its response and the store afterwards. */
  function LoginSpec(st: Store, client: Option<string>, credentialsValid: bool): (r: (LoginResponse, Store))
  {
    var (verdict, st') := Attempt(st, BucketKey(ClientIp(client)), LoginAttemptsPerWindow);
    (LoginResult(verdict, credentialsValid), st')
  }

  /**
   * The `login` handler up to the credential check: the limiter runs first,
   * so a request with wrong credentials still uses up one attempt.
   */
  method Login(redis: FakeRedis, client: Option<string>, credentialsValid: bool)
    returns (resp: LoginResponse)
    modifies redis
    ensures (resp, redis.store) == LoginSpec(old(redis.store), client, credentialsValid)
    ensures BucketKey(ClientIp(client)) !in old(redis.store) ==>
              redis.ttl == old(redis.ttl)[BucketKey(ClientIp(client)) := WindowSeconds]
    ensures BucketKey(ClientIp(client)) in old(redis.store) ==> redis.ttl == old(redis.ttl)
  {
    var ip := if client.Some? then client.value else "unknown";
    var key := BucketKey(ip);
    var verdict := CheckAndIncrement(redis, key, LoginAttemptsPerWindow);
    match verdict {
      case Rejected =>
        resp := TooManyAttempts;
      case Failed(e) =>
        resp := ServerError(e);
      case Allowed =>
        resp := if credentialsValid then TokenIssued else InvalidCredentials;
    }
  }

  /** A login only touches its counter key, so the conversation cache stays coherent. */
  lemma LoginKeepsCoherent(st: Store, threads: MessageStore.Threads, client: Option<string>, credentialsValid: bool)
    requires Coherence.Coherent(st, threads)
    ensures Coherence.Coherent(LoginSpec(st, client, credentialsValid).1, threads)
  {
    var key := BucketKey(ClientIp(client));
    assert key[0] == 'r';
    Coherence.AttemptKeepsCoherent(st, threads, key, LoginAttemptsPerWindow);
  }

  /** Logins from one client in a row, with the given credential outcomes. */
  function LoginRun(st: Store, client: Option<string>, credentials: seq<bool>): (r: (seq<LoginResponse>, Store))
    ensures |r.0| == |credentials|
    decreases credentials
  {
    if credentials == [] then ([], st)
    else
      var (resp, st1) := LoginSpec(st, client, credentials[0]);
      var (rest, st2) := LoginRun(st1, client, credentials[1..]);
      ([resp] + rest, st2)
  }

  lemma {:induction false} LoginRunIsAttempts(st: Store, client: Option<string>, credentials: seq<bool>)
    ensures var key := BucketKey(ClientIp(client));
            var (vs, st') := Attempts(st, key, LoginAttemptsPerWindow, |credentials|);
            && LoginRun(st, client, credentials).1 == st'
            && forall i :: 0 <= i < |credentials| ==>
                 LoginRun(st, client, credentials).0[i] == LoginResult(vs[i], credentials[i])
    decreases credentials
  {
    if credentials != [] {
      var key := BucketKey(ClientIp(client));
      var st1 := Attempt(st, key, LoginAttemptsPerWindow).1;
      LoginRunIsAttempts(st1, client, credentials[1..]);
      var rs := LoginRun(st, client, credentials).0;
      var vs := Attempts(st, key, LoginAttemptsPerWindow, |credentials|).0;
      forall i | 1 <= i < |credentials|
        ensures rs[i] == LoginResult(vs[i], credentials[i])
      {
        assert rs[i] == LoginRun(st1, client, credentials[1..]).0[i - 1];
        assert vs[i] == Attempts(st1, key, LoginAttemptsPerWindow, |credentials| - 1).0[i - 1];
      }
    }
  }

  /**
   * From a client with no open window, the first five logins are let through
   * to the credential check, whatever its outcome, and every later one in the
   * window is refused with 429.
   */
  lemma {:induction false} FreshClientLogins(st: Store, client: Option<string>, credentials: seq<bool>)
    requires BucketKey(ClientIp(client)) !in st
    ensures forall i :: 0 <= i < |credentials| ==>
              LoginRun(st, client, credentials).0[i]
                == if i < LoginAttemptsPerWindow then LoginResult(Allowed, credentials[i]) else TooManyAttempts
    ensures HoldsCount(LoginRun(st, client, credentials).1, BucketKey(ClientIp(client)),
                       Min(|credentials|, LoginAttemptsPerWindow))
  {
    var key := BucketKey(ClientIp(client));
    LoginRunIsAttempts(st, client, credentials);
    AttemptsFromCount(st, key, LoginAttemptsPerWindow, 0, |credentials|);
  }
}
