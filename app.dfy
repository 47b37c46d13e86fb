/**
 * The server's own logic in the application module: the reconnect schedule
 * of the session cache, the readiness flag its events drive and the 503
 * gate in front of every route, the one-time administrator setup, and the
 * passport callbacks that check credentials and restore the user of a
 * session.
 */
module App {
  import opened Wrappers
  import opened UserModel

  /** The reconnect strategy: `None` (give up) after more than 10 retries. */
  function ReconnectDelay(retries: nat): (delay: Option<nat>)
    ensures delay.None? <==> retries > 10
    ensures delay.Some? ==> delay.value <= 5000 && delay.value <= retries * 1000
    ensures delay.Some? && retries <= 5 ==> delay.value == retries * 1000
  {
    if retries > 10 then None
    else if retries * 1000 < 5000 then Some(retries * 1000)
    else Some(5000)
  }

  /** Waits never shrink while the strategy keeps trying. */
  lemma ReconnectMonotone(a: nat, b: nat)
    requires a <= b <= 10
    ensures ReconnectDelay(a).value <= ReconnectDelay(b).value
  {
  }

  /** The client events the server listens to. */
  datatype RedisEvent = Error | Connect | Ready | End

  /** The flag after one event: `ready` sets it, `error` and `end` clear it, `connect` leaves it. */
  function NextReady(ready: bool, e: RedisEvent): bool
  {
    match e
    case Ready => true
    case Error => false
    case End => false
    case Connect => ready
  }

  /** The flag after a run of events, starting from `ready`. */
  function ReadyAfter(ready: bool, events: seq<RedisEvent>): bool
  {
    if events == [] then ready
    else NextReady(ReadyAfter(ready, events[..|events| - 1]), events[|events| - 1])
  }

  /** Every event after position `k` is a `connect`. */
  predicate OnlyConnectsAfter(events: seq<RedisEvent>, k: int)
  {
    forall j :: 0 <= j < |events| && k < j ==> events[j] == Connect
  }

  /**
   * The flag is set exactly when the last event other than `connect` was
   * `ready`, or, with none, when it was set at the start.
   */
  lemma {:induction false} ReadyAfterIff(ready: bool, events: seq<RedisEvent>)
    ensures ReadyAfter(ready, events) <==> LastSetter(ready, events)
  {
    if events != [] {
      var n := |events| - 1;
      ReadyAfterIff(ready, events[..n]);
      if events[n] == Connect {
        LastSetterConnect(ready, events);
      } else if events[n] == Ready {
        assert OnlyConnectsAfter(events, n);
      } else {
        LastSetterCleared(ready, events);
      }
    }
  }

  /** The flag was set at the start and nothing but `connect` followed, or a `ready` was followed only by `connect`s. */
  predicate LastSetter(ready: bool, events: seq<RedisEvent>)
  {
    (ready && OnlyConnectsAfter(events, -1))
    || (exists k :: 0 <= k < |events| && events[k] == Ready && OnlyConnectsAfter(events, k))
  }

  /** A trailing `connect` changes nothing about which event set the flag last. */
  lemma LastSetterConnect(ready: bool, events: seq<RedisEvent>)
    requires events != [] && events[|events| - 1] == Connect
    ensures LastSetter(ready, events) <==> LastSetter(ready, events[..|events| - 1])
  {
    var n := |events| - 1;
    var init := events[..n];
    if ready && OnlyConnectsAfter(init, -1) {
      assert OnlyConnectsAfter(events, -1);
    }
    if exists k :: 0 <= k < |init| && init[k] == Ready && OnlyConnectsAfter(init, k) {
      var k :| 0 <= k < |init| && init[k] == Ready && OnlyConnectsAfter(init, k);
      assert events[k] == Ready && OnlyConnectsAfter(events, k);
    }
    if OnlyConnectsAfter(events, -1) {
      assert OnlyConnectsAfter(init, -1);
    }
    if exists k :: 0 <= k < |events| && events[k] == Ready && OnlyConnectsAfter(events, k) {
      var k :| 0 <= k < |events| && events[k] == Ready && OnlyConnectsAfter(events, k);
      assert k < n;
      assert init[k] == Ready && OnlyConnectsAfter(init, k);
    }
  }

  /** A trailing `error` or `end` leaves no event that set the flag last. */
  lemma LastSetterCleared(ready: bool, events: seq<RedisEvent>)
    requires events != [] && events[|events| - 1] != Connect && events[|events| - 1] != Ready
    ensures !LastSetter(ready, events)
  {
    var n := |events| - 1;
    assert !OnlyConnectsAfter(events, -1);
    forall k | 0 <= k < n
      ensures !OnlyConnectsAfter(events, k)
    {
      assert events[n] != Connect;
    }
  }

  /** The `redisReady` flag and the handlers that update it. */
  class RedisState {
    var ready: bool

    constructor ()
      ensures !ready
    {
      ready := false;
    }

    /** The client's `on(event)` handler. */
    method Handle(e: RedisEvent)
      modifies this
      ensures ready == NextReady(old(ready), e)
    {
      match e
      case Error => ready := false;
      case Connect =>
      case Ready => ready := true;
      case End => ready := false;
    }

    /** The gate middleware: 503 while not ready, otherwise the route's own answer. */
    function Answer(routeStatus: nat): (status: nat)
      reads this
      ensures status == 503 || status == routeStatus
      ensures !ready ==> status == 503
      ensures ready ==> status == routeStatus
    {
      if !ready then 503 else routeStatus
    }
  }

  /**
   * Once the handlers have seen a run of events, the gate passes a request
   * on exactly when the last event other than `connect` was `ready` (or,
   * with none, the flag was set at the start); otherwise it answers 503.
   */
  lemma AnswerAfterEvents(r: RedisState, start: bool, events: seq<RedisEvent>, routeStatus: nat)
    requires r.ready == ReadyAfter(start, events)
    ensures r.Answer(routeStatus) == if LastSetter(start, events) then routeStatus else 503
  {
    ReadyAfterIff(start, events);
  }

  /** `GET /api/setup/status`: configured once an administrator exists. */
  function IsConfigured(rows: map<nat, UserRow>): bool
  {
    AdminCount(rows) > 0
  }

  /** The status `POST /api/setup` answers before it tries to create the administrator. */
  function SetupCheck(rows: map<nat, UserRow>, username: string, password: string): (status: Option<nat>)
    ensures IsConfigured(rows) ==> status == Some(403)
    ensures status.None? <==> !IsConfigured(rows) && |username| >= 3 && |password| >= 6
    ensures status.Some? ==> status.value in {400, 403}
    ensures !IsConfigured(rows) && status.Some? ==> status == Some(400)
  {
    if AdminCount(rows) > 0 then Some(403)
    else if username == "" || password == "" then Some(400)
    else if |username| < 3 then Some(400)
    else if |password| < 6 then Some(400)
    else None
  }

  /** A table with an administrator is configured. */
  lemma ConfiguredWithAdmin(rows: map<nat, UserRow>, id: nat)
    requires id in rows && rows[id].role == Admin
    ensures IsConfigured(rows)
  {
    assert id in AdminIds(rows);
  }

  /**
   * `POST /api/setup`: 403 once an administrator exists (before any input
   * check), then the input checks, then the creation of an administrator;
   * a name already in use answers 409.
   */
  method Setup(table: UserTable, username: string, password: string, salt: nat, kdf: Kdf) returns (status: nat)
    requires table.Valid()
    modifies table
    ensures table.Valid()
    ensures SetupCheck(old(table.rows), username, password).Some? ==>
      status == SetupCheck(old(table.rows), username, password).value && table.rows == old(table.rows)
    ensures SetupCheck(old(table.rows), username, password).None? && NameTaken(old(table.rows), username) ==>
      status == 409 && table.rows == old(table.rows)
    ensures SetupCheck(old(table.rows), username, password).None? && !NameTaken(old(table.rows), username) ==>
      && status == 201
      && table.rows == old(table.rows)[old(table.nextId) := UserRow(old(table.nextId), username, HashPassword(password, salt, kdf), Admin)]
    ensures status == 201 ==> IsConfigured(table.rows)
  {
    var check := SetupCheck(table.rows, username, password);
    if check.Some? {
      return check.value;
    }
    var created := table.Create(username, HashPassword(password, salt, kdf), Admin);
    if created.None? {
      return 409;
    }
    ConfiguredWithAdmin(table.rows, created.value.id);
    status := 201;
  }

  /** What the LocalStrategy verify callback reports. */
  datatype Verdict = NotFound | BadPassword | Verified(user: UserRow)

  /** The message passport passes on with a refusal. */
  function VerdictMessage(v: Verdict): string
  {
    match v
    case NotFound => "Usuário não encontrado"
    case BadPassword => "Senha incorreta"
    case Verified(_) => ""
  }

  /** Someone holds `username` and `password` matches that user's hash. */
  predicate Authentic(rows: map<nat, UserRow>, username: string, password: string, kdf: Kdf)
  {
    exists k :: k in rows && rows[k].username == username && Compare(password, rows[k].passwordHash, kdf)
  }

  /**
   * The LocalStrategy verify callback: exact lookup by name, then the
   * password check; the two refusals are told apart.
   */
  method VerifyCredentials(table: UserTable, username: string, password: string, kdf: Kdf) returns (v: Verdict)
    requires table.Valid()
    ensures v.NotFound? <==> !NameTaken(table.rows, username)
    ensures v.BadPassword? <==> NameTaken(table.rows, username) && !Authentic(table.rows, username, password, kdf)
    ensures v.Verified? <==> Authentic(table.rows, username, password, kdf)
    ensures v.Verified? ==> v.user.id in table.rows && table.rows[v.user.id] == v.user && v.user.username == username
  {
    var user := table.FindByUsername(username);
    if user.None? {
      return NotFound;
    }
    if !Compare(password, user.value.passwordHash, kdf) {
      return BadPassword;
    }
    v := Verified(user.value);
  }

  /**
   * `deserializeUser`: the session's user id looked up again; a user deleted
   * since leaves the request unauthenticated.
   */
  function CallerOf(sessionUser: Option<nat>, rows: map<nat, UserRow>): (c: Caller)
    ensures c.Signed? <==> sessionUser.Some? && sessionUser.value in rows
    ensures c.Signed? ==> c.id == sessionUser.value && c.role == rows[c.id].role
  {
    match sessionUser
    case None => Anonymous
    case Some(id) => if id in rows then Signed(id, rows[id].role) else Anonymous
  }
}
