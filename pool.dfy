/**
 * The connection pool (internal/provider/ssh/ssh_pool.go): a table of
 * clients keyed by `host:port:username`, bounded by `maxConns`, whose idle
 * entries a periodic sweep closes and drops.
 *
 * Every operation runs under the pool's lock, so each method here is one
 * atomic step. The clock is the `now` argument, in nanoseconds; whether a
 * pooled connection is still alive and how a dial goes are arguments too.
 */
module Pool {
  import opened Results
  import opened Text
  import opened Remote
  import opened Client

  /** `5 * time.Minute`, in nanoseconds. */
  const DefaultMaxIdle: int := 300_000_000_000
  const DefaultMaxConns: int := 10

  datatype PoolConfig = PoolConfig(maxIdleTime: int, maxConns: int)

  datatype PoolError = AtCapacity(max: int) | Connect(cause: ClientError)

  /** `configKey`: `host:port:username` with the port in decimal. */
  function ConfigKey(config: SSHConfig): (k: string)
    ensures var i := LastIndexOf(k, ':');
      ':' !in config.username ==> i >= 0 && k[i + 1..] == config.username
  {
    var k := config.host + ":" + Itoa(config.port) + ":" + config.username;
    if ':' !in config.username then
      LastIndexAfter(config.host + ":" + Itoa(config.port), ':', config.username);
      k
    else k
  }

  /** The key leaves the secrets out: configs that differ only in password or key share an entry. */
  lemma ConfigKeyIgnoresSecrets(a: SSHConfig, password: string, privateKey: string)
    ensures ConfigKey(a.(password := password, privateKey := privateKey)) == ConfigKey(a)
  {
  }

  /** For usernames without a colon the key determines host, port and username. */
  lemma {:induction false} ConfigKeyInjective(a: SSHConfig, b: SSHConfig)
    requires ':' !in a.username && ':' !in b.username
    requires ConfigKey(a) == ConfigKey(b)
    ensures a.host == b.host && a.port == b.port && a.username == b.username
  {
    var pa, pb := a.host + ":" + Itoa(a.port), b.host + ":" + Itoa(b.port);
    SplitAtLastColon(pa, a.username, pb, b.username);
    SplitAtLastColon(a.host, Itoa(a.port), b.host, Itoa(b.port));
    ItoaInjective(a.port, b.port);
  }

  /** Text joined at a colon splits back at its last colon when the right-hand part has none. */
  lemma {:induction false} SplitAtLastColon(x: string, y: string, u: string, v: string)
    requires ':' !in y && ':' !in v && x + ":" + y == u + ":" + v
    ensures x == u && y == v
  {
    var k := x + ":" + y;
    assert k == x + [':'] + y && k == u + [':'] + v;
    LastIndexAfter(x, ':', y);
    LastIndexAfter(u, ':', v);
    assert x == k[..|x|] && u == k[..|u|];
    assert y == k[|x| + 1..] && v == k[|u| + 1..];
  }

  /** With a colon in the username two different servers share a key, and so a pool entry. */
  lemma ConfigKeyCollision()
    ensures ConfigKey(SSHConfig("a", 1, "2:b", "", "")) == ConfigKey(SSHConfig("a:1", 2, "b", "", ""))
  {
    assert Itoa(1) == "1" by {
      assert ToDigits(1, 10) == "1";
    }
    assert Itoa(2) == "2" by {
      assert ToDigits(2, 10) == "2";
    }
  }

  /** A pooled client, when it was last handed out or given back, whether it is out, and whether it was closed. */
  datatype Entry = Entry(client: SSHClient, lastUsed: int, inUse: bool, closeOnce: bool)

  /** The sweep's test: not in use and idle for strictly longer than `maxIdle`. */
  predicate Expired(e: Entry, now: int, maxIdle: int) {
    !e.inUse && now - e.lastUsed > maxIdle
  }

  /** The table after one sweep at `now`. */
  function Swept(m: map<string, Entry>, now: int, maxIdle: int): (r: map<string, Entry>)
    ensures forall k :: k in r <==> k in m && !Expired(m[k], now, maxIdle)
    ensures forall k :: k in r ==> r[k] == m[k]
  {
    map k | k in m && !Expired(m[k], now, maxIdle) :: m[k]
  }

  /** The table partway through a sweep: the keys in `todo` are not yet examined. */
  function SweptExcept(m: map<string, Entry>, todo: set<string>, now: int, maxIdle: int): map<string, Entry> {
    map k | k in m && (k in todo || !Expired(m[k], now, maxIdle)) :: m[k]
  }

  lemma SweptExceptAll(m: map<string, Entry>, now: int, maxIdle: int)
    ensures SweptExcept(m, m.Keys, now, maxIdle) == m
  {
  }

  /** Examining one more key drops it exactly when it has expired. */
  lemma SweptExceptStep(m: map<string, Entry>, todo: set<string>, key: string, now: int, maxIdle: int)
    requires key in todo && todo <= m.Keys
    ensures key in SweptExcept(m, todo, now, maxIdle) && SweptExcept(m, todo, now, maxIdle)[key] == m[key]
    ensures SweptExcept(m, todo - {key}, now, maxIdle) ==
            if Expired(m[key], now, maxIdle) then SweptExcept(m, todo, now, maxIdle) - {key}
            else SweptExcept(m, todo, now, maxIdle)
  {
  }

  /** The clients of the entries under `keys`. */
  function ClientsOf(m: map<string, Entry>, keys: set<string>): set<SSHClient> {
    set k | k in m && k in keys :: m[k].client
  }

  /** Adding a key of the table adds its client. */
  lemma ClientsOfGrows(m: map<string, Entry>, keys: set<string>, k: string)
    requires k in m
    ensures ClientsOf(m, keys + {k}) == ClientsOf(m, keys) + {m[k].client}
  {
  }

  lemma ClientsOfMono(m: map<string, Entry>, a: set<string>, b: set<string>)
    requires a <= b
    ensures ClientsOf(m, a) <= ClientsOf(m, b)
  {
  }

  /** A second sweep at the same time removes nothing more. */
  lemma SweptIdempotent(m: map<string, Entry>, now: int, maxIdle: int)
    ensures Swept(Swept(m, now, maxIdle), now, maxIdle) == Swept(m, now, maxIdle)
  {
  }

  /** The sweep never drops an entry that is in use, nor one used less than `maxIdle` ago (the test is strict). */
  lemma SweptKeeps(m: map<string, Entry>, now: int, maxIdle: int, k: string)
    requires k in m && (m[k].inUse || now - m[k].lastUsed <= maxIdle)
    ensures k in Swept(m, now, maxIdle) && Swept(m, now, maxIdle)[k] == m[k]
  {
  }

  /** A later sweep removes at least what an earlier one does. */
  lemma SweptMonotone(m: map<string, Entry>, now1: int, now2: int, maxIdle: int)
    requires now1 <= now2
    ensures Swept(m, now2, maxIdle).Keys <= Swept(m, now1, maxIdle).Keys
  {
  }

  /** A sweep never grows the table. */
  lemma {:induction false} SweptShrinks(m: map<string, Entry>, now: int, maxIdle: int)
    ensures |Swept(m, now, maxIdle)| <= |m|
  {
    var r := Swept(m, now, maxIdle);
    assert r.Keys <= m.Keys;
    SubsetCard(r.Keys, m.Keys);
  }

  lemma {:induction false} SubsetCard<T>(a: set<T>, b: set<T>)
    requires a <= b
    ensures |a| <= |b|
    decreases |b|
  {
    if b != {} {
      var x :| x in b;
      SubsetCard(a - {x}, b - {x});
    }
  }

  /** Whether `GetClient` hands back the pooled client under `key`: present, not in use, and alive. */
  predicate Reusable(m: map<string, Entry>, key: string, alive: bool) {
    key in m && !m[key].inUse && alive
  }

  /** The table after `GetClient`'s reuse step found no client to hand back: an idle dead entry is dropped. */
  function AfterReuseCheck(m: map<string, Entry>, key: string): (r: map<string, Entry>)
    ensures key in m && !m[key].inUse ==> r == m - {key}
    ensures !(key in m && !m[key].inUse) ==> r == m
  {
    if key in m && !m[key].inUse then m - {key} else m
  }

  /**
   * The pool's invariant: the table within `maxConns` (empty when that is
   * not positive), no entry closed yet, a client in at most one entry and
   * not already closed, and no client closed twice.
   */
  ghost predicate TableValid(clients: map<string, Entry>, closed: seq<SSHClient>, maxConns: int) {
    && (|clients| == 0 || |clients| <= maxConns)
    && (forall k :: k in clients ==> !clients[k].closeOnce)
    && (forall k1, k2 :: k1 in clients && k2 in clients && k1 != k2 ==> clients[k1].client != clients[k2].client)
    && (forall k :: k in clients ==> clients[k].client !in closed)
    && (forall i, j :: 0 <= i < j < |closed| ==> closed[i] != closed[j])
  }

  /** Storing a client that is in no entry and not closed, below the bound, keeps the invariant. */
  lemma InsertKeepsValid(clients: map<string, Entry>, closed: seq<SSHClient>, maxConns: int, key: string, e: Entry)
    requires TableValid(clients, closed, maxConns) && |clients| < maxConns && !e.closeOnce
    requires e.client !in closed && forall k :: k in clients ==> clients[k].client != e.client
    ensures TableValid(clients[key := e], closed, maxConns)
  {
    assert |clients[key := e]| <= |clients| + 1;
  }

  /** Changing an entry's flags but not its client keeps the invariant. */
  lemma UpdateKeepsValid(clients: map<string, Entry>, closed: seq<SSHClient>, maxConns: int, key: string, inUse: bool, now: int)
    requires TableValid(clients, closed, maxConns) && key in clients
    ensures TableValid(clients[key := clients[key].(inUse := inUse, lastUsed := now)], closed, maxConns)
  {
    assert clients[key := clients[key].(inUse := inUse, lastUsed := now)].Keys == clients.Keys;
  }

  /** Deleting an entry without closing it keeps the invariant. */
  lemma DeleteKeepsValid(clients: map<string, Entry>, closed: seq<SSHClient>, maxConns: int, key: string)
    requires TableValid(clients, closed, maxConns)
    ensures TableValid(clients - {key}, closed, maxConns)
  {
    assert |clients - {key}| <= |clients| by {
      SubsetCard((clients - {key}).Keys, clients.Keys);
    }
  }

  /** Closing an entry's client and deleting the entry keeps the invariant. */
  lemma DropKeepsValid(clients: map<string, Entry>, closed: seq<SSHClient>, maxConns: int, key: string)
    requires TableValid(clients, closed, maxConns) && key in clients
    ensures TableValid(clients - {key}, closed + [clients[key].client], maxConns)
  {
    DeleteKeepsValid(clients, closed, maxConns, key);
    var c := clients[key].client;
    var closed' := closed + [c];
    forall i, j | 0 <= i < j < |closed'| ensures closed'[i] != closed'[j] {
      if j == |closed| {
        assert closed'[i] == closed[i];
      }
    }
  }

  /**
   * Partway through a sweep that started from table `m0` and close list
   * `c0`: the keys in `todo` are still to be examined, the expired ones
   * already examined are gone, and the clients closed so far are theirs.
   */
  ghost predicate SweepState(m0: map<string, Entry>, c0: seq<SSHClient>, todo: set<string>, now: int, maxIdle: int,
                             clients: map<string, Entry>, closed: seq<SSHClient>)
  {
    && todo <= m0.Keys
    && clients == SweptExcept(m0, todo, now, maxIdle)
    && |c0| <= |closed| && |closed| - |c0| == |m0| - |clients|
    && closed[..|c0|] == c0
    && (forall i :: |c0| <= i < |closed| ==> closed[i] in ClientsOf(m0, m0.Keys - clients.Keys))
  }

  lemma SweepStateStart(m0: map<string, Entry>, c0: seq<SSHClient>, now: int, maxIdle: int)
    ensures SweepState(m0, c0, m0.Keys, now, maxIdle, m0, c0)
  {
    SweptExceptAll(m0, now, maxIdle);
  }

  /** With no key left to examine the table is the swept one. */
  lemma SweepStateDone(m0: map<string, Entry>, c0: seq<SSHClient>, now: int, maxIdle: int,
                       clients: map<string, Entry>, closed: seq<SSHClient>)
    requires SweepState(m0, c0, {}, now, maxIdle, clients, closed)
    ensures clients == Swept(m0, now, maxIdle)
  {
    assert SweptExcept(m0, {}, now, maxIdle) == Swept(m0, now, maxIdle);
  }

  /** A key still to be examined holds its original entry. */
  lemma SweepStateAt(m0: map<string, Entry>, c0: seq<SSHClient>, todo: set<string>, now: int, maxIdle: int,
                     clients: map<string, Entry>, closed: seq<SSHClient>, key: string)
    requires SweepState(m0, c0, todo, now, maxIdle, clients, closed) && key in todo
    ensures key in clients && clients[key] == m0[key]
  {
    SweptExceptStep(m0, todo, key, now, maxIdle);
  }

  /** Examining a key that has not expired changes nothing. */
  lemma SweepStateKeep(m0: map<string, Entry>, c0: seq<SSHClient>, todo: set<string>, now: int, maxIdle: int,
                       clients: map<string, Entry>, closed: seq<SSHClient>, key: string)
    requires SweepState(m0, c0, todo, now, maxIdle, clients, closed) && key in todo && !Expired(m0[key], now, maxIdle)
    ensures SweepState(m0, c0, todo - {key}, now, maxIdle, clients, closed)
  {
    SweptExceptStep(m0, todo, key, now, maxIdle);
  }

  /** Examining an expired key closes its client and drops it. */
  lemma SweepStateDrop(m0: map<string, Entry>, c0: seq<SSHClient>, todo: set<string>, now: int, maxIdle: int,
                       clients: map<string, Entry>, closed: seq<SSHClient>, key: string)
    requires SweepState(m0, c0, todo, now, maxIdle, clients, closed) && key in todo && Expired(m0[key], now, maxIdle)
    ensures key in clients
    ensures SweepState(m0, c0, todo - {key}, now, maxIdle, clients - {key}, closed + [clients[key].client])
  {
    SweptExceptStep(m0, todo, key, now, maxIdle);
    var clients', closed' := clients - {key}, closed + [clients[key].client];
    assert m0.Keys - clients'.Keys == (m0.Keys - clients.Keys) + {key};
    ClientsOfGrows(m0, m0.Keys - clients.Keys, key);
    assert closed'[..|c0|] == c0 by {
      assert closed'[..|c0|] == closed[..|c0|];
    }
    forall i | |c0| <= i < |closed'| ensures closed'[i] in ClientsOf(m0, m0.Keys - clients'.Keys) {
      if i < |closed| {
        assert closed'[i] == closed[i];
        ClientsOfMono(m0, m0.Keys - clients.Keys, m0.Keys - clients'.Keys);
      }
    }
  }

  /** Deleting a key forgets what was last stored under it. */
  lemma UpdateThenDelete<K, V>(m: map<K, V>, k: K, v: V)
    ensures m[k := v] - {k} == m - {k}
  {
  }

  class SSHPool {
    var clients: map<string, Entry>
    const maxIdle: int
    const maxConns: int
    /** The clients the pool has closed, in order; the pool's only effect on a client it drops. */
    var closed: seq<SSHClient>

    /** `TableValid` of the pool's fields. */
    ghost predicate Valid()
      reads this
    {
      TableValid(clients, closed, maxConns)
    }

    /** `NewSSHPool`: an empty table; a zero idle time becomes five minutes and a zero bound ten connections. */
    constructor (config: PoolConfig)
      ensures Valid()
      ensures clients == map[] && closed == []
      ensures maxIdle == if config.maxIdleTime == 0 then DefaultMaxIdle else config.maxIdleTime
      ensures maxConns == if config.maxConns == 0 then DefaultMaxConns else config.maxConns
    {
      clients := map[];
      closed := [];
      maxIdle := if config.maxIdleTime == 0 then DefaultMaxIdle else config.maxIdleTime;
      maxConns := if config.maxConns == 0 then DefaultMaxConns else config.maxConns;
    }

    /**
     * `GetClient`: hand back the pooled client when it is idle and alive;
     * otherwise drop an idle dead entry, refuse when the table is full, dial,
     * and store the new client in use under the key. An entry in use is not
     * handed out twice: it counts toward the bound and is overwritten.
     */
    method GetClient(config: SSHConfig, now: int, alive: bool, t: Transport, ssh: Shell, sftp: RemoteFs)
      returns (r: Result<SSHClient, PoolError>)
      requires Valid()
      modifies this
      ensures Valid()
      ensures closed == old(closed)
      ensures var key := ConfigKey(config);
        if Reusable(old(clients), key, alive) then
          && r == Ok(old(clients)[key].client)
          && clients == old(clients)[key := old(clients)[key].(inUse := true, lastUsed := now)]
        else if |AfterReuseCheck(old(clients), key)| >= maxConns then
          r == Err(AtCapacity(maxConns)) && clients == AfterReuseCheck(old(clients), key)
        else if ConnectFailure(config, t).Some? then
          r == Err(Connect(ConnectFailure(config, t).value)) && clients == AfterReuseCheck(old(clients), key)
        else
          && r.Ok? && fresh(r.value)
          && r.value.address == DialAddress(config.host, config.port, t.hostIsIP)
          && clients == AfterReuseCheck(old(clients), key)[key := Entry(r.value, now, true, false)]
    {
      var key := ConfigKey(config);
      if key in clients && !clients[key].inUse {
        var pc := clients[key];
        if alive {
          UpdateKeepsValid(clients, closed, maxConns, key, true, now);
          clients := clients[key := pc.(inUse := true, lastUsed := now)];
          return Ok(pc.client);
        }
        DeleteKeepsValid(clients, closed, maxConns, key);
        clients := clients - {key};
      }
      r := Admit(key, config, now, t, ssh, sftp);
    }

    /**
     * The second half of `GetClient`, once no idle entry was reused: refuse
     * at capacity, otherwise connect and store the new client in use under the key.
     */
    method Admit(key: string, config: SSHConfig, now: int, t: Transport, ssh: Shell, sftp: RemoteFs)
      returns (r: Result<SSHClient, PoolError>)
      requires Valid()
      modifies this
      ensures Valid()
      ensures closed == old(closed)
      ensures
        if |old(clients)| >= maxConns then
          r == Err(AtCapacity(maxConns)) && clients == old(clients)
        else if ConnectFailure(config, t).Some? then
          r == Err(Connect(ConnectFailure(config, t).value)) && clients == old(clients)
        else
          && r.Ok? && fresh(r.value)
          && r.value.address == DialAddress(config.host, config.port, t.hostIsIP)
          && clients == old(clients)[key := Entry(r.value, now, true, false)]
    {
      if |clients| >= maxConns {
        return Err(AtCapacity(maxConns));
      }
      var c := NewSSHClient(config, t, ssh, sftp);
      if c.Err? {
        return Err(Connect(c.error));
      }
      var e := Entry(c.value, now, true, false);
      InsertKeepsValid(clients, closed, maxConns, key, e);
      clients := clients[key := e];
      return Ok(c.value);
    }

    /** `ReleaseClient`: the entry under the key, if any, becomes idle as of `now`; nothing else changes. */
    method ReleaseClient(config: SSHConfig, now: int)
      requires Valid()
      modifies this
      ensures Valid()
      ensures closed == old(closed)
      ensures var key := ConfigKey(config);
        clients == if key in old(clients) then old(clients)[key := old(clients)[key].(inUse := false, lastUsed := now)]
                   else old(clients)
    {
      var key := ConfigKey(config);
      if key in clients {
        clients := clients[key := clients[key].(inUse := false, lastUsed := now)];
      }
    }

    /**
     * One pass of the idle sweep in `cleanup`: exactly the expired entries
     * are closed, once each, and dropped; every other entry stays as it was.
     */
    method Sweep(now: int)
      requires Valid()
      modifies this
      ensures Valid()
      ensures clients == Swept(old(clients), now, maxIdle)
      ensures |old(closed)| <= |closed| && |closed| - |old(closed)| == |old(clients)| - |clients|
      ensures closed[..|old(closed)|] == old(closed)
      ensures forall i :: |old(closed)| <= i < |closed| ==>
                closed[i] in ClientsOf(old(clients), old(clients).Keys - clients.Keys)
    {
      var todo := clients.Keys;
      ghost var m0, c0 := clients, closed;
      SweepStateStart(m0, c0, now, maxIdle);
      while todo != {}
        invariant Valid() && SweepProgress(m0, c0, todo, now)
        decreases |todo|
      {
        var key :| key in todo;
        SweepStep(m0, c0, todo, key, now);
        todo := todo - {key};
      }
      SweepStateDone(m0, c0, now, maxIdle, clients, closed);
    }

    /** `SweepState` of this pool's table and close list. */
    ghost predicate SweepProgress(m0: map<string, Entry>, c0: seq<SSHClient>, todo: set<string>, now: int)
      reads this
    {
      SweepState(m0, c0, todo, now, maxIdle, clients, closed)
    }

    /** One iteration of the sweep: examine `key`. */
    method SweepStep(ghost m0: map<string, Entry>, ghost c0: seq<SSHClient>, todo: set<string>, key: string, now: int)
      requires Valid() && SweepProgress(m0, c0, todo, now) && key in todo
      modifies this
      ensures Valid() && SweepProgress(m0, c0, todo - {key}, now)
    {
      SweepStateAt(m0, c0, todo, now, maxIdle, clients, closed, key);
      var pc := clients[key];
      if !pc.inUse && now - pc.lastUsed > maxIdle {
        SweepStateDrop(m0, c0, todo, now, maxIdle, clients, closed, key);
        Drop(key);
      } else {
        SweepStateKeep(m0, c0, todo, now, maxIdle, clients, closed, key);
      }
    }

    /** `Close`: every pooled client is closed once and the table is left empty. */
    method Close()
      requires Valid()
      modifies this
      ensures Valid()
      ensures clients == map[]
      ensures |closed| == |old(closed)| + |old(clients)|
      ensures closed[..|old(closed)|] == old(closed)
      ensures forall i :: |old(closed)| <= i < |closed| ==> closed[i] in ClientsOf(old(clients), old(clients).Keys)
    {
      ghost var m0, c0 := clients, closed;
      while clients != map[]
        invariant Valid() && CloseProgress(m0, c0)
        decreases |clients|
      {
        var key :| key in clients;
        CloseStep(m0, c0, key);
      }
    }

    /**
     * Partway through `Close`: the entries left are untouched entries of
     * `m0`, and each client closed since `c0` belongs to `m0`, one per
     * entry gone.
     */
    ghost predicate CloseProgress(m0: map<string, Entry>, c0: seq<SSHClient>)
      reads this
    {
      && clients.Keys <= m0.Keys
      && (forall k :: k in clients ==> clients[k] == m0[k])
      && |c0| <= |closed| && |closed| - |c0| == |m0| - |clients|
      && closed[..|c0|] == c0
      && (forall i :: |c0| <= i < |closed| ==> closed[i] in ClientsOf(m0, m0.Keys))
    }

    /** One iteration of `Close`: close and drop the entry under `key`. */
    method CloseStep(ghost m0: map<string, Entry>, ghost c0: seq<SSHClient>, key: string)
      requires Valid() && CloseProgress(m0, c0) && key in clients
      modifies this
      ensures Valid() && CloseProgress(m0, c0) && |clients| < |old(clients)|
    {
      assert clients[key].client in ClientsOf(m0, m0.Keys);
      Drop(key);
    }

    /** The body shared by `Close` and the sweep: close the entry's client unless already closed, then delete it. */
    method Drop(key: string)
      requires Valid() && key in clients
      modifies this
      ensures Valid()
      ensures clients == old(clients) - {key}
      ensures closed == old(closed) + [old(clients)[key].client]
    {
      var pc := clients[key];
      DropKeepsValid(clients, closed, maxConns, key);
      if !pc.closeOnce {
        UpdateThenDelete(clients, key, pc.(closeOnce := true));
        clients := clients[key := pc.(closeOnce := true)];
        closed := closed + [pc.client];
      }
      clients := clients - {key};
    }
  }

  /**
   * Two callers for one key, then a release and a third caller. The second
   * caller is not given the first caller's client: it gets a new one, which
   * replaces the entry. When the first caller gives its client back, it is
   * the second caller's entry that becomes idle, so the third caller is
   * handed the client the second caller still holds.
   */
  method SharedAfterOverwrite(pool: SSHPool, config: SSHConfig, t: Transport, ssh: Shell, sftp: RemoteFs, now: int)
    returns (first: SSHClient, second: SSHClient, third: SSHClient)
    requires pool.Valid() && pool.clients == map[] && pool.maxConns >= 2
    requires ConnectFailure(config, t).None?
    modifies pool
    ensures pool.Valid()
    ensures first != second && third == second
  {
    var r1 := pool.GetClient(config, now, true, t, ssh, sftp);
    var r2 := pool.GetClient(config, now + 1, true, t, ssh, sftp);
    pool.ReleaseClient(config, now + 2);
    var r3 := pool.GetClient(config, now + 3, true, t, ssh, sftp);
    return r1.value, r2.value, r3.value;
  }

  /** With room for one connection, a second caller for the same key is refused: the entry in use counts toward the bound. */
  method RefusedWhileInUse(pool: SSHPool, config: SSHConfig, t: Transport, ssh: Shell, sftp: RemoteFs, now: int)
    returns (second: Result<SSHClient, PoolError>)
    requires pool.Valid() && pool.clients == map[] && pool.maxConns == 1
    requires ConnectFailure(config, t).None?
    modifies pool
    ensures second == Err(AtCapacity(1))
  {
    var r1 := pool.GetClient(config, now, true, t, ssh, sftp);
    second := pool.GetClient(config, now + 1, true, t, ssh, sftp);
  }
}
