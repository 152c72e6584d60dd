/** The inter-server session layer (h1emuserver.ts): a table of client
    records keyed by `address:port`, fed by datagrams from the socket
    worker, with a keepalive ping and a periodic eviction sweep. Emitted
    events and messages posted to the worker are kept as logs; the clock is
    the `now` argument of the operations that read it. */
module H1emuServer {
  import opened Wrappers

  /** `_pingTime`: the period of the keepalive and sweep timers, in ms. */
  const PING_TIME: nat := 10000
  /** `_pingTimeout`: how long a client may stay silent, in ms. */
  const PING_TIMEOUT: nat := 60000

  /** A datagram's remote endpoint. */
  datatype Endpoint = Endpoint(address: string, port: nat)

  /** The decimal digits of `n`, most significant first. */
  function Decimal(n: nat): (s: string)
    ensures |s| >= 1
    ensures forall i :: 0 <= i < |s| ==> '0' <= s[i] <= '9'
    ensures |s| == 1 <==> n < 10
  {
    if n < 10 then [('0' as int + n) as char]
    else Decimal(n / 10) + [('0' as int + n % 10) as char]
  }

  /** Different numbers have different decimal strings. */
  lemma {:induction false} DecimalInjective(m: nat, n: nat)
    requires Decimal(m) == Decimal(n)
    ensures m == n
  {
    if m >= 10 && n >= 10 {
      var s := Decimal(m);
      assert s[|s| - 1] == ('0' as int + m % 10) as char == ('0' as int + n % 10) as char;
      assert s[..|s| - 1] == Decimal(m / 10);
      assert Decimal(n)[..|s| - 1] == Decimal(n / 10);
      DecimalInjective(m / 10, n / 10);
    } else if m < 10 && n < 10 {
      assert Decimal(m)[0] == Decimal(n)[0];
    }
  }

  /** The dictionary key of an endpoint: `${address}:${port}`. */
  function ClientKey(e: Endpoint): string
  {
    e.address + ":" + Decimal(e.port)
  }

  /** Were the right-hand run longer, the `:` of the left would fall
      inside it. */
  lemma ColonAmongDigits(x: string, dx: string, y: string, dy: string)
    requires x + ":" + dx == y + ":" + dy && |dx| < |dy|
    ensures dy[|dy| - |dx| - 1] == ':'
  {
    var s := x + ":" + dx;
    assert s[|s| - |dx| - 1] == ':';
    assert (y + ":" + dy)[|s| - |dx| - 1] == dy[|dy| - |dx| - 1];
  }

  /** An address, a `:` and digits split back apart when the shorter
      run of digits is the one on the left. */
  lemma SplitAtLastColon(x: string, dx: string, y: string, dy: string)
    requires x + ":" + dx == y + ":" + dy && |dx| <= |dy|
    requires forall i :: 0 <= i < |dy| ==> '0' <= dy[i] <= '9'
    ensures x == y && dx == dy
  {
    var s := x + ":" + dx;
    if |dx| < |dy| {
      ColonAmongDigits(x, dx, y, dy);
      assert false;
    }
    assert dx == s[|s| - |dx|..] == dy;
    assert x == s[..|x|] == y;
  }

  /** The key identifies the endpoint: the port's digits hold no `:`, so
      the last `:` of the key separates the address from the port. */
  lemma ClientKeyInjective(a: Endpoint, b: Endpoint)
    requires ClientKey(a) == ClientKey(b)
    ensures a == b
  {
    if |Decimal(a.port)| <= |Decimal(b.port)| {
      SplitAtLastColon(a.address, Decimal(a.port), b.address, Decimal(b.port));
    } else {
      SplitAtLastColon(b.address, Decimal(b.port), a.address, Decimal(a.port));
    }
    DecimalInjective(a.port, b.port);
  }

  /** A parsed inter-server packet: its name and, for `SessionReply`, the
      status it carries. */
  datatype Packet = Packet(name: string, status: int)

  /** A message from the socket worker. `H1emuProtocol.parse` is not part
      of this model: an incoming datagram arrives already parsed, `None`
      standing for a datagram the protocol does not recognise. */
  datatype Message =
    | IncomingPacket(remote: Endpoint, packet: Option<Packet>)
    | OtherMessage(remote: Endpoint, kind: string)

  /** The parsed packet a message carries, if any. */
  function PacketOf(msg: Message): Option<Packet>
  {
    if msg.IncomingPacket? then msg.packet else None
  }

  /** Whether a message's packet writes its client's record: a `Ping`
      stamps `lastPing`, and an accepted `SessionReply` opens the session
      and takes the keepalive timer. */
  predicate TouchesClient(p: Option<Packet>)
  {
    p.Some? && (p.value.name == "Ping" || (p.value.name == "SessionReply" && p.value.status == 0))
  }

  /** An `H1emuClient` record; the source updates `session` and `lastPing`
      in place, and events hand out the record itself. */
  class Client {
    const address: string
    const port: nat
    const clientId: string
    var session: bool
    var lastPing: int

    /** `new Client(remote)`; h1emuclient.ts is not part of this model, so
        the identifier and first `lastPing` it assigns are parameters. */
    constructor(remote: Endpoint, clientId: string, lastPing: int)
      ensures address == remote.address && port == remote.port && this.clientId == clientId
      ensures !session && this.lastPing == lastPing
    {
      address := remote.address;
      port := remote.port;
      this.clientId := clientId;
      session := false;
      this.lastPing := lastPing;
    }

    function Remote(): Endpoint
    {
      Endpoint(address, port)
    }
  }

  /** The events the server emits: `connect`, `disconnect`, `session`,
      `sessionfailed` and `data`. */
  datatype Event =
    | Connected(client: Client)
    | Disconnected(client: Client, code: int)
    | Session(client: Client, status: int)
    | SessionFailed(client: Client, status: int)
    | Data(client: Client, packet: Packet)

  /** Messages posted to the socket worker; the packed bytes of a packet
      are not modelled, only its name and destination. */
  datatype Outbound =
    | Bind
    | SendPacket(packetName: string, address: string, port: nat)

  /** Who `sendData` is asked to send to: `None` is a null client. */
  datatype Recipient = Recipient(address: string, port: nat, session: bool)

  /** A client has gone silent for longer than the timeout. */
  predicate Stale(c: Client, now: int)
    reads c
  {
    now > c.lastPing + PING_TIMEOUT
  }

  predicate Distinct(s: seq<string>)
  {
    forall i, j :: 0 <= i < j < |s| ==> s[i] != s[j]
  }

  /** `s` without `k`. */
  function RemoveKey(s: seq<string>, k: string): (r: seq<string>)
    ensures forall x :: x in r <==> x in s && x != k
    ensures Distinct(s) ==> Distinct(r)
  {
    if s == [] then []
    else
      DistinctTail(s);
      if s[0] == k then RemoveKey(s[1..], k)
      else [s[0]] + RemoveKey(s[1..], k)
  }

  /** The keys of `s` that are still filed in `m`, in their order in `s`. */
  function Restrict<V>(s: seq<string>, m: map<string, V>): seq<string>
  {
    if s == [] then []
    else if s[0] in m then [s[0]] + Restrict(s[1..], m)
    else Restrict(s[1..], m)
  }

  /** Deleting a key from the filtered order is filtering by the table
      without that key. */
  lemma {:induction false} RemoveKeyRestrict<V>(s: seq<string>, m: map<string, V>, id: string)
    ensures RemoveKey(Restrict(s, m), id) == Restrict(s, m - {id})
  {
    if s != [] {
      RemoveKeyRestrict(s[1..], m, id);
    }
  }

  /** A key survives the filter exactly when it is in the order and in
      the table. */
  lemma {:induction false} RestrictMembers<V>(s: seq<string>, m: map<string, V>)
    ensures forall x :: x in Restrict(s, m) <==> x in s && x in m
  {
    if s != [] {
      RestrictMembers(s[1..], m);
    }
  }

  /** Filtering keeps an order free of repeats. */
  lemma {:induction false} RestrictDistinct<V>(s: seq<string>, m: map<string, V>)
    requires Distinct(s)
    ensures Distinct(Restrict(s, m))
  {
    if s != [] {
      DistinctTail(s);
      RestrictDistinct(s[1..], m);
      RestrictMembers(s[1..], m);
      if s[0] in m {
        var r := [s[0]] + Restrict(s[1..], m);
        forall i, j | 0 <= i < j < |r|
          ensures r[i] != r[j]
        {
          assert r[j] == Restrict(s[1..], m)[j - 1];
          if i > 0 {
            assert r[i] == Restrict(s[1..], m)[i - 1];
          }
        }
      }
    }
  }

  /** Filtering by a table that holds every key changes nothing. */
  lemma {:induction false} RestrictAll<V>(s: seq<string>, m: map<string, V>)
    requires forall x :: x in s ==> x in m
    ensures Restrict(s, m) == s
  {
    if s != [] {
      RestrictAll(s[1..], m);
    }
  }

  /** The tail of a list without repeats has none, and lacks the head. */
  lemma DistinctTail(s: seq<string>)
    requires s != []
    ensures Distinct(s) ==> Distinct(s[1..]) && s[0] !in s[1..]
  {
    if Distinct(s) {
      forall i | 0 <= i < |s[1..]| ensures s[1..][i] != s[0] {
        assert s[1..][i] == s[i + 1];
      }
      forall i, j | 0 <= i < j < |s[1..]| ensures s[1..][i] != s[1..][j] {
        assert s[1..][i] == s[i + 1] && s[1..][j] == s[j + 1];
      }
    }
  }

  /** The keys whose clients have gone silent at `now`. */
  function StaleKeys(clients: map<string, Client>, now: int): (r: set<string>)
    reads clients.Values
    ensures forall k :: k in r <==> k in clients && Stale(clients[k], now)
  {
    set k | k in clients && Stale(clients[k], now)
  }

  /** The sweep over `keys` as the source runs it, `stale` being the keys
      of the clients that have gone silent: a key deleted before it is
      visited is skipped, and a stale client is reported and then deleted
      under its `clientId`, whichever key that is. */
  function SweepFrom(clients: map<string, Client>, keys: seq<string>, stale: set<string>): (map<string, Client>, seq<Event>)
    decreases |keys|
  {
    if keys == [] then (clients, [])
    else if keys[0] in clients && keys[0] in stale then
      var c := clients[keys[0]];
      var rest := SweepFrom(clients - {c.clientId}, keys[1..], stale);
      (rest.0, [Disconnected(c, 1)] + rest.1)
    else SweepFrom(clients, keys[1..], stale)
  }

  /** One `disconnect` per key of `keys` whose client is stale, in order. */
  function StaleEvents(clients: map<string, Client>, keys: seq<string>, stale: set<string>): seq<Event>
  {
    if keys == [] then []
    else if keys[0] in clients && keys[0] in stale then
      [Disconnected(clients[keys[0]], 1)] + StaleEvents(clients, keys[1..], stale)
    else StaleEvents(clients, keys[1..], stale)
  }

  /** The clients that are not stale or not swept. */
  function Survivors(clients: map<string, Client>, keys: seq<string>, stale: set<string>): map<string, Client>
  {
    map k | k in clients && !(k in keys && k in stale) :: clients[k]
  }

  /** Every record is filed under its own `clientId`. */
  predicate IdsAreKeys(clients: map<string, Client>)
  {
    forall k :: k in clients ==> clients[k].clientId == k
  }

  /** Deleting a key the sweep does not visit changes none of the
      disconnects it reports. */
  lemma {:induction false} StaleEventsWithout(clients: map<string, Client>, keys: seq<string>, stale: set<string>, k: string)
    requires k !in keys
    ensures StaleEvents(clients - {k}, keys, stale) == StaleEvents(clients, keys, stale)
    decreases |keys|
  {
    if keys != [] {
      StaleEventsWithout(clients, keys[1..], stale, k);
    }
  }

  /** When every record is filed under its `clientId`, the sweep removes
      exactly the stale clients among the visited keys and reports each
      of them once, in visiting order. */
  lemma {:induction false} SweepEvictsStale(clients: map<string, Client>, keys: seq<string>, stale: set<string>)
    requires IdsAreKeys(clients) && Distinct(keys)
    ensures SweepFrom(clients, keys, stale) == (Survivors(clients, keys, stale), StaleEvents(clients, keys, stale))
    decreases |keys|
  {
    if keys != [] {
      var k := keys[0];
      assert Distinct(keys[1..]) by {
        forall i, j | 0 <= i < j < |keys[1..]| ensures keys[1..][i] != keys[1..][j] {
          assert keys[1..][i] == keys[i + 1] && keys[1..][j] == keys[j + 1];
        }
      }
      assert k !in keys[1..] by {
        forall i | 0 <= i < |keys[1..]| ensures keys[1..][i] != k {
          assert keys[1..][i] == keys[i + 1];
        }
      }
      if k in clients && k in stale {
        var rest := clients - {k};
        assert clients[k].clientId == k;
        assert IdsAreKeys(rest);
        SweepEvictsStale(rest, keys[1..], stale);
        StaleEventsWithout(clients, keys[1..], stale, k);
        assert SweepFrom(clients, keys, stale).1 == [Disconnected(clients[k], 1)] + StaleEvents(clients, keys[1..], stale);
        forall x ensures x in Survivors(rest, keys[1..], stale) <==> x in Survivors(clients, keys, stale) {
          assert x in keys <==> x == k || x in keys[1..];
        }
        assert Survivors(rest, keys[1..], stale) == Survivors(clients, keys, stale);
      } else {
        SweepEvictsStale(clients, keys[1..], stale);
        forall x ensures x in Survivors(clients, keys[1..], stale) <==> x in Survivors(clients, keys, stale) {
          assert x in keys <==> x == k || x in keys[1..];
        }
        assert Survivors(clients, keys[1..], stale) == Survivors(clients, keys, stale);
      }
    } else {
      assert Survivors(clients, keys, stale) == clients;
    }
  }

  /** With records filed under their `clientId`, a second sweep at the
      same time finds nothing to evict: each stale client is reported
      exactly once. */
  lemma SweepTwiceEvictsOnce(clients: map<string, Client>, keys: seq<string>, stale: set<string>)
    requires IdsAreKeys(clients) && Distinct(keys)
    ensures var after := SweepFrom(clients, keys, stale).0;
            SweepFrom(after, keys, stale) == (after, [])
  {
    SweepEvictsStale(clients, keys, stale);
    var after := Survivors(clients, keys, stale);
    assert IdsAreKeys(after);
    SweepEvictsStale(after, keys, stale);
    assert Survivors(after, keys, stale) == after;
    NoStaleEvents(after, keys, stale);
  }

  /** No visited key holds a stale client, so there is nothing to report. */
  lemma {:induction false} NoStaleEvents(clients: map<string, Client>, keys: seq<string>, stale: set<string>)
    requires forall k :: k in keys && k in clients ==> k !in stale
    ensures StaleEvents(clients, keys, stale) == []
    decreases |keys|
  {
    if keys != [] {
      assert keys[0] in keys;
      NoStaleEvents(clients, keys[1..], stale);
    }
  }

  /** When no record's `clientId` is a key of the table, the deletions
      miss: the sweep reports every stale client and keeps all of them,
      so the next sweep reports them again. */
  lemma {:induction false} SweepMissesForeignIds(clients: map<string, Client>, keys: seq<string>, stale: set<string>)
    requires forall k :: k in clients ==> clients[k].clientId !in clients
    ensures SweepFrom(clients, keys, stale) == (clients, StaleEvents(clients, keys, stale))
    decreases |keys|
  {
    if keys != [] {
      if keys[0] in clients && keys[0] in stale {
        assert clients - {clients[keys[0]].clientId} == clients;
      }
      SweepMissesForeignIds(clients, keys[1..], stale);
    }
  }

  /** The sweep's loop: walks the keys in insertion order and, for each
      filed stale client, emits `disconnect` and deletes the record under
      its `clientId` from the table and from the order. */
  method SweepKeys(clients: map<string, Client>, order: seq<string>, now: int)
    returns (remaining: map<string, Client>, sequence: seq<string>, emitted: seq<Event>)
    requires forall k :: k in order ==> k in clients
    ensures remaining == SweepFrom(clients, order, StaleKeys(clients, now)).0
    ensures emitted == SweepFrom(clients, order, StaleKeys(clients, now)).1
    ensures forall k :: k in remaining ==> k in clients && remaining[k] == clients[k]
    ensures sequence == Restrict(order, remaining)
  {
    var keys := order;
    remaining, sequence, emitted := clients, order, [];
    ghost var stale := StaleKeys(clients, now);
    ghost var target := SweepFrom(clients, keys, stale);
    RestrictAll(order, clients);
    assert emitted + target.1 == target.1;
    while keys != []
      invariant forall k :: k in remaining ==> k in clients && remaining[k] == clients[k]
      invariant target.0 == SweepFrom(remaining, keys, stale).0
      invariant target.1 == emitted + SweepFrom(remaining, keys, stale).1
      invariant sequence == Restrict(order, remaining)
      decreases |keys|
    {
      var key := keys[0];
      if key in remaining && now > remaining[key].lastPing + PING_TIMEOUT {
        var c := remaining[key];
        assert key in stale;
        ghost var rest := SweepFrom(remaining - {c.clientId}, keys[1..], stale);
        assert target.1 == (emitted + [Disconnected(c, 1)]) + rest.1;
        emitted := emitted + [Disconnected(c, 1)];
        RemoveKeyRestrict(order, remaining, c.clientId);
        remaining := remaining - {c.clientId};
        sequence := RemoveKey(sequence, c.clientId);
      } else {
        assert key !in stale || key !in remaining;
      }
      keys := keys[1..];
    }
  }

  /** `H1emuServer`. */
  class Server {
    /** `_isLogin`: whether a server port was given. */
    const isLogin: bool
    /** The `clientId` an `H1emuClient` built for an endpoint carries. */
    const clientIdOf: Endpoint -> string
    /** The `lastPing` an `H1emuClient` starts with. */
    const firstLastPing: int
    /** `_clients`, and its keys in insertion order (the order `for…in`
        visits them). */
    var clients: map<string, Client>
    var order: seq<string>
    /** Emitted events and messages posted to the worker, oldest first. */
    var events: seq<Event>
    var outbox: seq<Outbound>
    /** The client `_pingTimer` pings when it fires, and whether it is
        pending. */
    var pingTimer: Option<Client>
    var pingTimerArmed: bool
    /** Whether the eviction sweep's timer is pending. */
    var sweepArmed: bool

    /** Every record sits under its endpoint's key and carries that
        endpoint's `clientId`; `order` lists the keys once each. */
    ghost predicate Valid()
      reads this, clients.Values
    {
      (forall k :: k in clients ==>
         ClientKey(clients[k].Remote()) == k && clients[k].clientId == clientIdOf(clients[k].Remote()))
      && Distinct(order)
      && (forall k :: k in order <==> k in clients)
    }

    /** `new H1emuServer(serverPort)`: `_isLogin` is set exactly when a
        non-zero port is given. */
    constructor(serverPort: Option<nat>, clientIdOf: Endpoint -> string, firstLastPing: int)
      ensures isLogin <==> serverPort.Some? && serverPort.value != 0
      ensures this.clientIdOf == clientIdOf && this.firstLastPing == firstLastPing
      ensures clients == map[] && order == [] && events == [] && outbox == []
      ensures pingTimer == None && !pingTimerArmed && !sweepArmed
      ensures Valid()
    {
      isLogin := serverPort.Some? && serverPort.value != 0;
      this.clientIdOf := clientIdOf;
      this.firstLastPing := firstLastPing;
      clients := map[];
      order := [];
      events := [];
      outbox := [];
      pingTimer := None;
      pingTimerArmed := false;
      sweepArmed := false;
    }

    /** `start()` on the login side binds the port and arms the sweep; a
        zone-side server does neither. */
    method Start()
      modifies this
      ensures outbox == old(outbox) + (if isLogin then [Bind] else [])
      ensures sweepArmed == (old(sweepArmed) || isLogin)
      ensures unchanged(this`clients, this`order, this`events, this`pingTimer, this`pingTimerArmed)
    {
      if isLogin {
        outbox := outbox + [Bind];
        sweepArmed := true;
      }
    }

    /** `sendData(client, packetName, obj)`: nothing is posted for a null
        client, nor for a client without a session unless the packet is
        `SessionRequest`. */
    method SendData(client: Option<Recipient>, packetName: string)
      modifies this
      ensures client.None? ==> outbox == old(outbox)
      ensures client.Some? && !client.value.session && packetName != "SessionRequest" ==> outbox == old(outbox)
      ensures client.Some? && (client.value.session || packetName == "SessionRequest") ==>
                outbox == old(outbox) + [SendPacket(packetName, client.value.address, client.value.port)]
      ensures unchanged(this`clients, this`order, this`events, this`pingTimer, this`pingTimerArmed, this`sweepArmed)
    {
      if client.None? || (!client.value.session && packetName != "SessionRequest") {
        return;
      }
      outbox := outbox + [SendPacket(packetName, client.value.address, client.value.port)];
    }

    /** `connect(serverInfo, obj)`: always posts one `SessionRequest`. */
    method Connect(serverInfo: Endpoint)
      modifies this
      ensures outbox == old(outbox) + [SendPacket("SessionRequest", serverInfo.address, serverInfo.port)]
      ensures unchanged(this`clients, this`order, this`events, this`pingTimer, this`pingTimerArmed, this`sweepArmed)
    {
      SendData(Some(Recipient(serverInfo.address, serverInfo.port, false)), "SessionRequest");
    }

    /** `ping(client)`: posts a `Ping` (if the client has a session); on
        the login side that is all. On the zone side a silent client is
        reported and deleted under its `clientId`, and otherwise the
        keepalive timer is re-armed; never both. */
    method Ping(client: Client, now: int)
      requires Valid()
      modifies this
      ensures Valid()
      ensures outbox == old(outbox) + (if client.session then [SendPacket("Ping", client.address, client.port)] else [])
      ensures isLogin || !Stale(client, now) ==> clients == old(clients) && order == old(order) && events == old(events)
      ensures !isLogin && Stale(client, now) ==>
                events == old(events) + [Disconnected(client, 1)]
                && clients == old(clients) - {client.clientId}
                && order == RemoveKey(old(order), client.clientId)
      ensures pingTimerArmed == (old(pingTimerArmed) || (!isLogin && !Stale(client, now)))
      ensures unchanged(this`pingTimer, this`sweepArmed)
    {
      SendData(Some(Recipient(client.address, client.port, client.session)), "Ping");
      if isLogin {
        return;
      }
      if now > client.lastPing + PING_TIMEOUT {
        events := events + [Disconnected(client, 1)];
        Evict(client.clientId);
        return;
      }
      pingTimerArmed := true;
    }

    /** `delete this._clients[id]`, a no-op when `id` is not a key. */
    method Evict(id: string)
      requires Valid()
      modifies this
      ensures Valid()
      ensures clients == old(clients) - {id} && order == RemoveKey(old(order), id)
      ensures unchanged(this`events, this`outbox, this`pingTimer, this`pingTimerArmed, this`sweepArmed)
    {
      clients := clients - {id};
      order := RemoveKey(order, id);
    }

    /** The keepalive timer fires and pings its client: the `Ping` goes
        out if the client has a session; on the zone side a silent client
        is reported and evicted, and otherwise the timer is armed again. */
    method PingTimerFires(now: int)
      requires Valid()
      modifies this
      ensures Valid()
      ensures !old(pingTimerArmed) || old(pingTimer).None? ==> unchanged(this)
      ensures old(pingTimerArmed) && old(pingTimer).Some? ==>
                var c := old(pingTimer).value;
                outbox == old(outbox) + (if c.session then [SendPacket("Ping", c.address, c.port)] else [])
                && pingTimerArmed == (!isLogin && !Stale(c, now))
                && pingTimer == old(pingTimer) && sweepArmed == old(sweepArmed)
      ensures old(pingTimerArmed) && old(pingTimer).Some? && (isLogin || !Stale(old(pingTimer).value, now)) ==>
                clients == old(clients) && order == old(order) && events == old(events)
      ensures old(pingTimerArmed) && old(pingTimer).Some? && !isLogin && Stale(old(pingTimer).value, now) ==>
                var c := old(pingTimer).value;
                events == old(events) + [Disconnected(c, 1)]
                && clients == old(clients) - {c.clientId} && order == RemoveKey(old(order), c.clientId)
    {
      if pingTimerArmed && pingTimer.Some? {
        pingTimerArmed := false;
        Ping(pingTimer.value, now);
      }
    }

    /** The sweep timer's callback: visits the keys in insertion order
        and, for each stale client, emits `disconnect` and deletes the
        record under its `clientId`; the survivors keep their order. */
    method Sweep(now: int)
      requires Valid() && sweepArmed
      modifies this
      ensures Valid()
      ensures clients == SweepFrom(old(clients), old(order), old(StaleKeys(clients, now))).0
      ensures events == old(events) + SweepFrom(old(clients), old(order), old(StaleKeys(clients, now))).1
      ensures order == Restrict(old(order), clients)
      ensures unchanged(this`outbox, this`pingTimer, this`pingTimerArmed, this`sweepArmed)
    {
      var remaining, sequence, emitted := SweepKeys(clients, order, now);
      RestrictDistinct(order, remaining);
      RestrictMembers(order, remaining);
      clients, order, events := remaining, sequence, events + emitted;
    }

    /** The first datagram from an endpoint files a new record under its
        key and emits `connect`; later ones reuse the record. */
    method Lookup(remote: Endpoint) returns (client: Client)
      requires Valid()
      modifies this
      ensures Valid()
      ensures ClientKey(remote) in clients && client == clients[ClientKey(remote)]
      ensures clients == old(clients)[ClientKey(remote) := client]
      ensures ClientKey(remote) in old(clients) ==>
                client == old(clients)[ClientKey(remote)] && order == old(order) && events == old(events)
      ensures ClientKey(remote) !in old(clients) ==>
                fresh(client) && client.Remote() == remote && client.clientId == clientIdOf(remote)
                && !client.session && client.lastPing == firstLastPing
                && order == old(order) + [ClientKey(remote)] && events == old(events) + [Connected(client)]
      ensures forall k :: k in old(clients) && k != ClientKey(remote) ==> old(clients)[k] != client
      ensures unchanged(this`outbox, this`pingTimer, this`pingTimerArmed, this`sweepArmed)
    {
      var key := ClientKey(remote);
      if key !in clients {
        client := new Client(remote, clientIdOf(remote), firstLastPing);
        clients := clients[key := client];
        order := order + [key];
        events := events + [Connected(client)];
      } else {
        client := clients[key];
      }
    }

    /** The handling of a parsed packet from a filed client. `Ping`
        refreshes `lastPing` (and is answered on the login side);
        `SessionReply` with status 0 opens the session, emits `session`
        and arms the keepalive, any other status emits `sessionfailed`;
        any other packet is passed on as `data`. */
    method Dispatch(client: Client, packet: Packet, now: int)
      requires Valid() && ClientKey(client.Remote()) in clients && clients[ClientKey(client.Remote())] == client
      modifies this, client
      ensures Valid() && clients == old(clients) && order == old(order) && unchanged(this`sweepArmed)
      ensures packet.name == "Ping" ==>
                client.lastPing == now && client.session == old(client.session) && events == old(events)
                && outbox == old(outbox) + (if isLogin && client.session then [SendPacket("Ping", client.address, client.port)] else [])
                && unchanged(this`pingTimer, this`pingTimerArmed)
      ensures packet.name == "SessionReply" && packet.status == 0 ==>
                client.session && client.lastPing == old(client.lastPing)
                && events == old(events) + [Session(client, 0)]
                && pingTimer == Some(client) && pingTimerArmed && outbox == old(outbox)
      ensures packet.name == "SessionReply" && packet.status != 0 ==>
                unchanged(client) && events == old(events) + [SessionFailed(client, packet.status)]
                && outbox == old(outbox) && unchanged(this`pingTimer, this`pingTimerArmed)
      ensures packet.name != "Ping" && packet.name != "SessionReply" ==>
                unchanged(client) && events == old(events) + [Data(client, packet)]
                && outbox == old(outbox) && unchanged(this`pingTimer, this`pingTimerArmed)
    {
      if packet.name == "Ping" {
        if isLogin {
          Ping(client, now);
        }
        client.lastPing := now;
      } else if packet.name == "SessionReply" {
        if packet.status == 0 {
          client.session := true;
          pingTimer := Some(client);
          pingTimerArmed := true;
          events := events + [Session(client, packet.status)];
        } else {
          events := events + [SessionFailed(client, packet.status)];
        }
      } else {
        events := events + [Data(client, packet)];
      }
    }

    /** The worker's `message` handler: the record is filed first, even
        when the datagram then fails to parse or is not a packet; only a
        parsed packet is dispatched, and no other record is touched. */
    method HandleMessage(msg: Message, now: int) returns (client: Client)
      requires Valid()
      modifies this, clients.Values
      ensures Valid()
      ensures ClientKey(msg.remote) in clients && client == clients[ClientKey(msg.remote)]
      ensures clients == old(clients)[ClientKey(msg.remote) := client]
      ensures ClientKey(msg.remote) in old(clients) ==> client == old(clients)[ClientKey(msg.remote)]
      ensures ClientKey(msg.remote) !in old(clients) ==>
                fresh(client) && client.Remote() == msg.remote && client.clientId == clientIdOf(msg.remote)
      ensures forall k :: k in old(clients) && k != ClientKey(msg.remote) ==> unchanged(old(clients)[k])
      ensures PacketOf(msg).None? ==>
                events == old(events) + (if ClientKey(msg.remote) in old(clients) then [] else [Connected(client)])
                && outbox == old(outbox) && unchanged(this`pingTimer, this`pingTimerArmed)
                && (ClientKey(msg.remote) in old(clients) ==> unchanged(client))
      ensures var connect := if ClientKey(msg.remote) in old(clients) then [] else [Connected(client)];
              |old(events)| + |connect| <= |events| && events[..|old(events)| + |connect|] == old(events) + connect
      ensures PacketOf(msg).Some? && PacketOf(msg).value.name == "Ping" ==>
                var connect := if ClientKey(msg.remote) in old(clients) then [] else [Connected(client)];
                client.lastPing == now && events == old(events) + connect
                && outbox == old(outbox) + (if isLogin && client.session then [SendPacket("Ping", client.address, client.port)] else [])
      ensures PacketOf(msg).Some? && PacketOf(msg).value.name == "SessionReply" && PacketOf(msg).value.status == 0 ==>
                var connect := if ClientKey(msg.remote) in old(clients) then [] else [Connected(client)];
                client.session && events == old(events) + connect + [Session(client, 0)]
                && pingTimer == Some(client) && pingTimerArmed && outbox == old(outbox)
      ensures PacketOf(msg).Some? && PacketOf(msg).value.name == "SessionReply" && PacketOf(msg).value.status != 0 ==>
                var connect := if ClientKey(msg.remote) in old(clients) then [] else [Connected(client)];
                events == old(events) + connect + [SessionFailed(client, PacketOf(msg).value.status)] && outbox == old(outbox)
      ensures PacketOf(msg).Some? && PacketOf(msg).value.name != "Ping" && PacketOf(msg).value.name != "SessionReply" ==>
                var connect := if ClientKey(msg.remote) in old(clients) then [] else [Connected(client)];
                events == old(events) + connect + [Data(client, PacketOf(msg).value)] && outbox == old(outbox)
      ensures order == if ClientKey(msg.remote) in old(clients) then old(order) else old(order) + [ClientKey(msg.remote)]
      ensures ClientKey(msg.remote) in old(clients) && !TouchesClient(PacketOf(msg)) ==> unchanged(client)
      ensures ClientKey(msg.remote) !in old(clients) && !TouchesClient(PacketOf(msg)) ==>
                !client.session && client.lastPing == firstLastPing
      ensures PacketOf(msg).Some? && PacketOf(msg).value.name == "Ping" ==>
                client.session == (ClientKey(msg.remote) in old(clients) && old(clients[ClientKey(msg.remote)].session))
      ensures PacketOf(msg).Some? && PacketOf(msg).value.name == "SessionReply" && PacketOf(msg).value.status == 0 ==>
                client.lastPing == if ClientKey(msg.remote) in old(clients) then old(clients[ClientKey(msg.remote)].lastPing) else firstLastPing
      ensures !(TouchesClient(PacketOf(msg)) && PacketOf(msg).value.name == "SessionReply") ==>
                unchanged(this`pingTimer, this`pingTimerArmed)
      ensures unchanged(this`sweepArmed)
    {
      client := Lookup(msg.remote);
      if msg.OtherMessage? || msg.packet.None? {
        return;
      }
      Dispatch(client, msg.packet.value, now);
    }
  }
}
